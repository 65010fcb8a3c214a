/**
 * The in-page navigator of the composing page (the page that has a
 * `main-content` container). Every navigation pushes an entry that replays
 * it; "back" drops the current entry and replays the one below it. Off the
 * composing page every navigation is a plain redirect, and "back" defers to
 * the browser history or to a fallback route chosen from the pathname.
 *
 * A stack entry is the closure `() => loadPage(page, options)`; it is
 * modelled by the page it replays. The fetch and its promise chain are
 * modelled by the way the whole chain settles.
 */
module Navigation {
  import Paths

  /** The id whose presence in the document marks the composing page. */
  const MainContentId := "main-content"

  /**
   * How the promise chain started by `fetch(page)` settles. `Fetched`: the
   * fetch, `res.text()` and the whole success handler (content swap, script
   * re-instantiation, `options.onLoad`) complete. `Failed`: any of those
   * steps rejects or throws, so the `.catch` handler runs.
   */
  datatype FetchResult = Fetched | Failed

  /** What the browser ends up doing after a navigation call. */
  datatype Outcome =
    | Redirect(target: string)  // `window.location.href = target`
    | Show(page: string)        // the container now holds the fetched page
    | HistoryBack               // `window.history.back()`

  /** The browser state `goBack` consults besides the page stack. */
  datatype BrowserHistory = BrowserHistory(length: nat, pathname: string)

  /** The navigator's state: the page stack and whether the container exists. */
  datatype NavState = NavState(pageStack: seq<string>, mainPage: bool)

  datatype Step = Step(state: NavState, outcome: Outcome)

  /** What a load of `page` on the composing page ends in, once the fetch settles. */
  function Arrival(page: string, fetch: FetchResult): Outcome
  {
    match fetch
    case Fetched => Show(page)
    case Failed => Redirect(page)
  }

  /** `loadPage(page)`: a redirect off the composing page, otherwise push then fetch. */
  function Load(s: NavState, page: string, fetch: FetchResult): (r: Step)
    ensures r.state.mainPage == s.mainPage
    ensures r.outcome == Show(page) || r.outcome == Redirect(page)
    ensures r.outcome.Show? <==> s.mainPage && fetch.Fetched?
    ensures !s.mainPage ==> r.state.pageStack == s.pageStack
    ensures s.mainPage ==>
      |r.state.pageStack| == |s.pageStack| + 1 &&
      r.state.pageStack[..|s.pageStack|] == s.pageStack &&
      r.state.pageStack[|s.pageStack|] == page
  {
    if !s.mainPage then Step(s, Redirect(page))
    else Step(NavState(s.pageStack + [page], s.mainPage), Arrival(page, fetch))
  }

  /**
   * Where `goBack` sends the browser when the page stack cannot be used:
   * never to a page of the stack; to the fallback route exactly when the
   * history has no earlier entry.
   */
  function Deferred(history: BrowserHistory): (r: Outcome)
    ensures !r.Show?
    ensures r.HistoryBack? <==> history.length > 1
    ensures r.Redirect? ==> r.target == Paths.BackFallback(history.pathname)
  {
    if history.length > 1 then HistoryBack
    else Redirect(Paths.BackFallback(history.pathname))
  }

  /**
   * `goBack()`: on the composing page with at least two entries, pop the
   * current entry, pop the previous one and replay it (which pushes it
   * again); otherwise leave the stack alone and defer to the browser.
   */
  function Back(s: NavState, history: BrowserHistory, fetch: FetchResult): (r: Step)
    ensures r.state.mainPage == s.mainPage
    ensures s.mainPage && |s.pageStack| > 1 ==>
      r.state.pageStack == s.pageStack[..|s.pageStack| - 1] &&
      r.outcome == Arrival(r.state.pageStack[|r.state.pageStack| - 1], fetch)
    ensures !(s.mainPage && |s.pageStack| > 1) ==>
      r.state == s && r.outcome == Deferred(history)
  {
    if s.mainPage && |s.pageStack| > 1 then
      var n := |s.pageStack|;
      var prev := s.pageStack[n - 2];
      Load(NavState(s.pageStack[..n - 2], s.mainPage), prev, fetch)
    else Step(s, Deferred(history))
  }

  /** One call into the navigator from a page of the site. */
  datatype Action =
    | Navigate(page: string, fetch: FetchResult)
    | Return(history: BrowserHistory, fetch: FetchResult)

  function Perform(s: NavState, a: Action): Step
  {
    match a
    case Navigate(page, fetch) => Load(s, page, fetch)
    case Return(history, fetch) => Back(s, history, fetch)
  }

  /** The navigator's state after a sequence of calls. */
  function Run(s: NavState, actions: seq<Action>): NavState
    decreases |actions|
  {
    if actions == [] then s else Run(Perform(s, actions[0]).state, actions[1..])
  }

  /** The pages named by the navigations among `actions`. */
  function NavigatedPages(actions: seq<Action>): set<string>
  {
    if actions == [] then {}
    else (if actions[0].Navigate? then {actions[0].page} else {}) + NavigatedPages(actions[1..])
  }

  /** The number of navigations among `actions`. */
  function NavigationCount(actions: seq<Action>): nat
  {
    if actions == [] then 0
    else (if actions[0].Navigate? then 1 else 0) + NavigationCount(actions[1..])
  }

  /** Running two sequences of calls is running the first, then the second. */
  lemma {:induction false} RunAppend(s: NavState, first: seq<Action>, second: seq<Action>)
    ensures Run(s, first + second) == Run(Run(s, first), second)
    decreases |first|
  {
    if first != [] {
      assert (first + second)[0] == first[0];
      assert (first + second)[1..] == first[1..] + second;
      RunAppend(Perform(s, first[0]).state, first[1..], second);
    } else {
      assert first + second == second;
    }
  }

  /** No call adds or removes the main container. */
  lemma {:induction false} RunKeepsMainPage(s: NavState, actions: seq<Action>)
    ensures Run(s, actions).mainPage == s.mainPage
    decreases |actions|
  {
    if actions != [] {
      RunKeepsMainPage(Perform(s, actions[0]).state, actions[1..]);
    }
  }

  /** Off the composing page no call touches the page stack. */
  lemma {:induction false} OffMainPageStackUnchanged(s: NavState, actions: seq<Action>)
    requires !s.mainPage
    ensures Run(s, actions).pageStack == s.pageStack
    decreases |actions|
  {
    if actions != [] {
      OffMainPageStackUnchanged(Perform(s, actions[0]).state, actions[1..]);
    }
  }

  /** Every stack entry replays a page that was on the stack before or was navigated to. */
  lemma {:induction false} EntriesWereNavigated(s: NavState, actions: seq<Action>)
    ensures forall e :: e in Run(s, actions).pageStack ==> e in s.pageStack || e in NavigatedPages(actions)
    decreases |actions|
  {
    if actions != [] {
      var t := Perform(s, actions[0]).state;
      EntriesWereNavigated(t, actions[1..]);
      forall e | e in t.pageStack
        ensures e in s.pageStack || e in NavigatedPages(actions)
      {
        if actions[0].Return? && s.mainPage && |s.pageStack| > 1 {
          assert t.pageStack == s.pageStack[..|s.pageStack| - 1];
        } else if actions[0].Navigate? && s.mainPage {
          assert t.pageStack == s.pageStack + [actions[0].page];
        }
      }
    }
  }

  /**
   * Going back never empties a stack that has an entry, and the stack grows
   * by at most one entry per navigation.
   */
  lemma {:induction false} StackBounds(s: NavState, actions: seq<Action>)
    ensures |s.pageStack| >= 1 ==> |Run(s, actions).pageStack| >= 1
    ensures |Run(s, actions).pageStack| <= |s.pageStack| + NavigationCount(actions)
    decreases |actions|
  {
    if actions != [] {
      StackBounds(Perform(s, actions[0]).state, actions[1..]);
    }
  }

  /** Navigating to each of `pages` in turn, every fetch settling as `fetch`. */
  function Navigations(pages: seq<string>, fetch: FetchResult): (actions: seq<Action>)
    ensures |actions| == |pages|
  {
    if pages == [] then [] else [Navigate(pages[0], fetch)] + Navigations(pages[1..], fetch)
  }

  /** Pressing "back" `k` times. */
  function Returns(k: nat, history: BrowserHistory, fetch: FetchResult): (actions: seq<Action>)
    ensures |actions| == k
  {
    if k == 0 then [] else [Return(history, fetch)] + Returns(k - 1, history, fetch)
  }

  /**
   * On the composing page, navigations push their pages in order, whether or
   * not the fetches succeed: a failed fetch does not take its entry back.
   */
  lemma {:induction false} NavigationsPush(s: NavState, pages: seq<string>, fetch: FetchResult)
    requires s.mainPage
    ensures Run(s, Navigations(pages, fetch)) == NavState(s.pageStack + pages, s.mainPage)
    decreases |pages|
  {
    if pages != [] {
      var t := Load(s, pages[0], fetch).state;
      assert t.pageStack == s.pageStack + [pages[0]];
      NavigationsPush(t, pages[1..], fetch);
      assert t.pageStack + pages[1..] == s.pageStack + pages;
    }
  }

  /** On the composing page, `k` backs drop exactly the last `k` entries while at least one remains. */
  lemma {:induction false} ReturnsPop(s: NavState, k: nat, history: BrowserHistory, fetch: FetchResult)
    requires s.mainPage && k < |s.pageStack|
    ensures Run(s, Returns(k, history, fetch)) == NavState(s.pageStack[..|s.pageStack| - k], s.mainPage)
    decreases k
  {
    if k > 0 {
      var t := Back(s, history, fetch).state;
      ReturnsPop(t, k - 1, history, fetch);
      assert t.pageStack[..|t.pageStack| - (k - 1)] == s.pageStack[..|s.pageStack| - k];
    } else {
      assert s.pageStack[..|s.pageStack|] == s.pageStack;
    }
  }

  /**
   * A session on the composing page: after navigating to `pages` and going
   * back `j` times (fewer than the number of pages), the stack is the first
   * `|pages| - j` pages.
   */
  lemma NavigateThenReturn(pages: seq<string>, j: nat, history: BrowserHistory)
    requires j < |pages|
    ensures Run(NavState([], true), Navigations(pages, Fetched) + Returns(j, history, Fetched))
      == NavState(pages[..|pages| - j], true)
  {
    var s := NavState([], true);
    var forward := Navigations(pages, Fetched);
    var backward := Returns(j, history, Fetched);
    RunAppend(s, forward, backward);
    NavigationsPush(s, pages, Fetched);
    assert [] + pages == pages;
    ReturnsPop(NavState(pages, true), j, history, Fetched);
  }

  /**
   * In the same session, the `j`-th back shows the page navigated to `j`
   * steps before the last one, which is the new top of the stack.
   */
  lemma NavigateThenReturnShows(pages: seq<string>, j: nat, history: BrowserHistory)
    requires 0 < j < |pages|
    ensures var s := Run(NavState([], true), Navigations(pages, Fetched) + Returns(j - 1, history, Fetched));
      Back(s, history, Fetched).outcome == Show(pages[|pages| - j - 1])
  {
    NavigateThenReturn(pages, j - 1, history);
  }

  /**
   * The initial view of the composing page is never pushed: once back at the
   * first navigated page, "back" leaves the stack as it is and defers to the
   * browser history, or to the site index when the history is empty.
   */
  lemma FirstPageBackDefers(pages: seq<string>, history: BrowserHistory, fetch: FetchResult)
    requires |pages| >= 1
    ensures var s := Run(NavState([], true), Navigations(pages, Fetched) + Returns(|pages| - 1, history, Fetched));
      s.pageStack == [pages[0]] &&
      Back(s, history, fetch) == Step(s, Deferred(history))
    ensures !Paths.Includes(history.pathname, Paths.PagesDir) && history.length <= 1 ==>
      Deferred(history) == Redirect(Paths.SiteIndex)
  {
    NavigateThenReturn(pages, |pages| - 1, history);
    Paths.BackFallbackBySections(history.pathname);
  }

  /** The navigator as the page holds it: the global page stack and the document it inspects. */
  class Navigator {
    var pageStack: seq<string>
    /** The ids of the elements in the current document. */
    var elementIds: set<string>

    constructor (elementIds: set<string>)
      ensures this.pageStack == [] && this.elementIds == elementIds
    {
      pageStack := [];
      this.elementIds := elementIds;
    }

    /** `isMainPage()`: the document has an element with id `main-content`. */
    predicate IsMainPage()
      reads this
    {
      MainContentId in elementIds
    }

    function State(): NavState
      reads this
    {
      NavState(pageStack, IsMainPage())
    }

    /** `loadPage(page)`, with `fetch` the way the page's fetch settles. */
    method LoadPage(page: string, fetch: FetchResult) returns (outcome: Outcome)
      modifies this`pageStack
      ensures Step(State(), outcome) == Load(old(State()), page, fetch)
    {
      if !IsMainPage() {
        outcome := Redirect(page);
        return;
      }
      pageStack := pageStack + [page];
      match fetch
      case Fetched =>
        outcome := Show(page);
      case Failed =>
        outcome := Redirect(page);
    }

    /** `goBack()`, with the browser history it consults and the way a replayed fetch settles. */
    method GoBack(history: BrowserHistory, fetch: FetchResult) returns (outcome: Outcome)
      modifies this`pageStack
      ensures Step(State(), outcome) == Back(old(State()), history, fetch)
    {
      if IsMainPage() && |pageStack| > 1 {
        pageStack := pageStack[..|pageStack| - 1];
        var prev := pageStack[|pageStack| - 1];
        pageStack := pageStack[..|pageStack| - 1];
        outcome := LoadPage(prev, fetch);
      } else if history.length > 1 {
        outcome := HistoryBack;
      } else {
        outcome := Redirect(Paths.BackFallback(history.pathname));
      }
    }
  }
}
