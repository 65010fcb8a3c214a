/**
 * Path handling behind the "back" button's last resort: when the page stack
 * cannot help and the browser has no history, the current pathname decides
 * which list page (or which index page) to redirect to.
 */
module Paths {

  /** `word` occurs in `text` starting at index `i`. */
  ghost predicate OccursAt(text: string, word: string, i: int)
  {
    0 <= i && i + |word| <= |text| && text[i..i + |word|] == word
  }

  /** JavaScript's `text.includes(word)`, as a scan from the front. */
  function Includes(text: string, word: string): bool
    decreases |text|
  {
    if |text| < |word| then false
    else if text[..|word|] == word then true
    else Includes(text[1..], word)
  }

  /** The scan agrees with the positional definition of a substring. */
  lemma {:induction false} IncludesIff(text: string, word: string)
    ensures Includes(text, word) <==> exists i :: OccursAt(text, word, i)
    decreases |text|
  {
    if |text| < |word| {
    } else if text[..|word|] == word {
      assert OccursAt(text, word, 0);
    } else {
      IncludesIff(text[1..], word);
      if Includes(text[1..], word) {
        var j :| OccursAt(text[1..], word, j);
        assert text[j + 1..j + 1 + |word|] == text[1..][j..j + |word|];
        assert OccursAt(text, word, j + 1);
      } else {
        forall i | OccursAt(text, word, i)
          ensures false
        {
          assert i != 0;
          assert text[1..][i - 1..i - 1 + |word|] == text[i..i + |word|];
          assert OccursAt(text[1..], word, i - 1);
        }
      }
    }
  }

  /** JavaScript's `s.split(sep)` for a one-character separator. */
  function Split(s: string, sep: char): (parts: seq<string>)
    ensures |parts| >= 1
    ensures forall k :: 0 <= k < |parts| ==> sep !in parts[k]
    decreases |s|
  {
    if s == [] then [[]]
    else
      var rest := Split(s[1..], sep);
      if s[0] == sep then [[]] + rest
      else [[s[0]] + rest[0]] + rest[1..]
  }

  /** JavaScript's `parts.join(sep)`; the inverse of `Split`. */
  function Join(parts: seq<string>, sep: char): string
    requires |parts| >= 1
  {
    if |parts| == 1 then parts[0] else parts[0] + [sep] + Join(parts[1..], sep)
  }

  /** Splitting loses nothing: joining the parts back gives the input. */
  lemma {:induction false} JoinSplit(s: string, sep: char)
    ensures Join(Split(s, sep), sep) == s
    decreases |s|
  {
    if s != [] {
      var rest := Split(s[1..], sep);
      JoinSplit(s[1..], sep);
      if s[0] == sep {
        assert ([[]] + rest)[1..] == rest;
      } else {
        var parts := [[s[0]] + rest[0]] + rest[1..];
        if |rest| > 1 {
          assert parts[1..] == rest[1..];
          assert Join(rest, sep) == rest[0] + [sep] + Join(rest[1..], sep);
        }
      }
    }
  }

  /** Splitting a join of separator-free parts gives the parts back. */
  lemma {:induction false} SplitJoin(parts: seq<string>, sep: char)
    requires |parts| >= 1
    requires forall k :: 0 <= k < |parts| ==> sep !in parts[k]
    ensures Split(Join(parts, sep), sep) == parts
    decreases |parts|, |parts[0]|
  {
    if parts[0] == [] {
      if |parts| > 1 {
        SplitJoin(parts[1..], sep);
        assert Join(parts, sep) == [sep] + Join(parts[1..], sep);
        assert ([sep] + Join(parts[1..], sep))[1..] == Join(parts[1..], sep);
      }
    } else {
      var c := parts[0][0];
      var shorter := [parts[0][1..]] + parts[1..];
      assert sep !in shorter[0];
      SplitJoin(shorter, sep);
      var s := Join(parts, sep);
      if |parts| == 1 {
        assert s[1..] == Join(shorter, sep);
      } else {
        assert shorter[1..] == parts[1..];
        assert s == [c] + (parts[0][1..] + [sep] + Join(parts[1..], sep));
        assert s[1..] == Join(shorter, sep);
      }
      assert s[0] == c && c != sep;
      assert [c] + shorter[0] == parts[0];
      assert [[c] + shorter[0]] + shorter[1..] == parts;
    }
  }

  /** The last part of a join is preceded by the separator. */
  lemma {:induction false} JoinLast(parts: seq<string>, sep: char)
    requires |parts| >= 2
    ensures Join(parts, sep) == Join(parts[..|parts| - 1], sep) + [sep] + parts[|parts| - 1]
    decreases |parts|
  {
    if |parts| > 2 {
      JoinLast(parts[1..], sep);
      assert parts[1..][..|parts| - 2] == parts[..|parts| - 1][1..];
    }
  }

  /** `path.split('/').pop()`: the final `/`-separated segment of a path. */
  function LastSegment(path: string): string
  {
    var parts := Split(path, '/');
    parts[|parts| - 1]
  }

  /**
   * The last segment is the longest suffix of the path without a `/`:
   * it has no `/`, it ends the path, and it either is the whole path or
   * follows a `/`.
   */
  lemma LastSegmentIsFinalComponent(path: string)
    ensures var seg := LastSegment(path);
      '/' !in seg && |seg| <= |path| && path[|path| - |seg|..] == seg &&
      (|seg| == |path| || path[|path| - |seg| - 1] == '/')
  {
    var parts := Split(path, '/');
    var seg := parts[|parts| - 1];
    JoinSplit(path, '/');
    if |parts| >= 2 {
      JoinLast(parts, '/');
      var front := Join(parts[..|parts| - 1], '/');
      assert path == front + ['/'] + seg;
      assert path[|path| - |seg|..] == seg;
      assert path[|path| - |seg| - 1] == '/';
    }
  }

  /** A list page of the site and the word in a page name that selects it. */
  datatype Section = Section(keyword: string, listPage: string)

  /** The sections in the order in which the fallback tests them. */
  const Sections: seq<Section> := [
    Section("sport", "sport.html"),
    Section("book", "books.html"),
    Section("code", "code.html"),
    Section("writing", "writing.html"),
    Section("art", "art.html")
  ]

  const PagesDir := "pages/"
  const SiteIndex := "index.html"
  const ParentIndex := "../index.html"

  /**
   * Where `goBack` sends the browser when neither the page stack nor the
   * browser history can take it back: a page under `pages/` goes to the list
   * page whose keyword its file name contains (first match in the order
   * sport, book, code, writing, art), or to the parent index; any other page
   * goes to the site index.
   */
  function BackFallback(pathname: string): (target: string)
    ensures target == SiteIndex <==> !Includes(pathname, PagesDir)
    ensures target in {SiteIndex, ParentIndex, "sport.html", "books.html", "code.html", "writing.html", "art.html"}
  {
    if Includes(pathname, PagesDir) then
      var pageName := LastSegment(pathname);
      if Includes(pageName, "sport") then "sport.html"
      else if Includes(pageName, "book") then "books.html"
      else if Includes(pageName, "code") then "code.html"
      else if Includes(pageName, "writing") then "writing.html"
      else if Includes(pageName, "art") then "art.html"
      else ParentIndex
    else SiteIndex
  }

  datatype Option<T> = None | Some(value: T)

  /** Reference reading of the section rules: the first section in `sections` whose keyword `name` contains. */
  function FirstSection(name: string, sections: seq<Section>): (r: Option<nat>)
    ensures r.Some? ==> r.value < |sections| && Includes(name, sections[r.value].keyword)
    ensures r.Some? ==> forall j :: 0 <= j < r.value ==> !Includes(name, sections[j].keyword)
    ensures r.None? ==> forall j :: 0 <= j < |sections| ==> !Includes(name, sections[j].keyword)
  {
    if sections == [] then None
    else if Includes(name, sections[0].keyword) then Some(0)
    else match FirstSection(name, sections[1..])
      case None => None
      case Some(k) => Some(k + 1)
  }


  /**
   * The if-chain of the fallback agrees with the table reading: off `pages/`
   * the target is the site index; under `pages/` it is the list page of the
   * first matching section, or the parent index when no section matches.
   */
  lemma BackFallbackBySections(pathname: string)
    ensures !Includes(pathname, PagesDir) ==> BackFallback(pathname) == SiteIndex
    ensures Includes(pathname, PagesDir) ==>
      BackFallback(pathname) ==
        match FirstSection(LastSegment(pathname), Sections)
        case Some(i) => Sections[i].listPage
        case None => ParentIndex
  {
    var name := LastSegment(pathname);
    assert Sections[0] == Section("sport", "sport.html");
    assert Sections[1] == Section("book", "books.html");
    assert Sections[2] == Section("code", "code.html");
    assert Sections[3] == Section("writing", "writing.html");
    assert Sections[4] == Section("art", "art.html");
    match FirstSection(name, Sections)
    case None =>
      assert forall j :: 0 <= j < 5 ==> !Includes(name, Sections[j].keyword);
    case Some(i) =>
      assert forall j :: 0 <= j < i ==> !Includes(name, Sections[j].keyword);
      assert i < 5;
  }

  /** Ties between keywords go to the section tested first. */
  lemma FirstKeywordWins(pathname: string, i: nat)
    requires Includes(pathname, PagesDir)
    requires i < |Sections|
    requires Includes(LastSegment(pathname), Sections[i].keyword)
    requires forall j :: 0 <= j < i ==> !Includes(LastSegment(pathname), Sections[j].keyword)
    ensures BackFallback(pathname) == Sections[i].listPage
  {
    BackFallbackBySections(pathname);
  }
}
