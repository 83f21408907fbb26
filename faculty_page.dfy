/** The faculty page: its department bar, the members shown for the selected
    department, and the initials on each member's avatar. The selection
    (`useState`, initially "All") is an argument. */
module FacultyPage {
  import opened Sequences
  import opened Schema
  import opened Filters

  function DepartmentOf(f: Faculty): string { f.department }

  /** `["All", ...Array.from(new Set(faculty.map((f) => f.department)))]` */
  function Departments(faculty: seq<Faculty>): (bar: seq<string>)
    ensures |bar| >= 1 && bar[0] == All
    ensures NoDuplicates(bar[1..])
    ensures forall i :: 0 <= i < |faculty| ==> faculty[i].department in bar[1..]
    ensures forall d :: d in bar[1..] ==> exists i :: 0 <= i < |faculty| && faculty[i].department == d
    ensures InFirstSeenOrder(bar[1..], Map(DepartmentOf, faculty))
  {
    FilterBar(Map(DepartmentOf, faculty))
  }

  /** The members shown for `selected`: everyone for "All", otherwise the
      members of that department, in their order. */
  function FilteredFaculty(faculty: seq<Faculty>, selected: string): (shown: seq<Faculty>)
    ensures selected == All ==> shown == faculty
    ensures selected != All ==> IsSubsequence(shown, faculty)
    ensures selected != All ==> forall i :: 0 <= i < |shown| ==> shown[i].department == selected
    ensures |shown| <= |faculty|
  {
    Selected(faculty, DepartmentOf, selected)
  }

  /** Under a department, every member of it is shown as often as they occur,
      and no one else is. */
  lemma FilteredFacultyComplete(faculty: seq<Faculty>, selected: string, f: Faculty)
    requires selected != All
    ensures multiset(FilteredFaculty(faculty, selected))[f] == if f.department == selected then multiset(faculty)[f] else 0
  {
    MatchingCounts(faculty, DepartmentOf, selected, f);
  }

  /** A department no member has shows no one. */
  lemma UnknownDepartmentShowsNoOne(faculty: seq<Faculty>, selected: string)
    requires selected != All
    requires forall i :: 0 <= i < |faculty| ==> faculty[i].department != selected
    ensures FilteredFaculty(faculty, selected) == []
  {
    NothingMatches(faculty, DepartmentOf, selected);
  }

  // ------------------------------------------------------------------ initials

  /** `s.split(" ")`: the pieces between single spaces, so consecutive,
      leading and trailing spaces yield empty pieces, and "" yields [""]. */
  function Split(s: string): (parts: seq<string>)
    ensures |parts| >= 1
    ensures forall i :: 0 <= i < |parts| ==> ' ' !in parts[i]
  {
    if s == [] then [""]
    else
      var rest := Split(s[1..]);
      if s[0] == ' ' then [""] + rest
      else [[s[0]] + rest[0]] + rest[1..]
  }

  /** `parts.join(" ")`. */
  function JoinWithSpaces(parts: seq<string>): string
    requires |parts| >= 1
  {
    if |parts| == 1 then parts[0] else parts[0] + " " + JoinWithSpaces(parts[1..])
  }

  /** The number of spaces in `s`. */
  function SpaceCount(s: string): nat {
    if s == [] then 0 else (if s[0] == ' ' then 1 else 0) + SpaceCount(s[1..])
  }

  /** Splitting loses nothing: joining the pieces gives the name back, and
      there is one more piece than there are spaces. */
  lemma {:induction false} SplitJoinRoundTrip(s: string)
    ensures JoinWithSpaces(Split(s)) == s
    ensures |Split(s)| == SpaceCount(s) + 1
  {
    if s != [] {
      SplitJoinRoundTrip(s[1..]);
      var rest := Split(s[1..]);
      if s[0] == ' ' {
        assert ([""] + rest)[1..] == rest;
      } else {
        var parts := Split(s);
        assert parts[1..] == rest[1..];
        if |rest| == 1 {
          assert JoinWithSpaces(parts) == [s[0]] + rest[0];
        } else {
          assert JoinWithSpaces(rest) == rest[0] + " " + JoinWithSpaces(rest[1..]);
        }
      }
    }
  }

  /** `n[0]`, which is `undefined` for an empty piece; `join` writes
      `undefined` as nothing. */
  function FirstLetter(part: string): (r: string)
    ensures |r| <= 1
  {
    if part == [] then [] else [part[0]]
  }

  /** `strs.join("")`. */
  function Concat(strs: seq<string>): string {
    if strs == [] then [] else strs[0] + Concat(strs[1..])
  }

  lemma {:induction false} ConcatOfShortStrings(strs: seq<string>)
    requires forall i :: 0 <= i < |strs| ==> |strs[i]| <= 1
    ensures |Concat(strs)| <= |strs|
  {
    if strs != [] {
      ConcatOfShortStrings(strs[1..]);
    }
  }

  /** `name.split(" ").map((n) => n[0]).join("")`: at most one letter per
      piece of the name. */
  function Initials(name: string): (r: string)
    ensures |r| <= |Split(name)|
    ensures ' ' !in r
  {
    var letters := Map(FirstLetter, Split(name));
    ConcatOfShortStrings(letters);
    var r := Concat(letters);
    assert ' ' !in r by { PieceLettersAreWordStarts(name); WordStartsAreLetters(name, true); }
    r
  }

  /** Reference reading of the initials, straight off the characters: every
      non-space character that opens the name or follows a space. */
  function WordStarts(s: string, afterSpace: bool): string {
    if s == [] then []
    else (if s[0] != ' ' && afterSpace then [s[0]] else []) + WordStarts(s[1..], s[0] == ' ')
  }

  lemma {:induction false} WordStartsAreLetters(s: string, afterSpace: bool)
    ensures ' ' !in WordStarts(s, afterSpace)
  {
    if s != [] {
      WordStartsAreLetters(s[1..], s[0] == ' ');
    }
  }

  lemma MapCons<A, B>(f: A -> B, x: A, xs: seq<A>)
    ensures Map(f, [x] + xs) == [f(x)] + Map(f, xs)
  {
    assert Map(f, [x] + xs)[1..] == Map(f, xs);
  }

  /** The letters contributed by the pieces of `s` after the first, or by all
      of them, are its word starts. */
  lemma {:induction false} WordStartsBySplit(s: string, afterSpace: bool)
    ensures var parts := Split(s);
      WordStarts(s, afterSpace)
        == (if afterSpace then FirstLetter(parts[0]) else []) + Concat(Map(FirstLetter, parts[1..]))
  {
    if s != [] {
      var rest := Split(s[1..]);
      var parts := Split(s);
      if s[0] == ' ' {
        WordStartsBySplit(s[1..], true);
        assert parts[1..] == rest;
        assert rest == [rest[0]] + rest[1..];
        MapCons(FirstLetter, rest[0], rest[1..]);
      } else {
        WordStartsBySplit(s[1..], false);
        assert parts[1..] == rest[1..];
      }
    }
  }

  /** The first letters of the pieces of `name`, joined, are its word starts. */
  lemma PieceLettersAreWordStarts(name: string)
    ensures Concat(Map(FirstLetter, Split(name))) == WordStarts(name, true)
  {
    WordStartsBySplit(name, true);
    var parts := Split(name);
    assert parts == [parts[0]] + parts[1..];
    MapCons(FirstLetter, parts[0], parts[1..]);
  }

  /** The initials are the name's word starts, in order: empty pieces from
      repeated spaces contribute nothing. */
  lemma InitialsAreWordStarts(name: string)
    ensures Initials(name) == WordStarts(name, true)
  {
    PieceLettersAreWordStarts(name);
  }
}
