/**
 * String operations the core relies on, written out because their edge cases matter:
 * JavaScript `toLowerCase` and first-occurrence `replace`, Python `str.split`, and the
 * code-point ordering Python's `sorted` uses on strings.
 */
module Text {
  import opened Wrappers

  /** Lower-casing of one character (ASCII letters only). */
  function LowerChar(c: char): char {
    if 'A' <= c <= 'Z' then (c as int - 'A' as int + 'a' as int) as char else c
  }

  /** JavaScript `toLowerCase`, character by character. */
  function ToLower(s: string): string {
    seq(|s|, i requires 0 <= i < |s| => LowerChar(s[i]))
  }

  /** `pat` occurs in `s` starting at index `i`. */
  predicate OccursAt(s: string, pat: string, i: nat) {
    i + |pat| <= |s| && s[i..i + |pat|] == pat
  }

  /** The first occurrence of `pat` in `s` at or after `from`, like `s.indexOf(pat, from)`. */
  function IndexOfFrom(s: string, pat: string, from: nat): (r: Option<nat>)
    requires from <= |s|
    ensures r.Some? ==> from <= r.value && r.value + |pat| <= |s|
    decreases |s| - from
  {
    if OccursAt(s, pat, from) then Some(from)
    else if from == |s| then None
    else IndexOfFrom(s, pat, from + 1)
  }

  /** The search finds the first occurrence at or after `from`, or reports that there is none. */
  lemma {:induction false} IndexOfFromFirst(s: string, pat: string, from: nat)
    requires from <= |s|
    ensures var r := IndexOfFrom(s, pat, from);
      && (r.Some? ==> from <= r.value <= |s| && OccursAt(s, pat, r.value))
      && (r.Some? ==> forall j | from <= j < r.value :: !OccursAt(s, pat, j))
      && (r.None? ==> forall j | from <= j <= |s| :: !OccursAt(s, pat, j))
    decreases |s| - from
  {
    if !OccursAt(s, pat, from) && from < |s| {
      IndexOfFromFirst(s, pat, from + 1);
    }
  }

  /** An occurrence with none before it is the one the search from the start finds. */
  lemma FirstOccurrence(s: string, pat: string, i: nat)
    requires OccursAt(s, pat, i) && forall j | 0 <= j < i :: !OccursAt(s, pat, j)
    ensures IndexOfFrom(s, pat, 0) == Some(i)
  {
    IndexOfFromFirst(s, pat, 0);
  }

  /** `s.replace(pat, rep)` with a string pattern. */
  function ReplaceFirst(s: string, pat: string, rep: string): string {
    match IndexOfFrom(s, pat, 0)
    case None => s
    case Some(i) => s[..i] + rep + s[i + |pat|..]
  }

  /** Only the FIRST occurrence is replaced; with none, the string is unchanged. */
  lemma ReplaceFirstSpec(s: string, pat: string, rep: string)
    ensures (forall j | 0 <= j <= |s| :: !OccursAt(s, pat, j)) ==> ReplaceFirst(s, pat, rep) == s
    ensures forall i | 0 <= i <= |s| && OccursAt(s, pat, i) ::
              (forall j | 0 <= j < i :: !OccursAt(s, pat, j)) ==> ReplaceFirst(s, pat, rep) == s[..i] + rep + s[i + |pat|..]
  {
    IndexOfFromFirst(s, pat, 0);
    forall i | 0 <= i <= |s| && OccursAt(s, pat, i) && forall j | 0 <= j < i :: !OccursAt(s, pat, j)
      ensures ReplaceFirst(s, pat, rep) == s[..i] + rep + s[i + |pat|..]
    {
      FirstOccurrence(s, pat, i);
    }
  }

  /** Python `s.split(sep)` for a one-character separator: never empty, keeps empty pieces. */
  function Split(s: string, sep: char): (r: seq<string>)
    ensures |r| >= 1
    decreases |s|
  {
    if s == [] then [[]]
    else
      var rest := Split(s[1..], sep);
      if s[0] == sep then [[]] + rest else [[s[0]] + rest[0]] + rest[1..]
  }

  /** Python `sep.join(parts)`. */
  function Join(parts: seq<string>, sep: char): string
    decreases |parts|
  {
    if parts == [] then []
    else if |parts| == 1 then parts[0]
    else parts[0] + [sep] + Join(parts[1..], sep)
  }

  /** Splitting and joining back gives the original string. */
  lemma {:induction false} JoinSplit(s: string, sep: char)
    ensures Join(Split(s, sep), sep) == s
    ensures forall i | 0 <= i < |Split(s, sep)| :: sep !in Split(s, sep)[i]
    decreases |s|
  {
    if s != [] {
      JoinSplit(s[1..], sep);
      var rest := Split(s[1..], sep);
      if s[0] == sep {
        assert Split(s, sep) == [[]] + rest;
        assert Join([[]] + rest, sep) == [] + [sep] + Join(rest, sep);
      } else {
        var r := Split(s, sep);
        assert r == [[s[0]] + rest[0]] + rest[1..];
        if |rest| == 1 {
          assert Join(r, sep) == [s[0]] + rest[0];
        } else {
          assert Join(rest, sep) == rest[0] + [sep] + Join(rest[1..], sep);
          assert Join(r, sep) == [s[0]] + rest[0] + [sep] + Join(rest[1..], sep);
        }
        assert s == [s[0]] + s[1..];
        forall i | 0 <= i < |r| ensures sep !in r[i] {
          if i > 0 { assert r[i] == rest[i]; }
        }
      }
    }
  }

  /** Joining pieces that contain no separator and splitting again gives the pieces back. */
  lemma {:induction false} SplitJoin(parts: seq<string>, sep: char)
    requires |parts| >= 1
    requires forall i | 0 <= i < |parts| :: sep !in parts[i]
    ensures Split(Join(parts, sep), sep) == parts
    decreases |parts|, |parts[0]|
  {
    if parts[0] == [] {
      if |parts| > 1 {
        SplitJoin(parts[1..], sep);
        assert Join(parts, sep) == [sep] + Join(parts[1..], sep);
        assert ([sep] + Join(parts[1..], sep))[1..] == Join(parts[1..], sep);
        assert parts == [[]] + parts[1..];
      }
    } else {
      var tail := [parts[0][1..]] + parts[1..];
      assert sep !in tail[0];
      forall i | 0 <= i < |tail| ensures sep !in tail[i] {
        if i > 0 { assert tail[i] == parts[i]; }
      }
      SplitJoin(tail, sep);
      var j := Join(parts, sep);
      if |parts| == 1 {
        assert j == parts[0];
        assert Join(tail, sep) == parts[0][1..];
      } else {
        assert j == parts[0] + [sep] + Join(parts[1..], sep);
        assert Join(tail, sep) == parts[0][1..] + [sep] + Join(parts[1..], sep);
      }
      assert j[0] == parts[0][0] && j[1..] == Join(tail, sep);
      assert parts[0][0] != sep by { assert parts[0][0] in parts[0]; }
      assert Split(j, sep) == [[parts[0][0]] + tail[0]] + tail[1..];
      assert [parts[0][0]] + parts[0][1..] == parts[0];
      assert tail[1..] == parts[1..];
    }
  }

  /** Python's string `<`: lexicographic by code point, a proper prefix comes first. */
  predicate Less(a: string, b: string)
    decreases |a|
  {
    if a == [] then b != []
    else if b == [] then false
    else if a[0] != b[0] then a[0] < b[0]
    else Less(a[1..], b[1..])
  }

  lemma {:induction false} LessIrreflexive(a: string)
    ensures !Less(a, a)
    decreases |a|
  {
    if a != [] { LessIrreflexive(a[1..]); }
  }

  /** Distinct strings are always ordered one way or the other, and never both. */
  lemma {:induction false} LessTotal(a: string, b: string)
    requires a != b
    ensures Less(a, b) != Less(b, a)
    decreases |a|
  {
    if a != [] && b != [] && a[0] == b[0] {
      assert a == [a[0]] + a[1..] && b == [b[0]] + b[1..];
      LessTotal(a[1..], b[1..]);
    }
  }

  lemma {:induction false} LessTransitive(a: string, b: string, c: string)
    requires Less(a, b) && Less(b, c)
    ensures Less(a, c)
    decreases |a|
  {
    if a != [] && b != [] && c != [] && a[0] == b[0] && b[0] == c[0] {
      LessTransitive(a[1..], b[1..], c[1..]);
    }
  }

  /** Strictly ascending: every earlier element is `Less` than every later one. */
  predicate Ascending(s: seq<string>) {
    forall i, j | 0 <= i < j < |s| :: Less(s[i], s[j])
  }

  predicate Distinct<T(==)>(s: seq<T>) {
    forall i, j | 0 <= i < j < |s| :: s[i] != s[j]
  }

  /** Putting a string below every element in front of an ascending sequence keeps it ascending. */
  lemma AscendingCons(x: string, s: seq<string>)
    requires Ascending(s) && forall j | 0 <= j < |s| :: Less(x, s[j])
    ensures Ascending([x] + s)
  {
    var r := [x] + s;
    forall i, j | 0 <= i < j < |r| ensures Less(r[i], r[j]) {
      assert r[j] == s[j - 1];
      if i > 0 { assert r[i] == s[i - 1]; }
    }
  }

  /** The head of an ascending sequence is below everything its tail may be rearranged into with a larger `x`. */
  lemma HeadBelowAll(x: string, s: seq<string>, rest: seq<string>)
    requires s != [] && Ascending(s) && Less(s[0], x)
    requires multiset(rest) == multiset(s[1..]) + multiset{x}
    ensures forall j | 0 <= j < |rest| :: Less(s[0], rest[j])
  {
    forall j | 0 <= j < |rest| ensures Less(s[0], rest[j]) {
      assert rest[j] in multiset(rest);
      if rest[j] != x {
        assert rest[j] in multiset(s[1..]);
        var k :| 0 <= k < |s[1..]| && s[1..][k] == rest[j];
        assert s[k + 1] == rest[j];
      }
    }
  }

  /** Insert `x` into an ascending sequence that does not hold it. */
  function Insert(x: string, s: seq<string>): (r: seq<string>)
    requires Ascending(s) && x !in s
    ensures Ascending(r)
    ensures multiset(r) == multiset(s) + multiset{x}
    decreases |s|
  {
    if s == [] then [x]
    else if Less(x, s[0]) then
      assert forall j | 0 <= j < |s| :: Less(x, s[j]) by {
        forall j | 0 <= j < |s| ensures Less(x, s[j]) {
          if j > 0 { LessTransitive(x, s[0], s[j]); }
        }
      }
      AscendingCons(x, s);
      [x] + s
    else
      var rest := Insert(x, s[1..]);
      LessTotal(x, s[0]);
      assert s == [s[0]] + s[1..];
      HeadBelowAll(x, s, rest);
      AscendingCons(s[0], rest);
      [s[0]] + rest
  }

  /** The keys of a dictionary in the order `sorted` returns them. */
  function Sort(s: seq<string>): (r: seq<string>)
    requires Distinct(s)
    ensures Ascending(r)
    ensures multiset(r) == multiset(s)
    decreases |s|
  {
    if s == [] then []
    else
      var init := s[..|s| - 1];
      assert s == init + [s[|s| - 1]];
      assert Distinct(init);
      var sorted := Sort(init);
      assert s[|s| - 1] !in multiset(init);
      Insert(s[|s| - 1], sorted)
  }
}
