/**
 * The handful of Python string operations the handlers rely on, stated on
 * `seq<char>`: ASCII lower-casing (`str.lower`), substring test (`in`),
 * `str.split` on one separator character, `str.strip` of one character and
 * `str.replace`.
 */
module Text {

  /** No string occurs twice. */
  predicate Distinct(s: seq<string>) {
    forall i, j :: 0 <= i < j < |s| ==> s[i] != s[j]
  }

  /** `c.lower()` restricted to ASCII: upper-case letters map to lower case, everything else is kept. */
  function LowerChar(c: char): (r: char)
    ensures 'A' <= c <= 'Z' ==> r as int == c as int + 32
    ensures !('A' <= c <= 'Z') ==> r == c
  {
    if 'A' <= c <= 'Z' then (c as int + 32) as char else c
  }

  /** `s.lower()`: lower-cases every character, keeping the length. */
  function Lower(s: string): (r: string)
    ensures |r| == |s|
    ensures forall i :: 0 <= i < |s| ==> r[i] == LowerChar(s[i])
  {
    seq(|s|, i requires 0 <= i < |s| => LowerChar(s[i]))
  }

  /** A string is lower case when lower-casing leaves it unchanged. */
  predicate IsLower(s: string) {
    forall i :: 0 <= i < |s| ==> LowerChar(s[i]) == s[i]
  }

  /** Lower-casing is idempotent: its result is already lower case. */
  lemma LowerIsLower(s: string)
    ensures IsLower(Lower(s))
    ensures Lower(Lower(s)) == Lower(s)
  {
  }

  /** `p` occurs in `s` starting at index `i`. */
  predicate OccursAt(s: string, p: string, i: nat) {
    i + |p| <= |s| && s[i..i + |p|] == p
  }

  /** Python's `p in s` for strings: `p` is a substring of `s`. */
  predicate Contains(s: string, p: string) {
    exists i: nat | i + |p| <= |s| :: OccursAt(s, p, i)
  }

  /** The index of the first `c` in `s`, or `|s|` when there is none. */
  function IndexOf(s: string, c: char): (r: nat)
    ensures r <= |s|
    ensures r < |s| ==> s[r] == c
    ensures forall j :: 0 <= j < r ==> s[j] != c
  {
    if |s| == 0 then 0
    else if s[0] == c then 0
    else 1 + IndexOf(s[1..], c)
  }

  /**
   * `s.split(c)`: the pieces between consecutive occurrences of `c`, in order;
   * always at least one piece (`"".split(c) == [""]`).
   */
  function Split(s: string, c: char): (r: seq<string>)
    ensures |r| >= 1
    decreases |s|
  {
    var i := IndexOf(s, c);
    if i == |s| then [s] else [s[..i]] + Split(s[i + 1..], c)
  }

  /** `c.join(parts)`, for a non-empty list of pieces. */
  function Join(parts: seq<string>, c: char): string
    requires |parts| >= 1
  {
    if |parts| == 1 then parts[0] else parts[0] + [c] + Join(parts[1..], c)
  }

  /** A split cuts at the first separator: a separator-free head `a` is the first piece. */
  lemma SplitAfter(a: string, c: char, b: string)
    requires c !in a
    ensures Split(a + [c] + b, c) == [a] + Split(b, c)
  {
    var s := a + [c] + b;
    var i := IndexOf(s, c);
    assert s[|a|] == c;
    assert forall j :: 0 <= j < |a| ==> s[j] == a[j] != c;
    assert i == |a|;
    assert s[..i] == a && s[i + 1..] == b;
  }

  /** Two separator-free heads ahead of `x` are its first two pieces. */
  lemma SplitAfter2(a: string, b: string, c: char, x: string)
    requires c !in a && c !in b
    ensures Split(a + [c] + (b + [c] + x), c) == [a, b] + Split(x, c)
  {
    SplitAfter(b, c, x);
    SplitAfter(a, c, b + [c] + x);
  }

  /** Separator-free heads split off one by one: four of them ahead of `x` are its first four pieces. */
  lemma SplitAfter4(a: string, b: string, d: string, e: string, c: char, x: string)
    requires c !in a && c !in b && c !in d && c !in e
    ensures Split(a + [c] + (b + [c] + (d + [c] + (e + [c] + x))), c) == [a, b, d, e] + Split(x, c)
  {
    var rest := d + [c] + (e + [c] + x);
    SplitAfter2(d, e, c, x);
    SplitAfter2(a, b, c, rest);
    Regroup(a, b, d, e, Split(x, c));
  }

  /** Two pairs ahead of `x` are four elements ahead of `x`. */
  lemma Regroup<T>(a: T, b: T, d: T, e: T, x: seq<T>)
    ensures [a, b] + ([d, e] + x) == [a, b, d, e] + x
  {
  }

  /** Dropping four leading elements gives back what followed them. */
  lemma DropFour<T>(a: T, b: T, d: T, e: T, x: seq<T>)
    ensures ([a, b, d, e] + x)[4..] == x
  {
  }

  /** A string with one separator splits into the two sides. */
  lemma SplitOnce(a: string, c: char, b: string)
    requires c !in a && c !in b
    ensures Split(a + [c] + b, c) == [a, b]
  {
    SplitAfter(a, c, b);
    assert IndexOf(b, c) == |b|;
  }

  /** No piece of a split contains the separator. */
  lemma {:induction false} SplitPiecesFree(s: string, c: char)
    ensures forall k :: 0 <= k < |Split(s, c)| ==> c !in Split(s, c)[k]
    decreases |s|
  {
    var i := IndexOf(s, c);
    if i < |s| {
      SplitPiecesFree(s[i + 1..], c);
      assert c !in s[..i];
    }
  }

  /** Joining the pieces of a split with the separator gives back the string. */
  lemma {:induction false} JoinSplit(s: string, c: char)
    ensures Join(Split(s, c), c) == s
    decreases |s|
  {
    var i := IndexOf(s, c);
    if i < |s| {
      var head, tail := s[..i], s[i + 1..];
      assert s == head + [c] + tail;
      JoinSplit(tail, c);
      SplitAfter(head, c, tail);
      JoinCons(head, Split(tail, c), c);
    }
  }

  /** A piece joined ahead of a non-empty list is followed by the separator. */
  lemma JoinCons(head: string, rest: seq<string>, c: char)
    requires |rest| >= 1
    ensures Join([head] + rest, c) == head + [c] + Join(rest, c)
  {
    assert ([head] + rest)[1..] == rest;
  }

  /** Splitting a join of separator-free pieces gives back the pieces. */
  lemma {:induction false} SplitJoin(parts: seq<string>, c: char)
    requires |parts| >= 1
    requires forall k :: 0 <= k < |parts| ==> c !in parts[k]
    ensures Split(Join(parts, c), c) == parts
    decreases |parts|
  {
    var s := Join(parts, c);
    if |parts| == 1 {
      assert IndexOf(s, c) == |s|;
    } else {
      var p, rest := parts[0], parts[1..];
      SplitJoin(rest, c);
      assert s == p + [c] + Join(rest, c);
      SplitAfter(p, c, Join(rest, c));
      assert parts == [p] + rest;
    }
  }

  /** `s.rstrip(c)`: drops every trailing `c`. */
  function StripRight(s: string, c: char): (r: string)
    ensures |r| <= |s| && r == s[..|r|]
    ensures |r| > 0 ==> r[|r| - 1] != c
    ensures forall j :: |r| <= j < |s| ==> s[j] == c
  {
    if |s| > 0 && s[|s| - 1] == c then StripRight(s[..|s| - 1], c) else s
  }

  /** The number of leading `c` characters of `s`. */
  function Leading(s: string, c: char): (n: nat)
    ensures n <= |s|
    ensures forall j :: 0 <= j < n ==> s[j] == c
    ensures n < |s| ==> s[n] != c
  {
    if |s| > 0 && s[0] == c then 1 + Leading(s[1..], c) else 0
  }

  /**
   * `s.strip(c)`: drops every leading and trailing `c`. What is left is the
   * piece of `s` after its leading `c`s; it neither starts nor ends with `c`,
   * and all that was removed after it is `c` too.
   */
  function Strip(s: string, c: char): (r: string)
    ensures Leading(s, c) + |r| <= |s|
    ensures r == s[Leading(s, c)..Leading(s, c) + |r|]
    ensures forall j :: Leading(s, c) + |r| <= j < |s| ==> s[j] == c
    ensures |r| > 0 ==> r[0] != c && r[|r| - 1] != c
  {
    var a := Leading(s, c);
    var l := s[a..];
    var r := StripRight(l, c);
    assert r == l[..|r|];
    assert s[a..a + |r|] == l[..|r|];
    assert forall j :: a + |r| <= j < |s| ==> s[j] == l[j - a];
    r
  }

  /** Stripping `c` from `n` wrapped in `c` on both sides gives `n` back when `n` holds no `c`. */
  lemma StripWrapped(n: string, c: char)
    requires c !in n
    ensures Strip([c] + n + [c], c) == n
  {
    var s := [c] + n + [c];
    if |n| == 0 {
      assert s == [c, c];
      assert Leading(s, c) == 2;
    } else {
      assert s[1..] == n + [c];
      assert Leading(s[1..], c) == 0;
      assert Leading(s, c) == 1;
      assert (n + [c])[..|n|] == n;
      assert StripRight(n + [c], c) == StripRight(n, c);
      assert StripRight(n, c) == n;
    }
  }

  /**
   * `s.replace(pat, rep)`: every non-overlapping occurrence of `pat`, taken
   * from left to right, is replaced by `rep`.
   */
  function ReplaceAll(s: string, pat: string, rep: string): string
    requires |pat| > 0
    decreases |s|
  {
    if |s| == 0 then ""
    else if OccursAt(s, pat, 0) then rep + ReplaceAll(s[|pat|..], pat, rep)
    else [s[0]] + ReplaceAll(s[1..], pat, rep)
  }

  /** A string in which `pat` does not occur is left unchanged by the replacement. */
  lemma {:induction false} ReplaceAbsent(s: string, pat: string, rep: string)
    requires |pat| > 0
    requires !Contains(s, pat)
    ensures ReplaceAll(s, pat, rep) == s
    decreases |s|
  {
    if |s| > 0 {
      assert !OccursAt(s, pat, 0);
      forall i: nat | i + |pat| <= |s| - 1
        ensures !OccursAt(s[1..], pat, i)
      {
        assert s[1..][i..i + |pat|] == s[i + 1..i + 1 + |pat|];
        assert !OccursAt(s, pat, i + 1);
      }
      ReplaceAbsent(s[1..], pat, rep);
    }
  }

  /** Dropping the first character keeps a string free of `pat`. */
  lemma AbsentInTail(s: string, pat: string)
    requires |s| > 0 && !Contains(s, pat)
    ensures !Contains(s[1..], pat)
  {
    forall i: nat | i + |pat| <= |s| - 1
      ensures !OccursAt(s[1..], pat, i)
    {
      assert s[1..][i..i + |pat|] == s[i + 1..i + 1 + |pat|];
      assert !OccursAt(s, pat, i + 1);
    }
  }

  /**
   * When the first character of `pat` does not occur again in `pat`, an
   * occurrence of `pat` right after a `pat`-free prefix `a` is the first one
   * found: the prefix is copied, that occurrence becomes `rep`, and the rest
   * is replaced independently.
   */
  lemma {:induction false} ReplaceFirstAfter(a: string, pat: string, rep: string, b: string)
    requires |pat| > 0 && pat[0] !in pat[1..]
    requires !Contains(a, pat)
    ensures ReplaceAll(a + pat + b, pat, rep) == a + rep + ReplaceAll(b, pat, rep)
    decreases |a|
  {
    var s := a + pat + b;
    if |a| == 0 {
      assert s == pat + b;
      assert OccursAt(s, pat, 0);
      assert s[|pat|..] == b;
    } else {
      if |a| >= |pat| {
        assert s[..|pat|] == a[..|pat|];
        assert !OccursAt(a, pat, 0);
      } else {
        assert s[|a|] == pat[0];
        assert pat[|a|] == pat[1..][|a| - 1];
      }
      assert !OccursAt(s, pat, 0);
      AbsentInTail(a, pat);
      ReplaceFirstAfter(a[1..], pat, rep, b);
      assert s[1..] == a[1..] + pat + b;
    }
  }
}
