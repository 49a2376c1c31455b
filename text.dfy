/** Optional values: an absent request field, a lookup that found nothing. */
module Wrappers {
  datatype Option<+T> = None | Some(value: T)
}

/** The string operations the webhook relies on: lower-casing, substring
    containment (SQL `LIKE '%q%'`) and joining titles with ", ". */
module Text {

  /** Lower-casing of one character, restricted to ASCII letters. */
  function LowerChar(c: char): (r: char)
    ensures !('A' <= r <= 'Z')
    ensures 'A' <= c <= 'Z' ==> r as int == c as int + 32
    ensures !('A' <= c <= 'Z') ==> r == c
  {
    if 'A' <= c <= 'Z' then (c as int + 32) as char else c
  }

  /** Lower-casing of a string, character by character. */
  function LowerStr(s: string): (r: string)
    ensures |r| == |s|
    ensures forall i :: 0 <= i < |s| ==> r[i] == LowerChar(s[i])
  {
    if s == [] then [] else [LowerChar(s[0])] + LowerStr(s[1..])
  }

  /** Lower-casing twice is lower-casing once. */
  lemma LowerIdempotent(s: string)
    ensures LowerStr(LowerStr(s)) == LowerStr(s)
  {
  }

  /** `t` occurs in `s` starting at position `i`. */
  predicate OccursAt(s: string, t: string, i: nat) {
    i + |t| <= |s| && s[i..i + |t|] == t
  }

  /** `t` is a substring of `s`: a prefix of `s` or of one of its suffixes. */
  predicate Contains(s: string, t: string)
    decreases |s|
  {
    t <= s || (s != [] && Contains(s[1..], t))
  }

  /** Where `t` occurs in a string that contains it. */
  lemma {:induction false} ContainsPosition(s: string, t: string) returns (i: nat)
    requires Contains(s, t)
    ensures i <= |s| && OccursAt(s, t, i)
    decreases |s|
  {
    if t <= s {
      i := 0;
    } else {
      var j := ContainsPosition(s[1..], t);
      assert s[1..][j..j + |t|] == s[j + 1..j + 1 + |t|];
      i := j + 1;
    }
  }

  /** A string contains whatever occurs in it at some position. */
  lemma {:induction false} OccursContains(s: string, t: string, i: nat)
    requires OccursAt(s, t, i)
    ensures Contains(s, t)
    decreases i
  {
    if i == 0 {
      assert s[..|t|] == t;
    } else {
      assert s[1..][i - 1..i - 1 + |t|] == s[i..i + |t|];
      OccursContains(s[1..], t, i - 1);
    }
  }

  /** Containment survives putting text in front. */
  lemma ContainsAfter(a: string, b: string, t: string)
    requires Contains(b, t)
    ensures Contains(a + b, t)
  {
    var k := ContainsPosition(b, t);
    assert (a + b)[|a| + k..|a| + k + |t|] == b[k..k + |t|];
    OccursContains(a + b, t, |a| + k);
  }

  /** Containment agrees with "there is a position where `t` occurs". */
  lemma ContainsIff(s: string, t: string)
    ensures Contains(s, t) <==> exists i: nat :: i <= |s| && OccursAt(s, t, i)
  {
    if Contains(s, t) {
      var i := ContainsPosition(s, t);
    }
    if exists i: nat :: i <= |s| && OccursAt(s, t, i) {
      var i: nat :| i <= |s| && OccursAt(s, t, i);
      OccursContains(s, t, i);
    }
  }

  /** A string contains every piece it is built around. */
  lemma ContainsInfix(a: string, t: string, b: string)
    ensures Contains(a + t + b, t)
  {
    var s := a + t + b;
    assert s[|a|..|a| + |t|] == t;
    assert OccursAt(s, t, |a|);
    ContainsIff(s, t);
  }

  /** The separator of Python's `", ".join`. */
  const Separator: string := ", "

  /** `", ".join(parts)`. */
  function Join(parts: seq<string>): string {
    if |parts| == 0 then ""
    else if |parts| == 1 then parts[0]
    else parts[0] + Separator + Join(parts[1..])
  }

  /** Splitting at every ", " (Python's `s.split(", ")`): the inverse of Join. */
  function Split(s: string): (r: seq<string>)
    ensures |r| >= 1
    decreases |s|
  {
    if |s| >= 2 && s[..2] == Separator then [""] + Split(s[2..])
    else if s == [] then [""]
    else
      var rest := Split(s[1..]);
      [[s[0]] + rest[0]] + rest[1..]
  }

  /** Every part is a substring of the joined text. */
  lemma {:induction false} JoinContainsParts(parts: seq<string>)
    ensures forall i :: 0 <= i < |parts| ==> Contains(Join(parts), parts[i])
  {
    if |parts| == 1 {
      ContainsInfix("", parts[0], "");
      assert "" + parts[0] + "" == parts[0];
    } else if |parts| > 1 {
      JoinContainsParts(parts[1..]);
      var rest := Join(parts[1..]);
      assert Join(parts) == parts[0] + (Separator + rest);
      ContainsInfix("", parts[0], Separator + rest);
      assert "" + parts[0] + (Separator + rest) == Join(parts);
      forall i | 1 <= i < |parts| ensures Contains(Join(parts), parts[i]) {
        assert parts[1..][i - 1] == parts[i];
        ContainsAfter(parts[0] + Separator, rest, parts[i]);
      }
    }
  }

  /** A part without ", " is split off whole from what follows it. */
  lemma {:induction false} SplitPart(p: string, rest: string)
    requires !Contains(p, Separator)
    ensures Split(p + Separator + rest) == [p] + Split(rest)
    decreases |p|
  {
    var s := p + Separator + rest;
    if p == [] {
      assert s[..2] == Separator;
      assert s[2..] == rest;
    } else {
      if |p| >= 2 {
        assert s[..2] == p[..2];
        assert !(Separator <= p);
      } else {
        assert s[1] == ',';
      }
      assert !Contains(p[1..], Separator);
      assert s[1..] == p[1..] + Separator + rest;
      SplitPart(p[1..], rest);
      assert [s[0]] + p[1..] == p;
    }
  }

  /** A string without ", " splits into itself alone. */
  lemma {:induction false} SplitWhole(p: string)
    requires !Contains(p, Separator)
    ensures Split(p) == [p]
    decreases |p|
  {
    if p != [] {
      if |p| >= 2 {
        assert !(Separator <= p);
      }
      assert !Contains(p[1..], Separator);
      SplitWhole(p[1..]);
      assert [p[0]] + p[1..] == p;
    }
  }

  /** Round trip: splitting a joined list gives back the list, provided no
      part contains the separator. */
  lemma {:induction false} SplitJoin(parts: seq<string>)
    requires parts != []
    requires forall i :: 0 <= i < |parts| ==> !Contains(parts[i], Separator)
    ensures Split(Join(parts)) == parts
  {
    if |parts| == 1 {
      SplitWhole(parts[0]);
    } else {
      SplitJoin(parts[1..]);
      SplitPart(parts[0], Join(parts[1..]));
    }
  }
}
