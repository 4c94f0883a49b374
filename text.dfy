/** The two Python string operations the query builder relies on:
    str.join and str.replace with a count of one. */
module Text {

  /** sep.join(xs): the elements in order, with sep between neighbours. */
  function Join(sep: string, xs: seq<string>): string
    decreases |xs|
  {
    if |xs| == 0 then ""
    else if |xs| == 1 then xs[0]
    else Join(sep, xs[..|xs| - 1]) + sep + xs[|xs| - 1]
  }

  /** p occurs in s starting at index i. */
  predicate OccursAt(s: string, p: string, i: nat)
  {
    i + |p| <= |s| && s[i..i + |p|] == p
  }

  /** s.replace(p, rep, 1): the first occurrence of p, scanning from the
      left, is replaced by rep; the rest of s is left as it is. */
  function ReplaceFirst(s: string, p: string, rep: string): string
    requires |p| > 0
    decreases |s|
  {
    if |s| < |p| then s
    else if s[..|p|] == p then rep + s[|p|..]
    else [s[0]] + ReplaceFirst(s[1..], p, rep)
  }

  /** Where p does not start s, the first character is kept and the
      replacement happens in the rest. */
  lemma ReplaceFirstStep(s: string, p: string, rep: string)
    requires |p| > 0 && |s| >= |p| && !OccursAt(s, p, 0)
    ensures ReplaceFirst(s, p, rep) == [s[0]] + ReplaceFirst(s[1..], p, rep)
  {
    assert s[0..|p|] == s[..|p|];
  }

  /** Where p starts s, it is replaced and the rest is kept. */
  lemma ReplaceFirstHere(s: string, p: string, rep: string)
    requires |p| > 0 && OccursAt(s, p, 0)
    ensures ReplaceFirst(s, p, rep) == rep + s[|p|..]
  {
    assert s[0..|p|] == s[..|p|];
  }

  /** An occurrence at j in the tail of s is one at j + 1 in s. */
  lemma OccursShift(s: string, p: string, j: nat)
    requires |s| > 0
    ensures OccursAt(s[1..], p, j) <==> OccursAt(s, p, j + 1)
  {
    if j + 1 + |p| <= |s| {
      assert s[1..][j..j + |p|] == s[j + 1..j + 1 + |p|];
    }
  }

  /** Replacing in a string that does not contain p changes nothing. */
  lemma {:induction false} ReplaceFirstAbsent(s: string, p: string, rep: string)
    requires |p| > 0
    requires forall j: nat :: !OccursAt(s, p, j)
    ensures ReplaceFirst(s, p, rep) == s
    decreases |s|
  {
    if |s| >= |p| {
      assert !OccursAt(s, p, 0);
      ReplaceFirstStep(s, p, rep);
      forall j: nat ensures !OccursAt(s[1..], p, j) {
        assert !OccursAt(s, p, j + 1);
        OccursShift(s, p, j);
      }
      ReplaceFirstAbsent(s[1..], p, rep);
      assert [s[0]] + s[1..] == s;
    }
  }

  /** Only the leftmost occurrence is replaced: everything before it and
      everything after it, later occurrences of p included, is kept. */
  lemma {:induction false} ReplaceFirstAt(s: string, p: string, rep: string, i: nat)
    requires |p| > 0
    requires OccursAt(s, p, i)
    requires forall j: nat :: j < i ==> !OccursAt(s, p, j)
    ensures ReplaceFirst(s, p, rep) == s[..i] + rep + s[i + |p|..]
    decreases i
  {
    if i == 0 {
      ReplaceFirstHere(s, p, rep);
      assert s[..0] == [];
    } else {
      var t := s[1..];
      assert !OccursAt(s, p, 0);
      ReplaceFirstStep(s, p, rep);
      OccursShift(s, p, i - 1);
      forall j: nat | j < i - 1 ensures !OccursAt(t, p, j) {
        assert !OccursAt(s, p, j + 1);
        OccursShift(s, p, j);
      }
      ReplaceFirstAt(t, p, rep, i - 1);
      assert [s[0]] + t[..i - 1] == s[..i];
      assert t[i - 1 + |p|..] == s[i + |p|..];
    }
  }

  /** A prefix that cannot start an occurrence of p is copied unchanged and
      the replacement happens in what follows it. */
  lemma {:induction false} ReplaceFirstSkip(a: string, s: string, p: string, rep: string)
    requires |p| > 0
    requires p[0] !in a
    ensures ReplaceFirst(a + s, p, rep) == a + ReplaceFirst(s, p, rep)
    decreases |a|
  {
    if |a| == 0 {
      assert a + s == s;
    } else if |a + s| < |p| {
      assert ReplaceFirst(s, p, rep) == s;
    } else {
      var t := a + s;
      assert a == [a[0]] + a[1..];
      assert t[0] == a[0] && a[0] != p[0];
      assert !OccursAt(t, p, 0);
      ReplaceFirstStep(t, p, rep);
      assert t[1..] == a[1..] + s;
      ReplaceFirstSkip(a[1..], s, p, rep);
    }
  }
}
