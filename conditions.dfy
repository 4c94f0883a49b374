/** in_with_regex (query/conditions.py): one LIKE '%value%' criterion per
    value, folded into a left-nested OR. Pypika's criteria are modelled by
    the datatype Cond, which keeps exactly the structure the fold builds. */
module Conditions {
  import opened Common

  /** A Pypika criterion: field LIKE pattern, or the OR of two criteria. */
  datatype Cond = Like(field: string, pattern: string) | Or(left: Cond, right: Cond)

  /** The `values` argument: a Python list, or any other single value. */
  datatype Values = Many(vs: seq<Value>) | One(v: Value)

  /** A non-list argument is wrapped into a one-element list. */
  function AsList(values: Values): seq<Value>
  {
    match values
    case Many(vs) => vs
    case One(v) => [v]
  }

  /** [field.like(f"%{value}%") for value in values] */
  function LikeConds(field: string, vs: seq<Value>): seq<Cond>
  {
    seq(|vs|, i requires 0 <= i < |vs| => Like(field, "%" + Str(vs[i]) + "%"))
  }

  /** The LIKE criteria of a criterion, left to right. */
  function Leaves(c: Cond): (leaves: seq<Cond>)
    ensures |leaves| >= 1
    ensures forall i :: 0 <= i < |leaves| ==> leaves[i].Like?
    ensures c.Like? ==> leaves == [c]
  {
    match c
    case Like(_, _) => [c]
    case Or(l, r) => Leaves(l) + Leaves(r)
  }

  /** Every right operand of an OR is a single LIKE: ((c1 | c2) | c3) ... */
  predicate LeftNested(c: Cond)
  {
    match c
    case Like(_, _) => true
    case Or(l, r) => r.Like? && LeftNested(l)
  }

  /** The fold the source performs with `combined_condition |= condition`. */
  function LeftOr(cs: seq<Cond>): Cond
    requires |cs| > 0
    decreases |cs|
  {
    if |cs| == 1 then cs[0] else Or(LeftOr(cs[..|cs| - 1]), cs[|cs| - 1])
  }

  /** What in_with_regex returns: None for no values, otherwise the fold. */
  function Combined(field: string, values: Values): Option<Cond>
  {
    var likes := LikeConds(field, AsList(values));
    if |likes| == 0 then None else Some(LeftOr(likes))
  }

  /** Folding LIKE criteria gives a left-nested criterion whose leaves are
      exactly those criteria, in order. */
  lemma {:induction false} LeftOrShape(cs: seq<Cond>)
    requires |cs| > 0
    requires forall i :: 0 <= i < |cs| ==> cs[i].Like?
    ensures Leaves(LeftOr(cs)) == cs
    ensures LeftNested(LeftOr(cs))
    decreases |cs|
  {
    if |cs| > 1 {
      LeftOrShape(cs[..|cs| - 1]);
      assert cs[..|cs| - 1] + [cs[|cs| - 1]] == cs;
    }
  }

  /** A left-nested criterion is determined by its leaves. */
  lemma {:induction false} LeftNestedUnique(c1: Cond, c2: Cond)
    requires LeftNested(c1) && LeftNested(c2)
    requires Leaves(c1) == Leaves(c2)
    ensures c1 == c2
  {
    match c1
    case Like(_, _) =>
    case Or(l1, r1) =>
      match c2
      case Like(_, _) =>
      case Or(l2, r2) =>
        var n := |Leaves(c1)|;
        assert Leaves(c1)[n - 1] == r1;
        assert Leaves(c2)[n - 1] == r2;
        assert Leaves(l1) == Leaves(c1)[..n - 1] == Leaves(c2)[..n - 1] == Leaves(l2);
        LeftNestedUnique(l1, l2);
  }

  /** The three shapes of the result: no values give no criterion, one
      value gives its LIKE criterion with no OR, and n >= 2 values give a
      left-nested OR with exactly n LIKE leaves in value order. */
  lemma CombinedCases(field: string, values: Values)
    ensures var vs := AsList(values);
      && (Combined(field, values).None? <==> |vs| == 0)
      && (|vs| == 1 ==> Combined(field, values) == Some(Like(field, "%" + Str(vs[0]) + "%")))
      && (|vs| >= 2 ==>
            && Combined(field, values).value.Or?
            && Leaves(Combined(field, values).value) == LikeConds(field, vs)
            && |Leaves(Combined(field, values).value)| == |vs|
            && LeftNested(Combined(field, values).value))
  {
    var vs := AsList(values);
    if |vs| > 0 {
      LeftOrShape(LikeConds(field, vs));
    }
  }

  /** Any left-nested criterion with the LIKE leaves of the values is the
      one in_with_regex builds. */
  lemma CombinedUnique(field: string, values: Values, c: Cond)
    requires LeftNested(c)
    requires Leaves(c) == LikeConds(field, AsList(values))
    ensures Combined(field, values) == Some(c)
  {
    var likes := LikeConds(field, AsList(values));
    LeftOrShape(likes);
    LeftNestedUnique(LeftOr(likes), c);
  }

  /** in_with_regex(field, values). */
  method InWithRegex(field: string, values: Values) returns (combined: Option<Cond>)
    ensures combined.None? <==> |AsList(values)| == 0
    ensures combined.Some? ==>
              && Leaves(combined.value) == LikeConds(field, AsList(values))
              && LeftNested(combined.value)
  {
    var vs := if values.Many? then values.vs else [values.v];
    var conditions := LikeConds(field, vs);
    if |conditions| > 0 {
      var c := conditions[0];
      for i := 1 to |conditions|
        invariant Leaves(c) == conditions[..i]
        invariant LeftNested(c)
      {
        assert conditions[..i + 1] == conditions[..i] + [conditions[i]];
        c := Or(c, conditions[i]);
      }
      assert conditions[..|conditions|] == conditions;
      combined := Some(c);
    } else {
      combined := None;
    }
  }
}
