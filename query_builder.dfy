/** SimpleQueryBuilder (builder/query.py): a small stateful builder of
    SELECT statements. `select` replaces the column list, `where` appends
    one condition with its parameter, and `build` renders the statement
    from the builder's state without changing it. Parameter values are
    pasted into the text as they are: nothing is escaped. */
module QueryBuilder {
  import opened Common
  import opened Text

  /** The fixed tail of every statement: a row cap of 50. */
  const LimitClause := " LIMIT 50;"

  /** What `where` stores for a parameter: a list becomes the string forms
      of its elements joined by "','"; any other value is stored as given. */
  function Stored(p: Param): Value
  {
    match p
    case List(items) => Some(Join("','", Strs(items)))
    case Scalar(v) => v
  }

  /** [str(value) for value in items] */
  function Strs(items: seq<Value>): seq<string>
  {
    seq(|items|, i requires 0 <= i < |items| => Str(items[i]))
  }

  /** The column clause: the columns joined by ", ", or "*" when there are none. */
  function ColumnsClause(columns: seq<string>): string
  {
    if |columns| == 0 then "*" else Join(", ", columns)
  }

  /** One rendered condition: its first "%s" becomes the stored parameter
      between single quotes. */
  function RenderCondition(c: (string, Value)): string
  {
    ReplaceFirst(c.0, "%s", "'" + Str(c.1) + "'")
  }

  function RenderedConditions(conditions: seq<(string, Value)>): seq<string>
  {
    seq(|conditions|, i requires 0 <= i < |conditions| => RenderCondition(conditions[i]))
  }

  /** "WHERE " and the rendered conditions joined by " AND ", or nothing
      at all when no condition was added. */
  function WhereClause(conditions: seq<(string, Value)>): string
  {
    if |conditions| == 0 then "" else "WHERE " + Join(" AND ", RenderedConditions(conditions))
  }

  /** The statement `build` returns for a builder in the given state. */
  function Render(table: string, columns: seq<string>, conditions: seq<(string, Value)>): string
  {
    "SELECT " + ColumnsClause(columns) + " FROM " + table + " " + WhereClause(conditions) + LimitClause
  }

  class SimpleQueryBuilder {
    var table: string
    var columns: seq<string>
    var conditions: seq<(string, Value)>

    constructor (table: string)
      ensures this.table == table && columns == [] && conditions == []
    {
      this.table := table;
      columns := [];
      conditions := [];
    }

    /** Replaces the column list (it does not accumulate) and returns the
        same builder. */
    method Select(columns: seq<string>) returns (self: SimpleQueryBuilder)
      modifies this
      ensures self == this
      ensures this.columns == columns
      ensures table == old(table) && conditions == old(conditions)
    {
      this.columns := columns;
      self := this;
    }

    /** Appends exactly one condition, with its parameter in stored form,
        and returns the same builder. */
    method Where(condition: string, param: Param) returns (self: SimpleQueryBuilder)
      modifies this
      ensures self == this
      ensures conditions == old(conditions) + [(condition, Stored(param))]
      ensures table == old(table) && columns == old(columns)
    {
      match param {
        case List(items) =>
          var formatted := Join("','", Strs(items));
          conditions := conditions + [(condition, Some(formatted))];
        case Scalar(v) =>
          conditions := conditions + [(condition, v)];
      }
      self := this;
    }

    /** Renders the statement; reads the builder and changes nothing, so
        two calls in a row give the same text. */
    method Build() returns (query: string)
      ensures query == Render(table, columns, conditions)
    {
      var columnsClause := if |columns| > 0 then Join(", ", columns) else "*";
      var fromClause := "FROM " + table;
      var whereClause := "";
      if |conditions| > 0 {
        var whereClauses: seq<string> := [];
        for i := 0 to |conditions|
          invariant |whereClauses| == i
          invariant forall k :: 0 <= k < i ==> whereClauses[k] == RenderCondition(conditions[k])
        {
          var (condition, params) := conditions[i];
          whereClauses := whereClauses + [ReplaceFirst(condition, "%s", "'" + Str(params) + "'")];
        }
        assert whereClauses == RenderedConditions(conditions);
        whereClause := "WHERE " + Join(" AND ", whereClauses);
      }
      assert columnsClause == ColumnsClause(columns) && whereClause == WhereClause(conditions);
      assert " " + fromClause == " FROM " + table;
      query := "SELECT " + columnsClause + " " + fromClause + " " + whereClause + LimitClause;
    }
  }

  /** The statement always starts with "SELECT " and ends with the row cap.
      Without conditions there is no WHERE clause and two spaces stand
      before LIMIT; with conditions the clause holds one rendered condition
      per added condition, in insertion order. */
  lemma RenderLayout(table: string, columns: seq<string>, conditions: seq<(string, Value)>)
    ensures var q := Render(table, columns, conditions);
      && q[..7] == "SELECT "
      && q[|q| - |LimitClause|..] == LimitClause
      && (|conditions| == 0 <==> q == "SELECT " + ColumnsClause(columns) + " FROM " + table + "  LIMIT 50;")
      && (|conditions| > 0 ==>
            && q == "SELECT " + ColumnsClause(columns) + " FROM " + table + " WHERE "
                    + Join(" AND ", RenderedConditions(conditions)) + LimitClause
            && |RenderedConditions(conditions)| == |conditions|
            && forall k :: 0 <= k < |conditions| ==>
                 RenderedConditions(conditions)[k] == RenderCondition(conditions[k]))
  {
    var q := Render(table, columns, conditions);
    var head := "SELECT " + ColumnsClause(columns) + " FROM " + table + " ";
    assert q == head + WhereClause(conditions) + LimitClause;
    assert q[..7] == head[..7];
    if |conditions| > 0 {
      var tail := Join(" AND ", RenderedConditions(conditions)) + LimitClause;
      assert q == "SELECT " + ColumnsClause(columns) + " FROM " + table + " WHERE " + tail;
      assert q != "SELECT " + ColumnsClause(columns) + " FROM " + table + "  LIMIT 50;" by {
        var n := |"SELECT " + ColumnsClause(columns) + " FROM " + table + " "|;
        assert q[n] == 'W';
      }
    }
  }

  /** Only the first "%s" of a condition is substituted, by the quoted
      parameter; text after it, later "%s" included, stays literal. A
      condition without "%s" is rendered as written. */
  lemma ConditionSubstitution(condition: string, v: Value, i: nat)
    ensures (forall j: nat :: !OccursAt(condition, "%s", j)) ==>
              RenderCondition((condition, v)) == condition
    ensures OccursAt(condition, "%s", i) && (forall j: nat :: j < i ==> !OccursAt(condition, "%s", j)) ==>
              RenderCondition((condition, v)) == condition[..i] + "'" + Str(v) + "'" + condition[i + 2..]
  {
    if forall j: nat :: !OccursAt(condition, "%s", j) {
      ReplaceFirstAbsent(condition, "%s", "'" + Str(v) + "'");
    }
    if OccursAt(condition, "%s", i) && (forall j: nat :: j < i ==> !OccursAt(condition, "%s", j)) {
      ReplaceFirstAt(condition, "%s", "'" + Str(v) + "'", i);
    }
  }

  /** "column IN (%s)" renders as the column, " IN (", the quoted stored
      parameter and ")". */
  lemma InCondition(column: string, v: Value)
    requires '%' !in column
    ensures RenderCondition((column + " IN (%s)", v)) == column + " IN ('" + Str(v) + "')"
  {
    var a := column + " IN (";
    assert '%' !in a by {
      assert a == column + [' ', 'I', 'N', ' ', '('];
    }
    assert column + " IN (%s)" == a + "%s)";
    ReplaceFirstSkip(a, "%s)", "%s", "'" + Str(v) + "'");
    assert ("%s)")[..2] == "%s";
  }

  /** A builder with no columns and exactly one condition renders as
      "SELECT * FROM <table> WHERE <condition> LIMIT 50;". */
  lemma SingleConditionRender(table: string, c: (string, Value))
    ensures Render(table, [], [c]) == "SELECT * FROM " + table + " WHERE " + RenderCondition(c) + LimitClause
  {
    assert RenderedConditions([c]) == [RenderCondition(c)];
    assert WhereClause([c]) == "WHERE " + RenderCondition(c);
    assert ColumnsClause([]) == "*";
  }

  /** A builder with no columns and the single condition "column IN (%s)"
      renders with the stored parameter quoted inside the parentheses. */
  lemma SingleInRender(table: string, column: string, v: Value)
    requires '%' !in column
    ensures Render(table, [], [(column + " IN (%s)", v)])
            == ("SELECT * FROM " + table + " WHERE " + column + " IN ('") + Str(v) + ("')" + LimitClause)
  {
    SingleConditionRender(table, (column + " IN (%s)", v));
    InCondition(column, v);
  }

  /** Lists are stored as their elements joined by "','", so that the
      quotes added at rendering close the first element and open the last;
      None elements print as "None". */
  lemma StoredListExamples()
    ensures Stored(List([Some("a"), Some("b")])) == Some("a','b")
    ensures Stored(List([Some("a"), None])) == Some("a','None")
  {
    var ab := Strs([Some("a"), Some("b")]);
    assert ab[0] == "a" && ab[1] == "b";
    assert ab[..1] == ["a"];
    assert Join("','", ["a"]) == "a";
    assert Join("','", ab) == "a" + "','" + "b";
    assert Stored(List([Some("a"), Some("b")])) == Some(Join("','", ab));
    assert "a" + "','" + "b" == "a','b";
    var an := Strs([Some("a"), None]);
    assert an[0] == "a" && an[1] == "None";
    assert an[..1] == ["a"];
    assert Join("','", an) == "a" + "','" + "None";
    assert Stored(List([Some("a"), None])) == Some(Join("','", an));
    assert "a" + "','" + "None" == "a','None";
  }

  /** An empty list renders as two quotes with nothing between them. */
  lemma EmptyListRendersEmptyQuotes(column: string)
    requires '%' !in column
    ensures RenderCondition((column + " IN (%s)", Stored(List([])))) == column + " IN ('')"
  {
    InCondition(column, Stored(List([])));
  }

  /** Values are not escaped: a quote inside a parameter is inserted as it is. */
  lemma QuoteNotEscaped()
    ensures RenderCondition(("name = %s", Stored(Scalar(Some("O'Brien"))))) == "name = 'O'Brien'"
  {
    var s := "name = ";
    assert '%' !in s;
    assert "name = %s" == s + "%s";
    ReplaceFirstSkip(s, "%s", "%s", "'O'Brien'");
    assert ReplaceFirst("%s", "%s", "'O'Brien'") == "'O'Brien'";
    assert "'" + Str(Some("O'Brien")) + "'" == "'O'Brien'";
    assert s + "'O'Brien'" == "name = 'O'Brien'";
  }
}
