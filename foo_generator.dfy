/** FooQueryGenerator (generator/database_foo/default.py): a client of the
    builder holding two declared parameters, "name" and "user_id", and
    rendering one query per table from a fresh builder each time. Its own
    constructor never runs the builder's, so the generator has no table,
    columns or conditions of its own: it only has `attributes`. */
module FooGenerator {
  import opened Common
  import opened QueryBuilder

  class FooQueryGenerator {
    var attributes: map<string, Param>

    /** Both keys are declared; nothing in this class removes them. */
    ghost predicate Valid()
      reads this
    {
      "name" in attributes && "user_id" in attributes
    }

    /** `name` and `userIds` default to empty lists in the source. */
    constructor (name: Param := List([]), userIds: Param := List([]))
      ensures Valid()
      ensures attributes == map["name" := name, "user_id" := userIds]
      ensures attributes.Keys == {"name", "user_id"}
    {
      attributes := map["name" := name, "user_id" := userIds];
    }

    /** The users of database.user whose name is among the "name" parameter,
        all columns, capped at 50 rows. */
    method GetUsers() returns (query: string)
      requires Valid()
      ensures query == Render("database.user", [], [("name IN (%s)", Stored(attributes["name"]))])
      ensures query == "SELECT * FROM database.user WHERE name IN ('"
                       + Str(Stored(attributes["name"])) + "') LIMIT 50;"
    {
      var builder := new SimpleQueryBuilder("database.user");
      builder := builder.Select([]);
      builder := builder.Where("name IN (%s)", attributes["name"]);
      query := builder.Build();
      UsersText(Stored(attributes["name"]));
    }

    /** The rows of database.transaction whose user_id is among the
        "user_id" parameter, all columns, capped at 50 rows. */
    method GetTransactions() returns (query: string)
      requires Valid()
      ensures query == Render("database.transaction", [], [("user_id IN (%s)", Stored(attributes["user_id"]))])
      ensures query == "SELECT * FROM database.transaction WHERE user_id IN ('"
                       + Str(Stored(attributes["user_id"])) + "') LIMIT 50;"
    {
      var builder := new SimpleQueryBuilder("database.transaction");
      builder := builder.Select([]);
      builder := builder.Where("user_id IN (%s)", attributes["user_id"]);
      query := builder.Build();
      TransactionsText(Stored(attributes["user_id"]));
    }
  }

  /** The users query for any stored parameter, as text. */
  lemma UsersText(v: Value)
    ensures Render("database.user", [], [("name IN (%s)", v)])
            == "SELECT * FROM database.user WHERE name IN ('" + Str(v) + "') LIMIT 50;"
  {
    var table, column := "database.user", "name";
    assert '%' !in column;
    assert column + " IN (%s)" == "name IN (%s)";
    assert "SELECT * FROM database.user WHERE name IN ('"
        == "SELECT * FROM " + table + " WHERE " + column + " IN ('";
    assert "') LIMIT 50;" == "')" + LimitClause;
    SingleInRender(table, column, v);
  }

  /** The transactions query for any stored parameter, as text. */
  lemma TransactionsText(v: Value)
    ensures Render("database.transaction", [], [("user_id IN (%s)", v)])
            == "SELECT * FROM database.transaction WHERE user_id IN ('" + Str(v) + "') LIMIT 50;"
  {
    var table, column := "database.transaction", "user_id";
    assert '%' !in column;
    assert column + " IN (%s)" == "user_id IN (%s)";
    assert "SELECT * FROM database.transaction WHERE user_id IN ('"
        == "SELECT * FROM " + table + " WHERE " + column + " IN ('";
    assert "') LIMIT 50;" == "')" + LimitClause;
    SingleInRender(table, column, v);
  }

  /** Names ["a", "b"] give the query the generator's users lookup sends. */
  lemma UsersQueryExample()
    ensures Render("database.user", [], [("name IN (%s)", Stored(List([Some("a"), Some("b")])))])
            == "SELECT * FROM database.user WHERE name IN ('" + "a','b" + "') LIMIT 50;"
  {
    var v := Stored(List([Some("a"), Some("b")]));
    StoredListExamples();
    UsersText(v);
  }
}
