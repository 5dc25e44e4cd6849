/**
 * The fluent SELECT builder. Chained calls accumulate select columns, a table, WHERE
 * conditions, GROUP BY and ORDER BY columns, a descending flag and a limit; `Build`
 * renders them as one statement whose clauses come in the fixed order
 * SELECT, FROM, WHERE, GROUP BY, ORDER BY, LIMIT, separated by single spaces.
 * Every clause but SELECT is left out when it has nothing to say.
 */
module QueryBuilder {
  import opened Wrappers
  import opened Text

  datatype Keyword = Select | From | Where | GroupBy | OrderBy | Limit

  /** Slot of a clause kind in the fixed clause order SELECT, FROM, WHERE, GROUP BY, ORDER BY, LIMIT; absent clauses leave their slot empty. */
  function Rank(k: Keyword): nat
  {
    match k
    case Select => 0
    case From => 1
    case Where => 2
    case GroupBy => 3
    case OrderBy => 4
    case Limit => 5
  }

  /** The keyword that opens a clause, with the space that follows it. */
  function Lead(k: Keyword): string
  {
    match k
    case Select => "SELECT "
    case From => "FROM "
    case Where => "WHERE "
    case GroupBy => "GROUP BY "
    case OrderBy => "ORDER BY "
    case Limit => "LIMIT "
  }

  /** One clause of the statement: its keyword and what follows it. */
  datatype Clause = Clause(keyword: Keyword, body: string)

  function ClauseText(c: Clause): string
  {
    Lead(c.keyword) + c.body
  }

  /** The texts of the clauses, in order. */
  function ClauseTexts(cs: seq<Clause>): (ts: seq<string>)
    ensures |ts| == |cs|
  {
    seq(|cs|, i requires 0 <= i < |cs| => ClauseText(cs[i]))
  }

  /** The texts of one more clause are the texts so far and that clause's text. */
  lemma ClauseTextsSnoc(cs: seq<Clause>, c: Clause)
    ensures ClauseTexts(cs + [c]) == ClauseTexts(cs) + [ClauseText(c)]
  {
  }

  /** Everything the builder has accumulated. */
  datatype State = State(
    select: seq<string>,
    from: Option<string>,
    where: seq<string>,
    groupBy: seq<string>,
    orderBy: seq<string>,
    desc: bool,
    limit: Option<int>)

  /** A fresh builder: nothing selected, no table, no limit, ascending order. */
  const Empty: State := State([], None, [], [], [], false, None)

  /** The table is rendered only when it is set and is not the empty string. */
  predicate HasFrom(s: State)
  {
    s.from.Some? && s.from.value != ""
  }

  /** The limit is rendered only when it is set and is not zero. */
  predicate HasLimit(s: State)
  {
    s.limit.Some? && s.limit.value != 0
  }

  /** Whether the clause of kind `k` is rendered: SELECT always, the others when their input is truthy. */
  predicate Present(s: State, k: Keyword)
  {
    match k
    case Select => true
    case From => HasFrom(s)
    case Where => s.where != []
    case GroupBy => s.groupBy != []
    case OrderBy => s.orderBy != []
    case Limit => HasLimit(s)
  }

  function SelectBody(s: State): string
  {
    if s.select == [] then "*" else Join(s.select, ", ")
  }

  function OrderBody(s: State): string
  {
    Join(s.orderBy, ", ") + (if s.desc then " DESC" else "")
  }

  /** What follows the keyword of a present clause of kind `k`. */
  function Body(s: State, k: Keyword): string
  {
    match k
    case Select => SelectBody(s)
    case From => if s.from.Some? then s.from.value else ""
    case Where => Join(s.where, " AND ")
    case GroupBy => Join(s.groupBy, ", ")
    case OrderBy => OrderBody(s)
    case Limit => if s.limit.Some? then IntToDecimal(s.limit.value) else ""
  }

  /** The clause kind of slot `i` of the fixed clause order (not position `i` of the rendered statement, which skips absent clauses). */
  function KindAt(i: nat): (k: Keyword)
    requires i < 6
    ensures Rank(k) == i
  {
    if i == 0 then Select
    else if i == 1 then From
    else if i == 2 then Where
    else if i == 3 then GroupBy
    else if i == 4 then OrderBy
    else Limit
  }

  /** The clause of kind `k`, when it is present. */
  function ClauseFor(s: State, k: Keyword): seq<Clause>
  {
    if Present(s, k) then [Clause(k, Body(s, k))] else []
  }

  /** The present clauses among the first `n` kinds, in rendering order. */
  function ClausesUpTo(s: State, n: nat): seq<Clause>
    requires n <= 6
  {
    if n == 0 then [] else ClausesUpTo(s, n - 1) + ClauseFor(s, KindAt(n - 1))
  }

  /** The clauses the statement is made of, in order. */
  function Clauses(s: State): seq<Clause>
  {
    ClausesUpTo(s, 6)
  }

  /** The rendered statement: the clause texts joined by single spaces. */
  function Render(s: State): string
  {
    Join(ClauseTexts(Clauses(s)), " ")
  }

  /** Whether some clause of `cs` has keyword `k`. */
  predicate HasClause(cs: seq<Clause>, k: Keyword)
  {
    exists i :: 0 <= i < |cs| && cs[i].keyword == k
  }

  /** Clauses whose kinds strictly increase in rank. */
  predicate InOrder(cs: seq<Clause>)
  {
    forall i, j :: 0 <= i < j < |cs| ==> Rank(cs[i].keyword) < Rank(cs[j].keyword)
  }

  /** Every clause among the first `n` kinds is of a present kind and carries that kind's body. */
  lemma {:induction false} ClausesUpToBodies(s: State, n: nat)
    requires n <= 6
    ensures forall c :: c in ClausesUpTo(s, n) ==>
      Rank(c.keyword) < n && Present(s, c.keyword) && c.body == Body(s, c.keyword)
  {
    if n > 0 {
      ClausesUpToBodies(s, n - 1);
    }
  }

  /** Among the first `n` kinds, there is a clause of kind `k` exactly when `k` is present. */
  lemma {:induction false} ClausesUpToPresence(s: State, n: nat)
    requires n <= 6
    ensures forall k :: HasClause(ClausesUpTo(s, n), k) <==> Rank(k) < n && Present(s, k)
  {
    if n > 0 {
      ClausesUpToPresence(s, n - 1);
      ClausesUpToBodies(s, n);
      var front := ClausesUpTo(s, n - 1);
      var cs := front + ClauseFor(s, KindAt(n - 1));
      assert ClausesUpTo(s, n) == cs;
      forall j | HasClause(cs, j)
        ensures Rank(j) < n && Present(s, j)
      {
        var i :| 0 <= i < |cs| && cs[i].keyword == j;
        assert cs[i] in cs;
      }
      forall j | Rank(j) < n && Present(s, j)
        ensures HasClause(cs, j)
      {
        if Rank(j) < n - 1 {
          var i :| 0 <= i < |front| && front[i].keyword == j;
          assert cs[i] == front[i];
        } else {
          assert cs[|front|].keyword == j;
        }
      }
    }
  }

  /** The clauses among the first `n` kinds strictly increase in rank. */
  lemma {:induction false} ClausesUpToInOrder(s: State, n: nat)
    requires n <= 6
    ensures InOrder(ClausesUpTo(s, n))
  {
    if n > 0 {
      ClausesUpToInOrder(s, n - 1);
      ClausesUpToBodies(s, n - 1);
      var front := ClausesUpTo(s, n - 1);
      var cs := front + ClauseFor(s, KindAt(n - 1));
      assert ClausesUpTo(s, n) == cs;
      forall i, i' | 0 <= i < i' < |cs|
        ensures Rank(cs[i].keyword) < Rank(cs[i'].keyword)
      {
        assert cs[i] == front[i];
        if i' < |front| {
          assert cs[i'] == front[i'];
        } else {
          assert front[i] in front;
        }
      }
    }
  }

  /**
   * The statement always opens with the SELECT clause (`*` when no column was selected),
   * and the clause kinds strictly increase along the statement, so each appears at most
   * once and always in the order SELECT, FROM, WHERE, GROUP BY, ORDER BY, LIMIT.
   */
  lemma ClausesOrdered(s: State)
    ensures |Clauses(s)| >= 1
    ensures Clauses(s)[0] == Clause(Select, if s.select == [] then "*" else Join(s.select, ", "))
    ensures InOrder(Clauses(s))
  {
    ClausesUpToPresence(s, 6);
    ClausesUpToInOrder(s, 6);
    ClausesUpToBodies(s, 6);
    var cs := Clauses(s);
    assert HasClause(cs, Select);
    var i :| 0 <= i < |cs| && cs[i].keyword == Select;
    assert Rank(cs[0].keyword) <= Rank(cs[i].keyword);
    assert cs[0] in cs;
  }

  /**
   * Each optional clause is present exactly when its input is non-empty (for the table
   * and the limit: set, and neither the empty string nor zero), and carries that input:
   * conditions joined with ` AND `, columns joined with `, `, and ` DESC` once after all
   * ORDER BY columns when the descending flag is set.
   */
  lemma ClausePresence(s: State)
    ensures HasClause(Clauses(s), Select)
    ensures HasClause(Clauses(s), From) <==> HasFrom(s)
    ensures HasClause(Clauses(s), Where) <==> s.where != []
    ensures HasClause(Clauses(s), GroupBy) <==> s.groupBy != []
    ensures HasClause(Clauses(s), OrderBy) <==> s.orderBy != []
    ensures HasClause(Clauses(s), Limit) <==> HasLimit(s)
    ensures forall c :: c in Clauses(s) ==>
      match c.keyword
      case Select => c.body == SelectBody(s)
      case From => c.body == s.from.value
      case Where => c.body == Join(s.where, " AND ")
      case GroupBy => c.body == Join(s.groupBy, ", ")
      case OrderBy => c.body == Join(s.orderBy, ", ") + (if s.desc then " DESC" else "")
      case Limit => c.body == IntToDecimal(s.limit.value)
  {
    ClausesUpToPresence(s, 6);
    ClausesUpToBodies(s, 6);
  }

  /** Collecting the kind in position `n` appends its clause text when that clause is present. */
  lemma TextsStep(s: State, n: nat, parts: seq<string>, next: seq<string>)
    requires n < 6
    requires parts == ClauseTexts(ClausesUpTo(s, n))
    requires next == if Present(s, KindAt(n)) then parts + [Lead(KindAt(n)) + Body(s, KindAt(n))] else parts
    ensures next == ClauseTexts(ClausesUpTo(s, n + 1))
  {
    ClauseTextsSnoc(ClausesUpTo(s, n), Clause(KindAt(n), Body(s, KindAt(n))));
  }

  /** The statement begins with its SELECT clause: `SELECT *` when no column was selected. */
  lemma StartsWithSelect(s: State)
    ensures "SELECT " + SelectBody(s) <= Render(s)
    ensures s.select == [] ==> "SELECT *" <= Render(s)
  {
    ClausesOrdered(s);
    JoinStartsWithFirst(ClauseTexts(Clauses(s)), " ");
  }

  /** A builder that was given nothing renders `SELECT *`. */
  lemma EmptyRendersSelectStar()
    ensures Render(Empty) == "SELECT *"
  {
    assert Clauses(Empty) == [Clause(Select, "*")];
  }

  /** Two columns from one table, with one condition and a limit. */
  lemma ExampleStatement()
    ensures Render(State(["a", "b"], Some("t"), ["a>1"], [], [], false, Some(10)))
      == "SELECT a, b FROM t WHERE a>1 LIMIT 10"
  {
    var s := State(["a", "b"], Some("t"), ["a>1"], [], [], false, Some(10));
    ExampleClauses(s);
    var ts := ["SELECT a, b", "FROM t", "WHERE a>1", "LIMIT 10"];
    ExampleTexts(ts);
    ExampleJoin(ts);
  }

  /** A step of `ExampleStatement`: the clauses of its state. */
  lemma ExampleClauses(s: State)
    requires s == State(["a", "b"], Some("t"), ["a>1"], [], [], false, Some(10))
    ensures Clauses(s) == [Clause(Select, "a, b"), Clause(From, "t"), Clause(Where, "a>1"), Clause(Limit, "10")]
  {
    assert Join(["a", "b"], ", ") == "a, b" by {
      assert Join(["a", "b"], ", ") == "a" + ", " + Join(["b"], ", ");
    }
    assert IntToDecimal(10) == "10";
  }

  /** A step of `ExampleStatement`: the texts of those clauses. */
  lemma ExampleTexts(ts: seq<string>)
    requires ts == ["SELECT a, b", "FROM t", "WHERE a>1", "LIMIT 10"]
    ensures ClauseTexts([Clause(Select, "a, b"), Clause(From, "t"), Clause(Where, "a>1"), Clause(Limit, "10")]) == ts
  {
    var cs := [Clause(Select, "a, b"), Clause(From, "t"), Clause(Where, "a>1"), Clause(Limit, "10")];
    assert ClauseText(cs[0]) == ts[0];
    assert ClauseText(cs[1]) == ts[1];
    assert ClauseText(cs[2]) == ts[2];
    assert ClauseText(cs[3]) == ts[3];
  }

  /** A step of `ExampleStatement`: those texts joined by single spaces. */
  lemma ExampleJoin(ts: seq<string>)
    requires ts == ["SELECT a, b", "FROM t", "WHERE a>1", "LIMIT 10"]
    ensures Join(ts, " ") == "SELECT a, b FROM t WHERE a>1 LIMIT 10"
  {
    assert Join(ts[2..], " ") == "WHERE a>1" + " " + "LIMIT 10";
    assert Join(ts[1..], " ") == "FROM t" + " " + "WHERE a>1 LIMIT 10";
  }

  /** The mutable builder; each chained call updates its own field and returns the builder. */
  class Query {
    var selectCols: seq<string>
    var fromTable: Option<string>
    var whereConditions: seq<string>
    var groupCols: seq<string>
    var orderCols: seq<string>
    var limitCount: Option<int>
    var desc: bool

    /** The accumulated state as a value. */
    function Current(): State
      reads this
    {
      State(selectCols, fromTable, whereConditions, groupCols, orderCols, desc, limitCount)
    }

    constructor ()
      ensures Current() == Empty
    {
      selectCols := [];
      fromTable := None;
      whereConditions := [];
      groupCols := [];
      orderCols := [];
      limitCount := None;
      desc := false;
    }

    /** Appends select columns, keeping duplicates. */
    method Select(cols: seq<string>) returns (self: Query)
      modifies this
      ensures self == this
      ensures Current() == old(Current()).(select := old(selectCols) + cols)
    {
      selectCols := selectCols + cols;
      self := this;
    }

    /** Sets the table; a later call replaces an earlier one. */
    method From(table: string) returns (self: Query)
      modifies this
      ensures self == this
      ensures Current() == old(Current()).(from := Some(table))
    {
      fromTable := Some(table);
      self := this;
    }

    /** Appends WHERE conditions. */
    method Where(conditions: seq<string>) returns (self: Query)
      modifies this
      ensures self == this
      ensures Current() == old(Current()).(where := old(whereConditions) + conditions)
    {
      whereConditions := whereConditions + conditions;
      self := this;
    }

    /** Appends GROUP BY columns. */
    method GroupBy(cols: seq<string>) returns (self: Query)
      modifies this
      ensures self == this
      ensures Current() == old(Current()).(groupBy := old(groupCols) + cols)
    {
      groupCols := groupCols + cols;
      self := this;
    }

    /**
     * Appends ORDER BY columns; the flag of this call becomes the flag of the whole clause.
     * `order_by(cols)` without `desc` is `OrderBy(cols, false)`, so it switches a flag set
     * by an earlier call off again (see `ExampleDescReset`).
     */
    method OrderBy(cols: seq<string>, descending: bool) returns (self: Query)
      modifies this
      ensures self == this
      ensures Current() == old(Current()).(orderBy := old(orderCols) + cols, desc := descending)
    {
      orderCols := orderCols + cols;
      desc := descending;
      self := this;
    }

    /** Sets the limit; a later call replaces an earlier one. */
    method Limit(n: int) returns (self: Query)
      modifies this
      ensures self == this
      ensures Current() == old(Current()).(limit := Some(n))
    {
      limitCount := Some(n);
      self := this;
    }

    /**
     * Renders the statement: the SELECT clause, then each further clause that is present,
     * joined by single spaces. The optional clauses are appended by the step methods below,
     * one per clause kind.
     */
    method Build() returns (sql: string)
      ensures sql == Render(Current())
    {
      var parts: seq<string>;
      if selectCols != [] {
        parts := ["SELECT " + Join(selectCols, ", ")];
      } else {
        parts := ["SELECT *"];
        assert "SELECT *" == Lead(Keyword.Select) + SelectBody(Current());
      }
      assert KindAt(0) == Keyword.Select;
      TextsStep(Current(), 0, [], parts);
      parts := AppendFrom(parts);
      parts := AppendWhere(parts);
      parts := AppendGroupBy(parts);
      parts := AppendOrderBy(parts);
      parts := AppendLimit(parts);
      sql := Join(parts, " ");
    }

    /** Appends `FROM t` when a non-empty table is set. */
    method AppendFrom(parts: seq<string>) returns (parts': seq<string>)
      requires parts == ClauseTexts(ClausesUpTo(Current(), 1))
      ensures parts' == ClauseTexts(ClausesUpTo(Current(), 2))
    {
      parts' := parts;
      if fromTable.Some? && fromTable.value != "" {
        parts' := parts' + ["FROM " + fromTable.value];
      }
      TextsStep(Current(), 1, parts, parts');
    }

    /** Appends the WHERE conditions joined with `AND`, when there are any. */
    method AppendWhere(parts: seq<string>) returns (parts': seq<string>)
      requires parts == ClauseTexts(ClausesUpTo(Current(), 2))
      ensures parts' == ClauseTexts(ClausesUpTo(Current(), 3))
    {
      parts' := parts;
      if whereConditions != [] {
        parts' := parts' + ["WHERE " + Join(whereConditions, " AND ")];
      }
      TextsStep(Current(), 2, parts, parts');
    }

    /** Appends the GROUP BY columns, when there are any. */
    method AppendGroupBy(parts: seq<string>) returns (parts': seq<string>)
      requires parts == ClauseTexts(ClausesUpTo(Current(), 3))
      ensures parts' == ClauseTexts(ClausesUpTo(Current(), 4))
    {
      parts' := parts;
      if groupCols != [] {
        parts' := parts' + ["GROUP BY " + Join(groupCols, ", ")];
      }
      TextsStep(Current(), 3, parts, parts');
    }

    /** Appends the ORDER BY columns, followed by `DESC` when the flag is set, when there are any. */
    method AppendOrderBy(parts: seq<string>) returns (parts': seq<string>)
      requires parts == ClauseTexts(ClausesUpTo(Current(), 4))
      ensures parts' == ClauseTexts(ClausesUpTo(Current(), 5))
    {
      parts' := parts;
      if orderCols != [] {
        var orderStr := Join(orderCols, ", ");
        if desc {
          orderStr := orderStr + " DESC";
        } else {
          assert orderStr == Join(orderCols, ", ") + "";
        }
        parts' := parts' + ["ORDER BY " + orderStr];
      }
      TextsStep(Current(), 4, parts, parts');
    }

    /** Appends `LIMIT n` when a non-zero limit is set. */
    method AppendLimit(parts: seq<string>) returns (parts': seq<string>)
      requires parts == ClauseTexts(ClausesUpTo(Current(), 5))
      ensures parts' == ClauseTexts(ClausesUpTo(Current(), 6))
    {
      parts' := parts;
      if limitCount.Some? && limitCount.value != 0 {
        parts' := parts' + ["LIMIT " + IntToDecimal(limitCount.value)];
      }
      TextsStep(Current(), 5, parts, parts');
    }
  }

  /** `ClickHouseQuery().select("a", "b").from_("t").where("a>1").limit(10).build()`. */
  method ExampleChain() returns (sql: string)
    ensures sql == "SELECT a, b FROM t WHERE a>1 LIMIT 10"
  {
    var q := new Query();
    q := q.Select(["a", "b"]);
    q := q.From("t");
    q := q.Where(["a>1"]);
    q := q.Limit(10);
    assert q.Current() == State(["a", "b"], Some("t"), ["a>1"], [], [], false, Some(10));
    sql := q.Build();
    ExampleStatement();
  }

  /**
   * `order_by("a", desc=True).order_by("b")`: the second call's omitted flag is `False`,
   * so it switches the descending order off for all the ORDER BY columns.
   */
  method ExampleDescReset() returns (sql: string)
    ensures sql == "SELECT * ORDER BY a, b"
  {
    var q := new Query();
    q := q.OrderBy(["a"], true);
    q := q.OrderBy(["b"], false);
    assert q.Current() == State([], None, [], [], ["a", "b"], false, None);
    sql := q.Build();
    DescResetStatement();
  }

  lemma DescResetStatement()
    ensures Render(State([], None, [], [], ["a", "b"], false, None)) == "SELECT * ORDER BY a, b"
  {
    var s := State([], None, [], [], ["a", "b"], false, None);
    assert Join(["a", "b"], ", ") == "a, b" by {
      assert Join(["a", "b"], ", ") == "a" + ", " + Join(["b"], ", ");
    }
    assert Join(["a", "b"], ", ") + "" == "a, b";
    assert Body(s, OrderBy) == "a, b";
    assert Body(s, Select) == "*";
    var cs := [Clause(Select, "*"), Clause(OrderBy, "a, b")];
    assert Clauses(s) == cs;
    assert ClauseText(cs[0]) == "SELECT *";
    assert ClauseText(cs[1]) == "ORDER BY a, b";
    assert ClauseTexts(cs) == ["SELECT *", "ORDER BY a, b"];
    assert Join(["SELECT *", "ORDER BY a, b"], " ") == "SELECT *" + " " + "ORDER BY a, b";
  }
}
