/** The builder object of go/vedadb/query_builder.go. Its methods append to the fields and its build methods
    write text in loops; both are proved against the values of module `QueryTexts`. */
module QueryBuilders {
  import opened QueryTexts
  import opened SqlText

  // ---------- printed lists ----------

  function QuestionMarkTexts(n: nat): (r: seq<string>)
    ensures |r| == n && forall k :: 0 <= k < n ==> r[k] == "?"
  {
    seq(n, _ => "?")
  }

  lemma {:induction false} MarkListText(places: seq<Place>)
    ensures Sql(MarkList(places)) == Join(QuestionMarkTexts(|places|), ", ")
    decreases |places|
  {
    if |places| == 1 {
      SqlOne(Mark(places[0]));
    } else if |places| > 1 {
      var n := |places| - 1;
      MarkListText(places[..n]);
      assert QuestionMarkTexts(n + 1)[..n] == QuestionMarkTexts(n);
      SqlOne(Text(", "));
      SqlOne(Mark(places[n]));
      SqlTwo(Text(", "), Mark(places[n]));
      SqlAppend(MarkList(places[..n]), [Text(", "), Mark(places[n])]);
    }
  }

  /** The printed assignments, one for each SET clause. */
  function SetTexts(sets: seq<SetClause>): (r: seq<string>)
    ensures |r| == |sets| && forall k :: 0 <= k < |sets| ==> r[k] == sets[k].column + " = ?"
  {
    seq(|sets|, k requires 0 <= k < |sets| => sets[k].column + " = ?")
  }

  lemma {:induction false} JoinSnoc(xs: seq<string>, x: string)
    ensures Join(xs + [x], ", ") == Join(xs, ", ") + ((if xs == [] then "" else ", ") + x)
  {
    assert (xs + [x])[..|xs|] == xs;
  }

  lemma Regroup(separator: string, column: string)
    ensures separator + column + " = " + "?" == separator + (column + " = ?")
  {
    assert " = " + "?" == " = ?";
  }

  lemma SetListStep(sets: seq<SetClause>)
    requires sets != []
    ensures var i := |sets| - 1;
            Sql(SetList(sets)) == Sql(SetList(sets[..i])) + ((if i > 0 then ", " else "") + (sets[i].column + " = ?"))
  {
    var i := |sets| - 1;
    var first := Text((if i > 0 then ", " else "") + sets[i].column + " = ");
    SqlOne(first);
    SqlOne(Mark(AtSet(i)));
    SqlTwo(first, Mark(AtSet(i)));
    SqlAppend(SetList(sets[..i]), [first, Mark(AtSet(i))]);
    Regroup(if i > 0 then ", " else "", sets[i].column);
  }

  lemma SetTextsSnoc(sets: seq<SetClause>)
    requires sets != []
    ensures var i := |sets| - 1;
            Join(SetTexts(sets), ", ") ==
            Join(SetTexts(sets[..i]), ", ") + ((if i > 0 then ", " else "") + (sets[i].column + " = ?"))
  {
    var i := |sets| - 1;
    assert SetTexts(sets) == SetTexts(sets[..i]) + [sets[i].column + " = ?"];
    JoinSnoc(SetTexts(sets[..i]), sets[i].column + " = ?");
  }

  lemma {:induction false} SetListText(sets: seq<SetClause>)
    ensures Sql(SetList(sets)) == Join(SetTexts(sets), ", ")
    decreases |sets|
  {
    if sets != [] {
      var i := |sets| - 1;
      SetListText(sets[..i]);
      SetListStep(sets);
      SetTextsSnoc(sets);
    }
  }

  function RowTexts(rows: nat, width: nat): (r: seq<string>)
    ensures |r| == rows && forall k :: 0 <= k < rows ==> r[k] == "(" + Join(QuestionMarkTexts(width), ", ") + ")"
  {
    seq(rows, _ => "(" + Join(QuestionMarkTexts(width), ", ") + ")")
  }

  lemma RowListStep(rows: nat, width: nat)
    requires rows > 0
    ensures Sql(RowList(rows, width)) ==
            Sql(RowList(rows - 1, width)) + ((if rows > 1 then ", (" else "(") + Join(QuestionMarkTexts(width), ", ") + ")")
  {
    var start, marks := if rows > 1 then ", (" else "(", MarkList(RowPlaces(rows - 1, width));
    MarkListText(RowPlaces(rows - 1, width));
    SqlBetween(start, marks, ")");
    SqlAppend(RowList(rows - 1, width), [Text(start)] + marks + [Text(")")]);
  }

  lemma RowGroup(first: bool, marks: string)
    ensures (if first then "(" else ", (") + marks + ")" == (if first then "" else ", ") + ("(" + marks + ")")
  {
    assert first || ", (" + marks + ")" == ", " + ("(" + marks + ")");
  }

  lemma {:induction false} RowListText(rows: nat, width: nat)
    ensures Sql(RowList(rows, width)) == Join(RowTexts(rows, width), ", ")
  {
    if rows > 0 {
      RowListText(rows - 1, width);
      RowListStep(rows, width);
      var marks := Join(QuestionMarkTexts(width), ", ");
      var row := "(" + marks + ")";
      assert RowTexts(rows, width) == RowTexts(rows - 1, width) + [row];
      JoinSnoc(RowTexts(rows - 1, width), row);
      RowGroup(rows == 1, marks);
    }
  }

  function ConditionText(c: Condition): string {
    if c.operator == "IN" then c.column + " IN (" + Join(QuestionMarkTexts(InCount(c.value)), ", ") + ")"
    else if c.operator == "IS NULL" || c.operator == "IS NOT NULL" then c.column + " " + c.operator
    else c.column + " " + c.operator + " ?"
  }

  lemma ConditionPiecesText(i: nat, c: Condition)
    ensures Sql(ConditionPieces(i, c)) == ConditionText(c)
  {
    if c.operator == "IN" {
      var head, marks := [Text(c.column + " IN (")], MarkList(InPlaces(i, InCount(c.value)));
      MarkListText(InPlaces(i, InCount(c.value)));
      SqlOne(head[0]);
      SqlOne(Text(")"));
      SqlAppend(head, marks);
      SqlAppend(head + marks, [Text(")")]);
    } else if c.operator == "IS NULL" || c.operator == "IS NOT NULL" {
      SqlOne(Text(c.column + " " + c.operator));
    } else {
      SqlOne(Text(c.column + " " + c.operator + " "));
      SqlOne(Mark(AtWhere(i)));
      SqlTwo(Text(c.column + " " + c.operator + " "), Mark(AtWhere(i)));
    }
  }

  lemma SqlGrows(before: seq<Piece>, separator: Piece, pieces: seq<Piece>)
    requires separator.Text?
    ensures Sql(before + ([separator] + pieces)) == Sql(before) + (separator.s + Sql(pieces))
  {
    SqlOne(separator);
    SqlAppend([separator], pieces);
    SqlAppend(before, [separator] + pieces);
  }

  lemma ConditionListStep(wheres: seq<Condition>, i: nat)
    requires i < |wheres|
    ensures Sql(ConditionList(wheres[..i + 1])) ==
            Sql(ConditionList(wheres[..i])) + (Separator(i, wheres[i]).s + ConditionText(wheres[i]))
  {
    var separator, pieces := Separator(i, wheres[i]), ConditionPieces(i, wheres[i]);
    assert wheres[..i + 1][..i] == wheres[..i];
    ConditionPiecesText(i, wheres[i]);
    SqlGrows(ConditionList(wheres[..i]), separator, pieces);
  }

  lemma SqlBetweenTwo(head: string, xs: seq<Piece>, ys: seq<Piece>, tail: string)
    ensures Sql([Text(head)] + (xs + ys) + [Text(tail)]) == head + (Sql(xs) + Sql(ys)) + tail
  {
    SqlAppend(xs, ys);
    SqlBetween(head, xs + ys, tail);
  }

  lemma JoinTextStep(joins: seq<JoinClause>, k: nat)
    requires k < |joins|
    ensures JoinText(joins[..k + 1]) == JoinText(joins[..k]) + JoinClauseText(joins[k])
  {
    assert joins[..k + 1][..k] == joins[..k];
  }

  // ---------- the object ----------

  class QueryBuilder {
    const op: Operation
    var table: string
    var columns: seq<string>
    var wheres: seq<Condition>
    var sets: seq<SetClause>
    var values: seq<seq<Value>>
    var orderBy: seq<Order>
    var groupBy: seq<string>
    var limitVal: int
    var offsetVal: int
    var having: string
    var joins: seq<JoinClause>
    var returning: seq<string>
    var unionSQL: string
    var params: seq<Value>
    /** What each parameter was given for. */
    ghost var places: seq<Place>

    ghost function View(): Builder
      reads this
    {
      Builder(op, table, columns, wheres, sets, values, orderBy, groupBy, limitVal, offsetVal, having, joins, returning,
              unionSQL, params, places)
    }

    /** Select, Insert, Update, Delete and NewQuery. */
    constructor (op: Operation, table: string, columns: seq<string>)
      ensures View() == New(op, table, columns)
    {
      this.op, this.table, this.columns := op, table, columns;
      wheres, sets, values, orderBy, groupBy, joins, returning := [], [], [], [], [], [], [];
      limitVal, offsetVal, having, unionSQL, params, places := 0, 0, "", "", [], [];
    }

    method From(table: string)
      modifies this
      ensures View() == Apply(old(View()), DoFrom(table))
    {
      this.table := table;
    }

    method Set(column: string, value: Value)
      modifies this
      ensures View() == Apply(old(View()), DoSet(column, value))
    {
      places := places + [AtSet(|sets|)];
      sets := sets + [SetClause(column, value)];
      params := params + [value];
    }

    method Columns(cols: seq<string>)
      modifies this
      ensures View() == Apply(old(View()), DoColumns(cols))
    {
      columns := cols;
    }

    method Values(vals: seq<Value>)
      modifies this
      ensures View() == Apply(old(View()), DoValues(vals))
    {
      places := places + RowPlaces(|values|, |vals|);
      values := values + [vals];
      params := params + vals;
    }

    method Where(column: string, operator: string, value: Value)
      modifies this
      ensures View() == Apply(old(View()), DoWhere(column, operator, value))
    {
      var logic := "AND";
      if |wheres| == 0 {
        logic := "";
      }
      places := places + [AtWhere(|wheres|)];
      wheres := wheres + [Condition(column, operator, value, logic)];
      params := params + [value];
    }

    method WhereOr(column: string, operator: string, value: Value)
      modifies this
      ensures View() == Apply(old(View()), DoWhereOr(column, operator, value))
    {
      places := places + [AtWhere(|wheres|)];
      wheres := wheres + [Condition(column, operator, value, "OR")];
      params := params + [value];
    }

    method WhereIn(column: string, vals: seq<Value>)
      modifies this
      ensures View() == Apply(old(View()), DoWhereIn(column, vals))
    {
      var logic := "AND";
      if |wheres| == 0 {
        logic := "";
      }
      places := places + InPlaces(|wheres|, |vals|);
      wheres := wheres + [Condition(column, "IN", Slice(vals), logic)];
      params := params + vals;
    }

    method WhereNull(column: string)
      modifies this
      ensures View() == Apply(old(View()), DoWhereNull(column))
    {
      var logic := "AND";
      if |wheres| == 0 {
        logic := "";
      }
      wheres := wheres + [Condition(column, "IS NULL", Atom(0), logic)];
    }

    method WhereNotNull(column: string)
      modifies this
      ensures View() == Apply(old(View()), DoWhereNotNull(column))
    {
      var logic := "AND";
      if |wheres| == 0 {
        logic := "";
      }
      wheres := wheres + [Condition(column, "IS NOT NULL", Atom(0), logic)];
    }

    /** Join, LeftJoin and RightJoin differ in the kind. */
    method AddJoin(kind: string, table: string, on: string)
      modifies this
      ensures View() == Apply(old(View()), DoJoin(JoinClause(kind, table, on)))
    {
      joins := joins + [JoinClause(kind, table, on)];
    }

    method OrderBy(column: string, desc: seq<bool>)
      modifies this
      ensures View() == Apply(old(View()), DoOrderBy(Order(column, |desc| > 0 && desc[0])))
    {
      var isDesc := false;
      if |desc| > 0 {
        isDesc := desc[0];
      }
      orderBy := orderBy + [Order(column, isDesc)];
    }

    method GroupBy(columns: seq<string>)
      modifies this
      ensures View() == Apply(old(View()), DoGroupBy(columns))
    {
      groupBy := groupBy + columns;
    }

    method Having(condition: string)
      modifies this
      ensures View() == Apply(old(View()), DoHaving(condition))
    {
      having := condition;
    }

    method Limit(n: int)
      modifies this
      ensures View() == Apply(old(View()), DoLimit(n))
    {
      limitVal := n;
    }

    method Offset(n: int)
      modifies this
      ensures View() == Apply(old(View()), DoOffset(n))
    {
      offsetVal := n;
    }

    method Returning(columns: seq<string>)
      modifies this
      ensures View() == Apply(old(View()), DoReturning(columns))
    {
      returning := columns;
    }

    /** The text of the other builder, without its parameters. */
    method Union(other: QueryBuilder)
      requires other != this
      modifies this
      ensures View() == Apply(old(View()), DoUnion(old(other.View())))
    {
      hide QueryTexts.Build, Sql;
      unionSQL := other.Build();
    }

    method Params() returns (r: seq<Value>)
      ensures r == View().params
    {
      r := params;
    }

    // ---------- building ----------

    method WriteCondition(w: Condition) returns (text: string)
      ensures text == ConditionText(w)
    {
      if w.operator == "IN" {
        var count := if w.value.Slice? then |w.value.items| else 0;
        var marks: seq<string> := [];
        for i := 0 to count
          invariant marks == QuestionMarkTexts(i)
        {
          marks := marks + ["?"];
        }
        text := w.column + " IN (" + Join(marks, ", ") + ")";
      } else if w.operator == "IS NULL" || w.operator == "IS NOT NULL" {
        text := w.column + " " + w.operator;
      } else {
        text := w.column + " " + w.operator + " ?";
      }
    }

    method WriteWhere() returns (text: string)
      ensures text == Sql(WherePieces(wheres))
    {
      if |wheres| == 0 {
        return "";
      }
      var list := WriteConditions();
      text := " WHERE " + list;
      SqlOne(Text(" WHERE "));
      SqlAppend([Text(" WHERE ")], ConditionList(wheres));
    }

    method WriteConditions() returns (text: string)
      ensures text == Sql(ConditionList(wheres))
    {
      text := "";
      var i := 0;
      while i < |wheres|
        invariant 0 <= i <= |wheres|
        invariant text == Sql(ConditionList(wheres[..i]))
      {
        var separator := "";
        if i > 0 {
          separator := " " + wheres[i].logic + " ";
        }
        var condition := WriteCondition(wheres[i]);
        ConditionListStep(wheres, i);
        text := text + (separator + condition);
        i := i + 1;
      }
      assert wheres[..i] == wheres;
    }

    method WriteOrderBy() returns (text: string)
      ensures text == " ORDER BY " + Join(OrderList(orderBy), ", ")
    {
      var orders: seq<string> := [];
      for i := 0 to |orderBy|
        invariant orders == OrderList(orderBy)[..i]
      {
        if orderBy[i].desc {
          orders := orders + [orderBy[i].column + " DESC"];
        } else {
          orders := orders + [orderBy[i].column + " ASC"];
        }
      }
      assert orders == OrderList(orderBy);
      text := " ORDER BY " + Join(orders, ", ");
    }

    method WriteReturning() returns (text: string)
      ensures text == ReturningText(View())
    {
      text := "";
      if |returning| > 0 {
        text := " RETURNING " + Join(returning, ", ");
      }
    }

    method WriteHead() returns (text: string)
      ensures text == SelectHead(View())
    {
      if |columns| == 0 {
        text := "SELECT *";
      } else {
        text := "SELECT " + Join(columns, ", ");
      }
      text := text + " FROM " + table;
      ghost var start := text;
      for i := 0 to |joins|
        invariant text == start + JoinText(joins[..i])
      {
        JoinTextStep(joins, i);
        Regrouped(start, JoinText(joins[..i]), JoinClauseText(joins[i]));
        text := text + (" " + joins[i].kind + " JOIN " + joins[i].table + " ON " + joins[i].on);
      }
      assert joins[..|joins|] == joins;
    }

    method WriteGrouping() returns (text: string)
      ensures text == GroupText(View()) + HavingText(View())
    {
      text := "";
      if |groupBy| > 0 {
        text := " GROUP BY " + Join(groupBy, ", ");
      }
      if having != "" {
        text := text + (" HAVING " + having);
      }
    }

    method WriteBounds() returns (text: string)
      ensures text == LimitText(View()) + OffsetText(View())
    {
      text := "";
      if limitVal > 0 {
        text := " LIMIT " + ShowInt(limitVal);
      }
      if offsetVal > 0 {
        text := text + (" OFFSET " + ShowInt(offsetVal));
      }
    }

    method WriteTail() returns (text: string)
      ensures text == SelectTail(View())
    {
      var grouping := WriteGrouping();
      var orders, union := "", "";
      if |orderBy| > 0 {
        orders := WriteOrderBy();
      }
      assert orders == OrderText(View());
      var bounds := WriteBounds();
      if unionSQL != "" {
        union := " UNION " + unionSQL;
      }
      assert union == UnionText(View());
      text := grouping + orders + bounds + union;
    }

    method BuildSelect() returns (text: string)
      requires op.SelectOp?
      ensures text == Sql(QueryTexts.Build(View()))
    {
      var head := WriteHead();
      var where := WriteWhere();
      var tail := WriteTail();
      text := head + where + tail;
      SqlBetween(SelectHead(View()), WherePieces(wheres), SelectTail(View()));
    }

    method WriteValues() returns (text: string)
      ensures text == Sql(ValuePieces(values))
    {
      text := "";
      if |values| > 0 {
        var placeholders: seq<string> := [];
        for i := 0 to |values[0]|
          invariant placeholders == QuestionMarkTexts(i)
        {
          placeholders := placeholders + ["?"];
        }
        var row := "(" + Join(placeholders, ", ") + ")";
        var rows: seq<string> := [];
        for i := 0 to |values|
          invariant rows == RowTexts(i, |values[0]|)
        {
          rows := rows + [row];
        }
        RowListText(|values|, |values[0]|);
        SqlOne(Text(" VALUES "));
        SqlAppend([Text(" VALUES ")], RowList(|values|, |values[0]|));
        text := " VALUES " + Join(rows, ", ");
      }
    }

    method BuildInsert() returns (text: string)
      requires op.InsertOp?
      ensures text == Sql(QueryTexts.Build(View()))
    {
      text := "INSERT INTO " + table;
      if |columns| > 0 {
        text := text + (" (" + Join(columns, ", ") + ")");
      }
      assert text == InsertHead(View());
      var rows := WriteValues();
      var returned := WriteReturning();
      text := text + rows + returned;
      SqlBetween(InsertHead(View()), ValuePieces(values), ReturningText(View()));
    }

    method WriteSets() returns (text: string)
      ensures text == Sql(SetPieces(sets))
    {
      text := "";
      if |sets| > 0 {
        var texts: seq<string> := [];
        for i := 0 to |sets|
          invariant texts == SetTexts(sets)[..i]
        {
          texts := texts + [sets[i].column + " = ?"];
        }
        assert texts == SetTexts(sets);
        SetListText(sets);
        SqlOne(Text(" SET "));
        SqlAppend([Text(" SET ")], SetList(sets));
        text := " SET " + Join(texts, ", ");
      }
    }

    method BuildUpdate() returns (text: string)
      requires op.UpdateOp?
      ensures text == Sql(QueryTexts.Build(View()))
    {
      var assignments := WriteSets();
      var where := WriteWhere();
      var returned := WriteReturning();
      text := "UPDATE " + table + (assignments + where) + returned;
      SqlBetweenTwo("UPDATE " + table, SetPieces(sets), WherePieces(wheres), ReturningText(View()));
    }

    method BuildDelete() returns (text: string)
      requires op.DeleteOp?
      ensures text == Sql(QueryTexts.Build(View()))
    {
      var where := WriteWhere();
      var returned := WriteReturning();
      text := "DELETE FROM " + table + where + returned;
      SqlBetween("DELETE FROM " + table, WherePieces(wheres), ReturningText(View()));
    }

    method Build() returns (text: string)
      ensures text == Sql(QueryTexts.Build(View()))
    {
      match op {
        case SelectOp => text := BuildSelect();
        case InsertOp => text := BuildInsert();
        case UpdateOp => text := BuildUpdate();
        case DeleteOp => text := BuildDelete();
        case NoOp => text := "";
      }
    }
  }
}
