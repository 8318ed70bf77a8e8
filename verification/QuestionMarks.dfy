/** Question marks in built text. */
module QuestionMarks {
  // When the text that go/vedadb/query_builder.go builds holds one question mark for each parameter, printed for the
  // clause that the parameter was given for.

  import opened QueryTexts
  import opened QueryPlaces

  /** Where a text holds a `?`. */
  function MarkPositions(s: string): seq<nat> {
    if s == "" then []
    else
      var n := |s| - 1;
      MarkPositions(s[..n]) + (if s[n] == '?' then [n] else [])
  }

  lemma {:induction false} PositionsAre(s: string)
    ensures forall i :: i in MarkPositions(s) <==> 0 <= i < |s| && s[i] == '?'
    ensures forall j, k :: 0 <= j < k < |MarkPositions(s)| ==> MarkPositions(s)[j] < MarkPositions(s)[k]
    decreases |s|
  {
    if s != "" {
      PositionsAre(s[..|s| - 1]);
      var before := MarkPositions(s[..|s| - 1]);
      assert forall k :: 0 <= k < |before| ==> before[k] in before;
    }
  }

  predicate Plain(s: string) { '?' !in s }

  predicate PlainPieces(pieces: seq<Piece>) { forall p <- pieces :: p.Text? ==> Plain(p.s) }

  lemma {:induction false} PlainAdds(s: string, t: string)
    requires Plain(t)
    ensures MarkPositions(s + t) == MarkPositions(s)
    decreases |t|
  {
    if t == "" {
      assert s + t == s;
    } else {
      var n := |t| - 1;
      assert (s + t)[..|s + t| - 1] == s + t[..n];
      PlainAdds(s, t[..n]);
    }
  }

  lemma MarkAdds(s: string)
    ensures MarkPositions(s + "?") == MarkPositions(s) + [|s|]
  {
    assert (s + "?")[..|s|] == s;
  }

  /** Where the text of each placeholder starts. */
  function MarkOffsets(pieces: seq<Piece>): seq<nat> {
    if pieces == [] then []
    else
      var n := |pieces| - 1;
      MarkOffsets(pieces[..n]) + (if pieces[n].Mark? then [|Sql(pieces[..n])|] else [])
  }

  /** The k-th `?` of the text is the one printed for the k-th placeholder. */
  lemma {:induction false} MarksAreQuestionMarks(pieces: seq<Piece>)
    requires PlainPieces(pieces)
    ensures MarkPositions(Sql(pieces)) == MarkOffsets(pieces) && |MarkOffsets(pieces)| == |Marks(pieces)|
    decreases |pieces|
  {
    if pieces != [] {
      var n := |pieces| - 1;
      MarksAreQuestionMarks(pieces[..n]);
      if pieces[n].Text? {
        PlainAdds(Sql(pieces[..n]), pieces[n].s);
      } else {
        MarkAdds(Sql(pieces[..n]));
      }
    }
  }

  lemma MarksCountStep(pieces: seq<Piece>)
    requires pieces != []
    ensures
      var before, last := pieces[..|pieces| - 1], pieces[|pieces| - 1];
      && Sql(pieces) == Sql(before) + PieceText(last)
      && |MarkOffsets(pieces)| == |MarkOffsets(before)| + (if last.Mark? then 1 else 0)
      && |Marks(pieces)| == |Marks(before)| + (if last.Mark? then 1 else 0)
      && (PlainPieces(pieces) <==> PlainPieces(before) && (last.Text? ==> Plain(last.s)))
  {
    assert pieces == pieces[..|pieces| - 1] + [pieces[|pieces| - 1]];
  }

  lemma PiecePositions(p: Piece)
    ensures p.Mark? ==> |MarkPositions(PieceText(p))| == 1
    ensures p.Text? ==> (MarkPositions(PieceText(p)) == [] <==> Plain(p.s))
  {
    if p.Mark? {
      MarkAdds("");
      assert "" + "?" == "?";
    } else {
      NoPositionsIff(p.s);
    }
  }

  /** There are at least as many question marks as placeholders, and more if a text holds one. */
  lemma {:induction false} MarksCount(pieces: seq<Piece>)
    ensures |MarkPositions(Sql(pieces))| >= |MarkOffsets(pieces)| == |Marks(pieces)|
    ensures |MarkPositions(Sql(pieces))| == |MarkOffsets(pieces)| ==> PlainPieces(pieces)
    decreases |pieces|
  {
    if pieces == [] {
      assert Sql(pieces) == "";
    } else {
      hide Sql, MarkPositions, MarkOffsets, Marks, PlainPieces;
      var n := |pieces| - 1;
      MarksCount(pieces[..n]);
      MarksCountStep(pieces);
      PositionsAdd(Sql(pieces[..n]), PieceText(pieces[n]));
      PiecePositions(pieces[n]);
    }
  }

  lemma {:induction false} PositionsAdd(s: string, t: string)
    ensures |MarkPositions(s + t)| == |MarkPositions(s)| + |MarkPositions(t)|
    decreases |t|
  {
    if t == "" {
      assert s + t == s;
    } else {
      var n := |t| - 1;
      assert (s + t)[..|s + t| - 1] == s + t[..n];
      PositionsAdd(s, t[..n]);
    }
  }

  lemma NoPositionsIff(s: string)
    ensures MarkPositions(s) == [] <==> Plain(s)
  {
    PositionsAre(s);
    if MarkPositions(s) != [] {
      assert MarkPositions(s)[0] in MarkPositions(s);
    }
  }

  /** The question marks of the text are the placeholders if and only if no other piece holds one. */
  lemma OwnMarksIff(pieces: seq<Piece>)
    ensures MarkPositions(Sql(pieces)) == MarkOffsets(pieces) <==> PlainPieces(pieces)
  {
    MarksCount(pieces);
    if PlainPieces(pieces) {
      MarksAreQuestionMarks(pieces);
    }
  }

  /** No name, operator or text passed by the caller holds a `?`. */
  predicate PlainCall(call: Call) {
    match call
    case DoSet(column, _) => Plain(column)
    case DoValues(_) => true
    case DoWhere(column, operator, _) => Plain(column) && Plain(operator)
    case DoWhereOr(column, operator, _) => Plain(column) && Plain(operator)
    case DoWhereIn(column, _) => Plain(column)
    case DoWhereNull(column) => Plain(column)
    case DoWhereNotNull(column) => Plain(column)
    case DoFrom(table) => Plain(table)
    case DoColumns(columns) => forall c <- columns :: Plain(c)
    case DoJoin(join) => Plain(join.kind) && Plain(join.table) && Plain(join.on)
    case DoOrderBy(order) => Plain(order.column)
    case DoGroupBy(columns) => forall c <- columns :: Plain(c)
    case DoHaving(condition) => Plain(condition)
    case DoLimit(_) => true
    case DoOffset(_) => true
    case DoReturning(columns) => forall c <- columns :: Plain(c)
    case DoUnion(other) => Plain(Sql(Build(other)))
  }

  predicate PlainTexts(xs: seq<string>) { forall x <- xs :: Plain(x) }

  predicate PlainJoin(j: JoinClause) { Plain(j.kind) && Plain(j.table) && Plain(j.on) }

  /** The AND or OR of the first condition is not printed. */
  predicate PlainCondition(i: nat, c: Condition) { Plain(c.column) && Plain(c.operator) && (i > 0 ==> Plain(c.logic)) }

  predicate PlainConditions(wheres: seq<Condition>) { forall i :: 0 <= i < |wheres| ==> PlainCondition(i, wheres[i]) }

  /** No text that the statement prints holds a `?`; what is printed depends on the kind of statement. */
  predicate PlainPrinted(b: Builder) {
    match b.op
    case SelectOp =>
      && Plain(b.table) && PlainTexts(b.columns) && (forall j <- b.joins :: PlainJoin(j)) && PlainConditions(b.wheres)
      && PlainTexts(b.groupBy) && Plain(b.having) && (forall o <- b.orderBy :: Plain(o.column)) && Plain(b.unionSQL)
    case InsertOp => Plain(b.table) && PlainTexts(b.columns) && PlainTexts(b.returning)
    case UpdateOp =>
      Plain(b.table) && (forall c <- b.sets :: Plain(c.column)) && PlainConditions(b.wheres) && PlainTexts(b.returning)
    case DeleteOp => Plain(b.table) && PlainConditions(b.wheres) && PlainTexts(b.returning)
    case NoOp => true
  }

  // ---------- the printed texts, clause by clause ----------

  lemma PlainSum(s: string, t: string)
    ensures Plain(s + t) <==> Plain(s) && Plain(t)
  {}

  lemma PlainSnoc(xs: seq<string>)
    requires xs != []
    ensures PlainTexts(xs) <==> PlainTexts(xs[..|xs| - 1]) && Plain(xs[|xs| - 1])
  {
    assert xs == xs[..|xs| - 1] + [xs[|xs| - 1]];
  }

  lemma {:induction false} PlainJoined(xs: seq<string>)
    ensures Plain(Join(xs, ", ")) <==> PlainTexts(xs)
    decreases |xs|
  {
    if |xs| == 1 {
      assert xs == [xs[0]];
    } else if |xs| > 1 {
      var n := |xs| - 1;
      PlainJoined(xs[..n]);
      PlainSnoc(xs);
      PlainSum(Join(xs[..n], ", "), ", ");
      PlainSum(Join(xs[..n], ", ") + ", ", xs[n]);
    }
  }

  lemma PlainJoinClause(j: JoinClause)
    ensures Plain(JoinClauseText(j)) <==> PlainJoin(j)
  {
    PlainSum(" ", j.kind);
    PlainSum(" " + j.kind, " JOIN ");
    PlainSum(" " + j.kind + " JOIN ", j.table);
    PlainSum(" " + j.kind + " JOIN " + j.table, " ON ");
    PlainSum(" " + j.kind + " JOIN " + j.table + " ON ", j.on);
  }

  lemma {:induction false} PlainJoins(joins: seq<JoinClause>)
    ensures Plain(JoinText(joins)) <==> forall j <- joins :: PlainJoin(j)
    decreases |joins|
  {
    if joins != [] {
      var n := |joins| - 1;
      PlainJoins(joins[..n]);
      PlainJoinClause(joins[n]);
      PlainSum(JoinText(joins[..n]), JoinClauseText(joins[n]));
      assert joins == joins[..n] + [joins[n]];
    }
  }

  lemma PlainAfter(word: string, xs: seq<string>)
    requires Plain(word)
    ensures Plain(if xs == [] then "" else word + Join(xs, ", ")) <==> PlainTexts(xs)
  {
    PlainJoined(xs);
    PlainSum(word, Join(xs, ", "));
  }

  lemma PlainOrders(orders: seq<Order>)
    ensures PlainTexts(OrderList(orders)) <==> forall o <- orders :: Plain(o.column)
  {
    var list := OrderList(orders);
    forall k | 0 <= k < |orders| ensures Plain(list[k]) <==> Plain(orders[k].column) {
      PlainSum(orders[k].column, if orders[k].desc then " DESC" else " ASC");
    }
    if PlainTexts(list) {
      forall o | o in orders ensures Plain(o.column) {
        var k :| 0 <= k < |orders| && orders[k] == o;
        assert list[k] in list;
      }
    }
  }

  lemma PlainBounds(b: Builder)
    ensures Plain(LimitText(b) + OffsetText(b))
  {
    PlainSum(LimitText(b), OffsetText(b));
  }

  lemma PlainClauses(b: Builder)
    ensures Plain(GroupText(b)) <==> PlainTexts(b.groupBy)
    ensures Plain(HavingText(b)) <==> Plain(b.having)
    ensures Plain(OrderText(b)) <==> forall o <- b.orderBy :: Plain(o.column)
    ensures Plain(UnionText(b)) <==> Plain(b.unionSQL)
  {
    PlainAfter(" GROUP BY ", b.groupBy);
    PlainSum(" HAVING ", b.having);
    PlainAfter(" ORDER BY ", OrderList(b.orderBy));
    PlainOrders(b.orderBy);
    PlainSum(" UNION ", b.unionSQL);
  }

  lemma PlainTail(b: Builder)
    ensures
      Plain(SelectTail(b)) <==>
        Plain(GroupText(b)) && Plain(HavingText(b)) && Plain(OrderText(b)) && Plain(UnionText(b))
  {
    PlainBounds(b);
    PlainSum(GroupText(b), HavingText(b));
    PlainSum(GroupText(b) + HavingText(b), OrderText(b));
    PlainSum(GroupText(b) + HavingText(b) + OrderText(b), LimitText(b) + OffsetText(b));
    PlainSum(GroupText(b) + HavingText(b) + OrderText(b) + (LimitText(b) + OffsetText(b)), UnionText(b));
  }

  lemma PlainSelected(columns: seq<string>)
    ensures Plain(if columns == [] then "SELECT *" else "SELECT " + Join(columns, ", ")) <==> PlainTexts(columns)
  {
    PlainJoined(columns);
    PlainSum("SELECT ", Join(columns, ", "));
  }

  lemma PlainHead(b: Builder)
    ensures Plain(SelectHead(b)) <==> PlainTexts(b.columns) && Plain(b.table) && forall j <- b.joins :: PlainJoin(j)
  {
    var start := if b.columns == [] then "SELECT *" else "SELECT " + Join(b.columns, ", ");
    PlainSelected(b.columns);
    PlainJoins(b.joins);
    PlainSum(start, " FROM ");
    PlainSum(start + " FROM ", b.table);
    PlainSum(start + " FROM " + b.table, JoinText(b.joins));
  }

  lemma PlainInsertHead(b: Builder)
    ensures Plain(InsertHead(b)) <==> Plain(b.table) && PlainTexts(b.columns)
  {
    var list := if b.columns == [] then "" else " (" + Join(b.columns, ", ") + ")";
    PlainAfter(" (", b.columns);
    PlainSum(" (" + Join(b.columns, ", "), ")");
    PlainSum("INSERT INTO ", b.table);
    PlainSum("INSERT INTO " + b.table, list);
  }

  lemma PlainReturning(b: Builder)
    ensures Plain(ReturningText(b)) <==> PlainTexts(b.returning)
  {
    PlainAfter(" RETURNING ", b.returning);
  }

  // ---------- the pieces, clause by clause ----------

  lemma PlainConcat(xs: seq<Piece>, ys: seq<Piece>)
    ensures PlainPieces(xs + ys) <==> PlainPieces(xs) && PlainPieces(ys)
  {
  }

  lemma PlainOne(s: string)
    ensures PlainPieces([Text(s)]) <==> Plain(s)
  {
    assert Text(s) in [Text(s)];
  }

  lemma PlainTwo(s: string, place: Place)
    ensures PlainPieces([Text(s), Mark(place)]) <==> Plain(s)
  {
    PlainOne(s);
    PlainConcat([Text(s)], [Mark(place)]);
    assert [Text(s), Mark(place)] == [Text(s)] + [Mark(place)];
  }

  lemma PlainBetween(head: string, middle: seq<Piece>, tail: string)
    ensures PlainPieces([Text(head)] + middle + [Text(tail)]) <==> Plain(head) && PlainPieces(middle) && Plain(tail)
  {
    PlainOne(head);
    PlainOne(tail);
    PlainConcat([Text(head)], middle);
    PlainConcat([Text(head)] + middle, [Text(tail)]);
  }

  lemma {:induction false} PlainMarkList(places: seq<Place>)
    ensures PlainPieces(MarkList(places))
    decreases |places|
  {
    if |places| > 1 {
      PlainMarkList(places[..|places| - 1]);
    }
  }

  lemma PlainOperator(column: string, operator: string, end: string)
    requires Plain(end)
    ensures Plain(column + " " + operator + end) <==> Plain(column) && Plain(operator)
  {
    PlainSum(column, " ");
    PlainSum(column + " ", operator);
    PlainSum(column + " " + operator, end);
  }

  lemma PlainConditionPieces(i: nat, c: Condition)
    ensures PlainPieces(ConditionPieces(i, c)) <==> Plain(c.column) && Plain(c.operator)
  {
    if c.operator == "IN" {
      PlainMarkList(InPlaces(i, InCount(c.value)));
      PlainSum(c.column, " IN (");
      PlainBetween(c.column + " IN (", MarkList(InPlaces(i, InCount(c.value))), ")");
    } else if Ordinary(c.operator) {
      PlainOperator(c.column, c.operator, " ");
      PlainTwo(c.column + " " + c.operator + " ", AtWhere(i));
    } else {
      PlainOperator(c.column, c.operator, "");
      assert c.column + " " + c.operator + "" == c.column + " " + c.operator;
      PlainOne(c.column + " " + c.operator);
    }
  }

  lemma PlainSeparator(i: nat, c: Condition)
    ensures PlainPieces([Separator(i, c)]) <==> i > 0 ==> Plain(c.logic)
  {
    PlainOne(Separator(i, c).s);
    PlainSum(" ", c.logic);
    PlainSum(" " + c.logic, " ");
  }

  lemma PlainConditionsSnoc(wheres: seq<Condition>)
    requires wheres != []
    ensures
      var i := |wheres| - 1;
      PlainConditions(wheres) <==> PlainConditions(wheres[..i]) && PlainCondition(i, wheres[i])
  {
    var i := |wheres| - 1;
    assert forall k :: 0 <= k < i ==> wheres[..i][k] == wheres[k];
  }

  lemma {:induction false} PlainConditionList(wheres: seq<Condition>)
    ensures PlainPieces(ConditionList(wheres)) <==> PlainConditions(wheres)
    decreases |wheres|
  {
    if wheres != [] {
      var i := |wheres| - 1;
      PlainConditionList(wheres[..i]);
      PlainConditionsSnoc(wheres);
      var separator, pieces := Separator(i, wheres[i]), ConditionPieces(i, wheres[i]);
      PlainSeparator(i, wheres[i]);
      PlainConditionPieces(i, wheres[i]);
      PlainConcat([separator], pieces);
      PlainConcat(ConditionList(wheres[..i]), [separator] + pieces);
    }
  }

  lemma PlainWheres(wheres: seq<Condition>)
    ensures PlainPieces(WherePieces(wheres)) <==> PlainConditions(wheres)
  {
    PlainConditionList(wheres);
    PlainOne(" WHERE ");
    PlainConcat([Text(" WHERE ")], ConditionList(wheres));
  }

  lemma PlainAssignment(i: nat, c: SetClause)
    ensures PlainPieces([Text((if i > 0 then ", " else "") + c.column + " = "), Mark(AtSet(i))]) <==> Plain(c.column)
  {
    var separator := if i > 0 then ", " else "";
    PlainSum(separator, c.column);
    PlainSum(separator + c.column, " = ");
    PlainTwo(separator + c.column + " = ", AtSet(i));
  }

  lemma {:induction false} PlainSetList(sets: seq<SetClause>)
    ensures PlainPieces(SetList(sets)) <==> forall c <- sets :: Plain(c.column)
    decreases |sets|
  {
    if sets != [] {
      var i := |sets| - 1;
      PlainSetList(sets[..i]);
      PlainAssignment(i, sets[i]);
      PlainConcat(SetList(sets[..i]), [Text((if i > 0 then ", " else "") + sets[i].column + " = "), Mark(AtSet(i))]);
      assert sets == sets[..i] + [sets[i]];
    }
  }

  lemma PlainSets(sets: seq<SetClause>)
    ensures PlainPieces(SetPieces(sets)) <==> forall c <- sets :: Plain(c.column)
  {
    PlainSetList(sets);
    PlainOne(" SET ");
    PlainConcat([Text(" SET ")], SetList(sets));
  }

  lemma {:induction false} PlainRows(rows: nat, width: nat)
    ensures PlainPieces(RowList(rows, width))
  {
    if rows > 0 {
      PlainRows(rows - 1, width);
      PlainMarkList(RowPlaces(rows - 1, width));
    }
  }

  lemma PlainValues(values: seq<seq<Value>>)
    ensures PlainPieces(ValuePieces(values))
  {
    if values != [] {
      PlainRows(|values|, |values[0]|);
    }
  }

  lemma PlainSelect(b: Builder)
    requires b.op.SelectOp?
    ensures PlainPieces(Build(b)) <==> PlainPrinted(b)
  {
    hide Plain, PlainPieces, PlainTexts, PlainJoin, PlainConditions, WherePieces, SelectHead, SelectTail, GroupText, HavingText,
         OrderText, UnionText;
    PlainWheres(b.wheres);
    PlainHead(b);
    PlainTail(b);
    PlainClauses(b);
    PlainBetween(SelectHead(b), WherePieces(b.wheres), SelectTail(b));
  }

  lemma PlainInsert(b: Builder)
    requires b.op.InsertOp?
    ensures PlainPieces(Build(b)) <==> PlainPrinted(b)
  {
    hide Plain, PlainPieces, PlainTexts, ValuePieces, InsertHead, ReturningText;
    PlainInsertHead(b);
    PlainValues(b.values);
    PlainReturning(b);
    PlainBetween(InsertHead(b), ValuePieces(b.values), ReturningText(b));
  }

  lemma PlainUpdate(b: Builder)
    requires b.op.UpdateOp?
    ensures PlainPieces(Build(b)) <==> PlainPrinted(b)
  {
    PlainWord();
    hide Plain, PlainPieces, PlainTexts, PlainConditions, SetPieces, WherePieces, ReturningText;
    PlainSets(b.sets);
    PlainWheres(b.wheres);
    PlainReturning(b);
    PlainConcat(SetPieces(b.sets), WherePieces(b.wheres));
    PlainSum("UPDATE ", b.table);
    PlainBetween("UPDATE " + b.table, SetPieces(b.sets) + WherePieces(b.wheres), ReturningText(b));
  }

  lemma PlainDelete(b: Builder)
    requires b.op.DeleteOp?
    ensures PlainPieces(Build(b)) <==> PlainPrinted(b)
  {
    PlainWord();
    hide Plain, PlainPieces, PlainTexts, PlainConditions, WherePieces, ReturningText;
    PlainWheres(b.wheres);
    PlainReturning(b);
    PlainSum("DELETE FROM ", b.table);
    PlainBetween("DELETE FROM " + b.table, WherePieces(b.wheres), ReturningText(b));
  }

  lemma PlainWord()
    ensures Plain("UPDATE ") && Plain("DELETE FROM ")
  {}

  /** The pieces of a statement hold no `?` of their own if and only if no text it prints does. */
  lemma PlainBuildIff(b: Builder)
    ensures PlainPieces(Build(b)) <==> PlainPrinted(b)
  {
    hide Build, PlainPrinted;
    match b.op {
      case SelectOp => PlainSelect(b);
      case InsertOp => PlainInsert(b);
      case UpdateOp => PlainUpdate(b);
      case DeleteOp => PlainDelete(b);
      case NoOp => PlainNothing(b);
    }
  }

  lemma PlainNothing(b: Builder)
    requires b.op.NoOp?
    ensures PlainPieces(Build(b)) && PlainPrinted(b)
  {}

  // ---------- when every question mark has its parameter ----------

  /** The k-th `?` of the text, wherever it comes from, was printed for the clause of the k-th parameter, and there
      are equally many. */
  predicate LinesUp(b: Builder) {
    MarkPositions(Sql(Build(b))) == MarkOffsets(Build(b)) && Marks(Build(b)) == b.places
  }

  lemma LinesUpIffPlain(b: Builder)
    ensures LinesUp(b) <==> Aligned(b) && PlainPrinted(b)
  {
    PlainBuildIff(b);
    OwnMarksIff(Build(b));
  }

  /** The main result, for every sequence of calls: the k-th question mark of the text stands for the k-th parameter,
      with equal counts, if and only if the calls fit and no printed text holds a question mark. */
  lemma TextLinesUpIff(op: Operation, table: string, columns: seq<string>, calls: seq<Call>)
    ensures
      var b := Built(op, table, columns, calls);
      LinesUp(b) <==> Fits(op, calls) && PlainPrinted(b)
  {
    PlaceholdersLineUpIff(op, table, columns, calls);
    LinesUpIffPlain(Built(op, table, columns, calls));
  }

  // ---------- UNION ----------

  /** The text of a builder is free of question marks if and only if it prints none, for parameters or otherwise. */
  lemma QuietTextIff(other: Builder)
    ensures Plain(Sql(Build(other))) <==> BuildMarks(other) == [] && PlainPrinted(other)
  {
    BuildMarksAre(other);
    PlainBuildIff(other);
    MarksCount(Build(other));
    NoPositionsIff(Sql(Build(other)));
    if BuildMarks(other) == [] && PlainPrinted(other) {
      MarksAreQuestionMarks(Build(other));
    }
  }

  lemma UnionPrints(b: Builder, other: Builder)
    requires b.op.SelectOp? && PlainPrinted(b)
    ensures PlainPrinted(Apply(b, DoUnion(other))) <==> Plain(Sql(Build(other)))
    ensures BuildMarks(Apply(b, DoUnion(other))) == BuildMarks(b)
  {
    hide Build, Sql, WhereMarks;
  }

  /** UNION keeps question marks and parameters together if and only if the other builder prints no question mark:
      its text is taken over, its parameters are not. */
  lemma UnionKeepsIff(b: Builder, other: Builder)
    requires b.op.SelectOp? && LinesUp(b)
    ensures Apply(b, DoUnion(other)).params == b.params
    ensures LinesUp(Apply(b, DoUnion(other))) <==> BuildMarks(other) == [] && PlainPrinted(other)
  {
    hide Build, Sql, Marks, LinesUp, BuildMarks, PlainPrinted;
    var after := Apply(b, DoUnion(other));
    BuildMarksAre(b);
    BuildMarksAre(after);
    LinesUpIffPlain(b);
    LinesUpIffPlain(after);
    QuietTextIff(other);
    UnionPrints(b, other);
  }

  lemma PositionsBetween(head: string, middle: seq<Piece>, tail: string)
    ensures
      |MarkPositions(Sql([Text(head)] + middle + [Text(tail)]))| ==
        |MarkPositions(head)| + |MarkPositions(Sql(middle))| + |MarkPositions(tail)|
  {
    hide Sql, MarkPositions;
    SqlBetween(head, middle, tail);
    PositionsAdd(head, Sql(middle));
    PositionsAdd(head + Sql(middle), tail);
  }

  lemma UnionTail(b: Builder, other: Builder)
    requires b.unionSQL == ""
    ensures
      |MarkPositions(SelectTail(Apply(b, DoUnion(other))))| ==
        |MarkPositions(SelectTail(b))| + |MarkPositions(Sql(Build(other)))|
  {
    hide Sql, MarkPositions, Build;
    var before := GroupText(b) + HavingText(b) + OrderText(b) + (LimitText(b) + OffsetText(b));
    var text := Sql(Build(other));
    PositionsAdd(before, UnionText(b));
    PositionsAdd(before, if text == "" then "" else " UNION " + text);
    PositionsAdd(" UNION ", text);
    NoPositionsIff("");
    NoPositionsIff(" UNION ");
  }

  lemma UnionHead(b: Builder, other: Builder)
    ensures SelectHead(Apply(b, DoUnion(other))) == SelectHead(b)
  {
    hide Build, Sql;
  }

  /** The first UNION adds the question marks of the other text, and no parameters. */
  lemma UnionAddsMarks(b: Builder, other: Builder)
    requires b.op.SelectOp? && b.unionSQL == ""
    ensures
      |MarkPositions(Sql(Build(Apply(b, DoUnion(other)))))| ==
        |MarkPositions(Sql(Build(b)))| + |MarkPositions(Sql(Build(other)))|
    ensures Apply(b, DoUnion(other)).params == b.params
  {
    hide Sql, MarkPositions, SelectHead, SelectTail, WherePieces;
    var after := Apply(b, DoUnion(other));
    UnionHead(b, other);
    UnionTail(b, other);
    PositionsBetween(SelectHead(b), WherePieces(b.wheres), SelectTail(b));
    PositionsBetween(SelectHead(after), WherePieces(after.wheres), SelectTail(after));
  }

  /** A SELECT with one condition. */
  function OneCondition(table: string, column: string, v: Value): Builder {
    New(SelectOp, table, ["*"]).(
      wheres := [Condition(column, "=", v, "")], params := [v], places := [AtWhere(0)])
  }

  lemma SelectWhere(table: string, column: string, v: Value)
    ensures
      Built(SelectOp, "", ["*"], [DoFrom(table), DoWhere(column, "=", v)]) == OneCondition(table, column, v)
  {
    hide Build, Sql;
    RunTwo(New(SelectOp, "", ["*"]), DoFrom(table), DoWhere(column, "=", v));
  }

  lemma OneConditionMarks(column: string, v: Value)
    ensures WhereMarks([Condition(column, "=", v, "")]) == [AtWhere(0)]
  {
    assert [Condition(column, "=", v, "")][..0] == [];
  }

  lemma OneConditionLinesUp(table: string, column: string, v: Value)
    requires Plain(table) && Plain(column)
    ensures LinesUp(OneCondition(table, column, v))
    ensures BuildMarks(OneCondition(table, column, v)) == [AtWhere(0)]
  {
    hide Build, Sql, LinesUp, WhereMarks, Marks;
    var b := OneCondition(table, column, v);
    OneConditionMarks(column, v);
    BuildMarksAre(b);
    LinesUpIffPlain(b);
  }

  /** Two statements that each line up: in their UNION the second `?` has no parameter. */
  lemma UnionOfTwo(v: Value, w: Value)
    ensures
      var other := OneCondition("b", "y", w);
      var b := Apply(OneCondition("a", "x", v), DoUnion(other));
      LinesUp(other) && !LinesUp(b) && b.params == [v] && |MarkPositions(Sql(Build(b)))| == 2
  {
    hide Build, Sql, BuildMarks, MarkPositions, MarkOffsets, Marks;
    var first, other := OneCondition("a", "x", v), OneCondition("b", "y", w);
    OneConditionLinesUp("a", "x", v);
    OneConditionLinesUp("b", "y", w);
    UnionKeepsIff(first, other);
    UnionAddsMarks(first, other);
    MarksCount(Build(first));
    MarksCount(Build(other));
  }

  /** The same, call by call. */
  lemma UnionDropsParameters(v: Value, w: Value)
    ensures
      var other := Built(SelectOp, "", ["*"], [DoFrom("b"), DoWhere("y", "=", w)]);
      var calls := [DoFrom("a"), DoWhere("x", "=", v), DoUnion(other)];
      var b := Built(SelectOp, "", ["*"], calls);
      LinesUp(other) && Fits(SelectOp, calls) && !LinesUp(b) && b.params == [v] && |MarkPositions(Sql(Build(b)))| == 2
  {
    hide Build, Sql, Run, LinesUp, MarkPositions;
    SelectWhere("b", "y", w);
    SelectWhere("a", "x", v);
    UnionOfTwo(v, w);
    var other := Built(SelectOp, "", ["*"], [DoFrom("b"), DoWhere("y", "=", w)]);
    RunSnoc(New(SelectOp, "", ["*"]), [DoFrom("a"), DoWhere("x", "=", v)], DoUnion(other));
    assert [DoFrom("a"), DoWhere("x", "=", v)] + [DoUnion(other)] == [DoFrom("a"), DoWhere("x", "=", v), DoUnion(other)];
  }

  // ---------- calls without question marks ----------

  predicate PlainBuilder(b: Builder) {
    && Plain(b.table) && Plain(b.having) && Plain(b.unionSQL)
    && PlainTexts(b.columns) && PlainTexts(b.groupBy) && PlainTexts(b.returning)
    && PlainConditions(b.wheres)
    && (forall c <- b.sets :: Plain(c.column))
    && (forall o <- b.orderBy :: Plain(o.column))
    && (forall j <- b.joins :: PlainJoin(j))
  }

  lemma WhereKeepsPlain(b: Builder, call: Call)
    requires PlainBuilder(b) && PlainCall(call) && IsWhereCall(call)
    ensures PlainBuilder(Apply(b, call))
  {
    var wheres := Apply(b, call).wheres;
    assert wheres == b.wheres + [wheres[|b.wheres|]];
    assert PlainCondition(|b.wheres|, wheres[|b.wheres|]);
  }

  lemma ApplyKeepsPlain(b: Builder, call: Call)
    requires PlainBuilder(b) && PlainCall(call)
    ensures PlainBuilder(Apply(b, call))
  {
    if IsWhereCall(call) {
      WhereKeepsPlain(b, call);
    }
  }

  lemma {:induction false} RunPlain(op: Operation, table: string, columns: seq<string>, calls: seq<Call>)
    requires Plain(table) && (forall c <- columns :: Plain(c)) && forall c <- calls :: PlainCall(c)
    ensures PlainBuilder(Built(op, table, columns, calls))
    decreases |calls|
  {
    if calls != [] {
      var n := |calls| - 1;
      RunPlain(op, table, columns, calls[..n]);
      ApplyKeepsPlain(Built(op, table, columns, calls[..n]), calls[n]);
    }
  }

  /** For fitting calls without a `?` in any name, the text holds as many question marks as there are
      parameters, and the k-th of them was printed for the clause that holds the k-th parameter. */
  lemma EachMarkHasItsParameter(op: Operation, table: string, columns: seq<string>, calls: seq<Call>)
    requires Fits(op, calls)
    requires Plain(table) && (forall c <- columns :: Plain(c)) && forall c <- calls :: PlainCall(c)
    ensures var b := Built(op, table, columns, calls);
            && MarkPositions(Sql(Build(b))) == MarkOffsets(Build(b))
            && |MarkOffsets(Build(b))| == |Marks(Build(b))| == |b.params|
            && forall k :: 0 <= k < |b.params| ==> StandsAt(b, Marks(Build(b))[k], b.params[k])
  {
    var b := Built(op, table, columns, calls);
    PlaceholdersLineUpIff(op, table, columns, calls);
    RunParamsStand(op, table, columns, calls);
    RunPlain(op, table, columns, calls);
    TextLinesUpIff(op, table, columns, calls);
    MarksCount(Build(b));
  }
}
