/** The query builder of go/vedadb/query_builder.go: when does the k-th `?` of the built text stand for the
    k-th parameter? The text is built of pieces, so that every `?` remembers the clause it stands for. */
module QueryTexts {
  import opened SqlText

  /** A Go value: only slices are told apart from the rest. */
  datatype Value = Atom(id: int) | Slice(items: seq<Value>)

  datatype Condition = Condition(column: string, operator: string, value: Value, logic: string)
  datatype SetClause = SetClause(column: string, value: Value)
  datatype Order = Order(column: string, desc: bool)
  datatype JoinClause = JoinClause(kind: string, table: string, on: string)
  datatype Operation = SelectOp | InsertOp | UpdateOp | DeleteOp | NoOp

  /** The clause, and the position in it, that a parameter was given for or a `?` stands for. */
  datatype Place = AtSet(i: nat) | AtWhere(i: nat) | AtIn(i: nat, item: nat) | AtRow(row: nat, item: nat)

  datatype Piece = Text(s: string) | Mark(place: Place)

  /** The fields of the builder, and the places of its parameters. */
  datatype Builder = Builder(
    op: Operation,
    table: string,
    columns: seq<string>,
    wheres: seq<Condition>,
    sets: seq<SetClause>,
    values: seq<seq<Value>>,
    orderBy: seq<Order>,
    groupBy: seq<string>,
    limitVal: int,
    offsetVal: int,
    having: string,
    joins: seq<JoinClause>,
    returning: seq<string>,
    unionSQL: string,
    params: seq<Value>,
    places: seq<Place>)

  function New(op: Operation, table: string, columns: seq<string>): Builder {
    Builder(op, table, columns, [], [], [], [], [], 0, 0, "", [], [], "", [], [])
  }

  datatype Call =
    | DoSet(column: string, value: Value)
    | DoValues(vals: seq<Value>)
    | DoWhere(column: string, operator: string, value: Value)
    | DoWhereOr(column: string, operator: string, value: Value)
    | DoWhereIn(column: string, vals: seq<Value>)
    | DoWhereNull(column: string)
    | DoWhereNotNull(column: string)
    | DoFrom(table: string)
    | DoColumns(columns: seq<string>)
    | DoJoin(join: JoinClause)
    | DoOrderBy(order: Order)
    | DoGroupBy(columns: seq<string>)
    | DoHaving(condition: string)
    | DoLimit(n: int)
    | DoOffset(n: int)
    | DoReturning(columns: seq<string>)
    | DoUnion(other: Builder)

  function Logic(b: Builder): string { if b.wheres == [] then "" else "AND" }

  function InPlaces(i: nat, n: nat): (r: seq<Place>)
    ensures |r| == n && forall k :: 0 <= k < n ==> r[k] == AtIn(i, k)
  {
    seq(n, k requires 0 <= k < n => AtIn(i, k))
  }

  function RowPlaces(row: nat, n: nat): (r: seq<Place>)
    ensures |r| == n && forall k :: 0 <= k < n ==> r[k] == AtRow(row, k)
  {
    seq(n, k requires 0 <= k < n => AtRow(row, k))
  }

  function AddCondition(b: Builder, c: Condition, params: seq<Value>, places: seq<Place>): Builder {
    b.(wheres := b.wheres + [c], params := b.params + params, places := b.places + places)
  }

  function Apply(b: Builder, call: Call): Builder {
    var i := |b.wheres|;
    match call
    case DoSet(column, value) =>
      b.(sets := b.sets + [SetClause(column, value)], params := b.params + [value], places := b.places + [AtSet(|b.sets|)])
    case DoValues(vals) =>
      b.(values := b.values + [vals], params := b.params + vals, places := b.places + RowPlaces(|b.values|, |vals|))
    case DoWhere(column, operator, value) =>
      AddCondition(b, Condition(column, operator, value, Logic(b)), [value], [AtWhere(i)])
    case DoWhereOr(column, operator, value) =>
      AddCondition(b, Condition(column, operator, value, "OR"), [value], [AtWhere(i)])
    case DoWhereIn(column, vals) =>
      AddCondition(b, Condition(column, "IN", Slice(vals), Logic(b)), vals, InPlaces(i, |vals|))
    case DoWhereNull(column) => AddCondition(b, Condition(column, "IS NULL", Atom(0), Logic(b)), [], [])
    case DoWhereNotNull(column) => AddCondition(b, Condition(column, "IS NOT NULL", Atom(0), Logic(b)), [], [])
    case DoFrom(table) => b.(table := table)
    case DoColumns(columns) => b.(columns := columns)
    case DoJoin(join) => b.(joins := b.joins + [join])
    case DoOrderBy(order) => b.(orderBy := b.orderBy + [order])
    case DoGroupBy(columns) => b.(groupBy := b.groupBy + columns)
    case DoHaving(condition) => b.(having := condition)
    case DoLimit(n) => b.(limitVal := n)
    case DoOffset(n) => b.(offsetVal := n)
    case DoReturning(columns) => b.(returning := columns)
    case DoUnion(other) => b.(unionSQL := Sql(Build(other)))
  }

  function Run(b: Builder, calls: seq<Call>): Builder {
    if calls == [] then b else Apply(Run(b, calls[..|calls| - 1]), calls[|calls| - 1])
  }

  lemma RunSnoc(b: Builder, before: seq<Call>, call: Call)
    ensures Run(b, before + [call]) == Apply(Run(b, before), call)
  {
    assert (before + [call])[..|before|] == before;
  }

  // ---------- building ----------

  function Join(xs: seq<string>, sep: string): string {
    if xs == [] then "" else if |xs| == 1 then xs[0] else Join(xs[..|xs| - 1], sep) + sep + xs[|xs| - 1]
  }

  /** Marks separated by commas. */
  function MarkList(places: seq<Place>): seq<Piece> {
    if places == [] then []
    else if |places| == 1 then [Mark(places[0])]
    else MarkList(places[..|places| - 1]) + [Text(", "), Mark(places[|places| - 1])]
  }

  function InCount(v: Value): nat { if v.Slice? then |v.items| else 0 }

  /** An operator that is printed with one `?` behind it. */
  predicate Ordinary(operator: string) { operator != "IN" && operator != "IS NULL" && operator != "IS NOT NULL" }

  function ConditionPieces(i: nat, c: Condition): seq<Piece> {
    if c.operator == "IN" then [Text(c.column + " IN (")] + MarkList(InPlaces(i, InCount(c.value))) + [Text(")")]
    else if c.operator == "IS NULL" || c.operator == "IS NOT NULL" then [Text(c.column + " " + c.operator)]
    else [Text(c.column + " " + c.operator + " "), Mark(AtWhere(i))]
  }

  function Separator(i: nat, c: Condition): Piece { Text(if i > 0 then " " + c.logic + " " else "") }

  function ConditionList(wheres: seq<Condition>): seq<Piece> {
    if wheres == [] then []
    else
      var i := |wheres| - 1;
      ConditionList(wheres[..i]) + ([Separator(i, wheres[i])] + ConditionPieces(i, wheres[i]))
  }

  function WherePieces(wheres: seq<Condition>): seq<Piece> {
    if wheres == [] then [] else [Text(" WHERE ")] + ConditionList(wheres)
  }

  function SetList(sets: seq<SetClause>): seq<Piece> {
    if sets == [] then []
    else
      var i := |sets| - 1;
      SetList(sets[..i]) + [Text((if i > 0 then ", " else "") + sets[i].column + " = "), Mark(AtSet(i))]
  }

  function SetPieces(sets: seq<SetClause>): seq<Piece> {
    if sets == [] then [] else [Text(" SET ")] + SetList(sets)
  }

  /** Every row is printed with as many marks as the first one has values. */
  function RowList(rows: nat, width: nat): seq<Piece> {
    if rows == 0 then []
    else
      RowList(rows - 1, width) + ([Text(if rows > 1 then ", (" else "(")] + MarkList(RowPlaces(rows - 1, width)) + [Text(")")])
  }

  function ValuePieces(values: seq<seq<Value>>): seq<Piece> {
    if values == [] then [] else [Text(" VALUES ")] + RowList(|values|, |values[0]|)
  }

  function JoinClauseText(j: JoinClause): string {
    " " + j.kind + " JOIN " + j.table + " ON " + j.on
  }

  function JoinText(joins: seq<JoinClause>): string {
    if joins == [] then "" else JoinText(joins[..|joins| - 1]) + JoinClauseText(joins[|joins| - 1])
  }

  function OrderList(orders: seq<Order>): seq<string> {
    seq(|orders|, i requires 0 <= i < |orders| => orders[i].column + (if orders[i].desc then " DESC" else " ASC"))
  }

  function ReturningText(b: Builder): string {
    if b.returning == [] then "" else " RETURNING " + Join(b.returning, ", ")
  }

  function SelectHead(b: Builder): string {
    (if b.columns == [] then "SELECT *" else "SELECT " + Join(b.columns, ", ")) + " FROM " + b.table + JoinText(b.joins)
  }

  function GroupText(b: Builder): string { if b.groupBy == [] then "" else " GROUP BY " + Join(b.groupBy, ", ") }

  function HavingText(b: Builder): string { if b.having == "" then "" else " HAVING " + b.having }

  function OrderText(b: Builder): string { if b.orderBy == [] then "" else " ORDER BY " + Join(OrderList(b.orderBy), ", ") }

  function LimitText(b: Builder): string { if b.limitVal > 0 then " LIMIT " + ShowInt(b.limitVal) else "" }

  function OffsetText(b: Builder): string { if b.offsetVal > 0 then " OFFSET " + ShowInt(b.offsetVal) else "" }

  function UnionText(b: Builder): string { if b.unionSQL == "" then "" else " UNION " + b.unionSQL }

  function SelectTail(b: Builder): string {
    GroupText(b) + HavingText(b) + OrderText(b) + (LimitText(b) + OffsetText(b)) + UnionText(b)
  }

  function InsertHead(b: Builder): string {
    "INSERT INTO " + b.table + (if b.columns == [] then "" else " (" + Join(b.columns, ", ") + ")")
  }

  function Build(b: Builder): seq<Piece> {
    match b.op
    case SelectOp => [Text(SelectHead(b))] + WherePieces(b.wheres) + [Text(SelectTail(b))]
    case InsertOp => [Text(InsertHead(b))] + ValuePieces(b.values) + [Text(ReturningText(b))]
    case UpdateOp => [Text("UPDATE " + b.table)] + (SetPieces(b.sets) + WherePieces(b.wheres)) + [Text(ReturningText(b))]
    case DeleteOp => [Text("DELETE FROM " + b.table)] + WherePieces(b.wheres) + [Text(ReturningText(b))]
    case NoOp => []
  }

  function PieceText(p: Piece): string { if p.Text? then p.s else "?" }

  /** The string that `Build` returns. */
  function Sql(pieces: seq<Piece>): string {
    if pieces == [] then "" else Sql(pieces[..|pieces| - 1]) + PieceText(pieces[|pieces| - 1])
  }

  /** The places of the question marks, in order. */
  function Marks(pieces: seq<Piece>): seq<Place> {
    if pieces == [] then []
    else
      var before := Marks(pieces[..|pieces| - 1]);
      match pieces[|pieces| - 1]
      case Text(_) => before
      case Mark(place) => before + [place]
  }

  lemma {:induction false} MarksAppend(xs: seq<Piece>, ys: seq<Piece>)
    ensures Marks(xs + ys) == Marks(xs) + Marks(ys)
    decreases |ys|
  {
    if ys == [] {
      assert xs + ys == xs;
    } else {
      var n := |ys| - 1;
      MarksAppend(xs, ys[..n]);
      assert (xs + ys)[..|xs + ys| - 1] == xs + ys[..n];
    }
  }

  lemma SqlSnoc(pieces: seq<Piece>, last: Piece)
    ensures Sql(pieces + [last]) == Sql(pieces) + PieceText(last)
  {
    assert (pieces + [last])[..|pieces|] == pieces;
  }

  lemma Regrouped(a: string, b: string, c: string)
    ensures (a + b) + c == a + (b + c)
  {
  }

  lemma {:induction false} SqlAppend(xs: seq<Piece>, ys: seq<Piece>)
    ensures Sql(xs + ys) == Sql(xs) + Sql(ys)
    decreases |ys|
  {
    if ys == [] {
      assert xs + ys == xs;
    } else {
      var n := |ys| - 1;
      SqlAppend(xs, ys[..n]);
      LastPiece(xs, ys);
      SqlSnoc(xs + ys[..n], ys[n]);
      Regrouped(Sql(xs), Sql(ys[..n]), PieceText(ys[n]));
    }
  }

  lemma LastPiece(xs: seq<Piece>, ys: seq<Piece>)
    requires ys != []
    ensures xs + ys == (xs + ys[..|ys| - 1]) + [ys[|ys| - 1]]
  {}

  lemma SqlOne(piece: Piece)
    ensures Sql([piece]) == PieceText(piece)
  {
    assert [piece][..0] == [];
  }

  lemma SqlTwo(first: Piece, second: Piece)
    ensures Sql([first, second]) == Sql([first]) + Sql([second])
  {
    SqlAppend([first], [second]);
    assert [first] + [second] == [first, second];
  }

  lemma SqlBetween(head: string, middle: seq<Piece>, tail: string)
    ensures Sql([Text(head)] + middle + [Text(tail)]) == head + Sql(middle) + tail
  {
    SqlOne(Text(head));
    SqlOne(Text(tail));
    SqlAppend([Text(head)], middle);
    SqlAppend([Text(head)] + middle, [Text(tail)]);
  }

  // ---------- the places of the marks, clause by clause ----------

  function ConditionMarks(i: nat, c: Condition): seq<Place> {
    if c.operator == "IN" then InPlaces(i, InCount(c.value)) else if Ordinary(c.operator) then [AtWhere(i)] else []
  }

  function WhereMarks(wheres: seq<Condition>): seq<Place> {
    if wheres == [] then []
    else
      var i := |wheres| - 1;
      WhereMarks(wheres[..i]) + ConditionMarks(i, wheres[i])
  }

  function SetMarks(n: nat): (r: seq<Place>)
    ensures |r| == n && forall k :: 0 <= k < n ==> r[k] == AtSet(k)
  {
    seq(n, k requires 0 <= k < n => AtSet(k))
  }

  function RowMarks(rows: nat, width: nat): seq<Place> {
    if rows == 0 then [] else RowMarks(rows - 1, width) + RowPlaces(rows - 1, width)
  }

  function BuildMarks(b: Builder): seq<Place> {
    match b.op
    case SelectOp => WhereMarks(b.wheres)
    case DeleteOp => WhereMarks(b.wheres)
    case UpdateOp => SetMarks(|b.sets|) + WhereMarks(b.wheres)
    case InsertOp => if b.values == [] then [] else RowMarks(|b.values|, |b.values[0]|)
    case NoOp => []
  }

  lemma MarksOne(piece: Piece)
    ensures Marks([piece]) == if piece.Mark? then [piece.place] else []
  {
    assert [piece][..0] == [];
  }

  lemma {:induction false} MarkListMarks(places: seq<Place>)
    ensures Marks(MarkList(places)) == places
    decreases |places|
  {
    if |places| == 1 {
      MarksOne(Mark(places[0]));
    } else if |places| > 1 {
      var n := |places| - 1;
      MarkListMarks(places[..n]);
      var tail := [Text(", "), Mark(places[n])];
      assert tail[..1] == [Text(", ")];
      MarksOne(tail[0]);
      MarksAppend(MarkList(places[..n]), tail);
    }
  }

  lemma ConditionPiecesMarks(i: nat, c: Condition)
    ensures Marks(ConditionPieces(i, c)) == ConditionMarks(i, c)
  {
    if c.operator == "IN" {
      var marks := MarkList(InPlaces(i, InCount(c.value)));
      var head := [Text(c.column + " IN (")];
      MarkListMarks(InPlaces(i, InCount(c.value)));
      MarksOne(head[0]);
      MarksOne(Text(")"));
      MarksAppend(head, marks);
      MarksAppend(head + marks, [Text(")")]);
    } else if Ordinary(c.operator) {
      var pieces := ConditionPieces(i, c);
      assert pieces[..1] == [pieces[0]];
      MarksOne(pieces[0]);
    } else {
      MarksOne(ConditionPieces(i, c)[0]);
    }
  }

  lemma {:induction false} ConditionListMarks(wheres: seq<Condition>)
    ensures Marks(ConditionList(wheres)) == WhereMarks(wheres)
    decreases |wheres|
  {
    if wheres != [] {
      var i := |wheres| - 1;
      ConditionListMarks(wheres[..i]);
      ConditionTailMarks(i, wheres[i]);
      MarksAppend(ConditionList(wheres[..i]), [Separator(i, wheres[i])] + ConditionPieces(i, wheres[i]));
    }
  }

  lemma ConditionTailMarks(i: nat, c: Condition)
    ensures Marks([Separator(i, c)] + ConditionPieces(i, c)) == Marks(ConditionPieces(i, c))
    ensures Marks(ConditionPieces(i, c)) == ConditionMarks(i, c)
  {
    MarksOne(Separator(i, c));
    ConditionPiecesMarks(i, c);
    MarksAppend([Separator(i, c)], ConditionPieces(i, c));
  }

  lemma WherePiecesMarks(wheres: seq<Condition>)
    ensures Marks(WherePieces(wheres)) == WhereMarks(wheres)
  {
    ConditionListMarks(wheres);
    MarksOne(Text(" WHERE "));
    MarksAppend([Text(" WHERE ")], ConditionList(wheres));
  }

  lemma {:induction false} SetListMarks(sets: seq<SetClause>)
    ensures Marks(SetList(sets)) == SetMarks(|sets|)
    decreases |sets|
  {
    if sets != [] {
      var i := |sets| - 1;
      SetListMarks(sets[..i]);
      var tail := [Text((if i > 0 then ", " else "") + sets[i].column + " = "), Mark(AtSet(i))];
      assert tail[..1] == [tail[0]];
      MarksOne(tail[0]);
      MarksAppend(SetList(sets[..i]), tail);
    }
  }

  lemma SetPiecesMarks(sets: seq<SetClause>)
    ensures Marks(SetPieces(sets)) == SetMarks(|sets|)
  {
    SetListMarks(sets);
    MarksOne(Text(" SET "));
    MarksAppend([Text(" SET ")], SetList(sets));
  }

  lemma MarksBetween(head: string, middle: seq<Piece>, tail: string)
    ensures Marks([Text(head)] + middle + [Text(tail)]) == Marks(middle)
  {
    MarksOne(Text(head));
    MarksOne(Text(tail));
    MarksAppend([Text(head)], middle);
    MarksAppend([Text(head)] + middle, [Text(tail)]);
  }

  lemma {:induction false} RowListMarks(rows: nat, width: nat)
    ensures Marks(RowList(rows, width)) == RowMarks(rows, width)
  {
    if rows > 0 {
      RowListMarks(rows - 1, width);
      var start, marks := if rows > 1 then ", (" else "(", MarkList(RowPlaces(rows - 1, width));
      MarkListMarks(RowPlaces(rows - 1, width));
      MarksBetween(start, marks, ")");
      MarksAppend(RowList(rows - 1, width), [Text(start)] + marks + [Text(")")]);
    }
  }

  lemma ValuePiecesMarks(values: seq<seq<Value>>)
    ensures Marks(ValuePieces(values)) == if values == [] then [] else RowMarks(|values|, |values[0]|)
  {
    if values != [] {
      RowListMarks(|values|, |values[0]|);
      MarksOne(Text(" VALUES "));
      MarksAppend([Text(" VALUES ")], RowList(|values|, |values[0]|));
    }
  }

  lemma MarksBetweenTwo(head: string, xs: seq<Piece>, ys: seq<Piece>, tail: string)
    ensures Marks([Text(head)] + (xs + ys) + [Text(tail)]) == Marks(xs) + Marks(ys)
  {
    MarksAppend(xs, ys);
    MarksBetween(head, xs + ys, tail);
  }

  lemma BuildMarksAre(b: Builder)
    ensures Marks(Build(b)) == BuildMarks(b)
  {
    WherePiecesMarks(b.wheres);
    match b.op {
      case SelectOp => MarksBetween(SelectHead(b), WherePieces(b.wheres), SelectTail(b));
      case DeleteOp => MarksBetween("DELETE FROM " + b.table, WherePieces(b.wheres), ReturningText(b));
      case UpdateOp =>
        SetPiecesMarks(b.sets);
        MarksBetweenTwo("UPDATE " + b.table, SetPieces(b.sets), WherePieces(b.wheres), ReturningText(b));
      case InsertOp =>
        ValuePiecesMarks(b.values);
        MarksBetween(InsertHead(b), ValuePieces(b.values), ReturningText(b));
      case NoOp =>
    }
  }
}
