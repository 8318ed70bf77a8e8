/** Statements as called. */
module QueryCalls {
  // What a caller of go/vedadb/query_builder.go asks for, call by call, and that the text of `Build` says just that.

  import opened QueryTexts
  import opened QueryPlaces
  import opened QueryReadings
  import opened QueryStatements
  import opened SqlReading
  import opened SqlPhrases

  // ---------- what is asked for ----------

  /** The condition that a call asks for, if it does. */
  function Asked(call: Call): seq<Clause> {
    match call
    case DoWhere(column, operator, value) => [Clause(And, column, TestOf(operator, value))]
    case DoWhereOr(column, operator, value) => [Clause(Or, column, TestOf(operator, value))]
    case DoWhereIn(column, vals) => [Clause(And, column, InList(|vals|))]
    case DoWhereNull(column) => [Clause(And, column, IsNull)]
    case DoWhereNotNull(column) => [Clause(And, column, IsNotNull)]
    case _ => []
  }

  function AllAsked(calls: seq<Call>): seq<Clause> {
    if calls == [] then [] else AllAsked(calls[..|calls| - 1]) + Asked(calls[|calls| - 1])
  }

  /** The conditions asked for; the first one has nothing to be joined to. */
  function Conditions(calls: seq<Call>): seq<Clause> { WithoutFirstConnective(AllAsked(calls)) }

  function WithoutFirstConnective(all: seq<Clause>): seq<Clause> {
    if all == [] then [] else [all[0].(connective := And)] + all[1..]
  }

  function Assigned(calls: seq<Call>): seq<string> {
    if calls == [] then []
    else
      var before, last := Assigned(calls[..|calls| - 1]), calls[|calls| - 1];
      if last.DoSet? then before + [last.column] else before
  }

  function Rows(calls: seq<Call>): seq<nat> {
    if calls == [] then []
    else
      var before, last := Rows(calls[..|calls| - 1]), calls[|calls| - 1];
      if last.DoValues? then before + [|last.vals|] else before
  }

  function Orders(calls: seq<Call>): seq<OrderTerm> {
    if calls == [] then []
    else
      var before, last := Orders(calls[..|calls| - 1]), calls[|calls| - 1];
      if last.DoOrderBy? then before + [OrderTerm(last.order.column, last.order.desc)] else before
  }

  function Groups(calls: seq<Call>): seq<string> {
    if calls == [] then []
    else
      var before, last := Groups(calls[..|calls| - 1]), calls[|calls| - 1];
      if last.DoGroupBy? then before + last.columns else before
  }

  function Joined(calls: seq<Call>): seq<JoinTerm> {
    if calls == [] then []
    else
      var before, last := Joined(calls[..|calls| - 1]), calls[|calls| - 1];
      if last.DoJoin? then before + [JoinTerm(last.join.kind, last.join.table, Lex(last.join.on))] else before
  }

  /** Of these calls the last one counts. */
  function Table(first: string, calls: seq<Call>): string {
    if calls == [] then first
    else
      var last := calls[|calls| - 1];
      if last.DoFrom? then last.table else Table(first, calls[..|calls| - 1])
  }

  function ColumnsOf(first: seq<string>, calls: seq<Call>): seq<string> {
    if calls == [] then first
    else
      var last := calls[|calls| - 1];
      if last.DoColumns? then last.columns else ColumnsOf(first, calls[..|calls| - 1])
  }

  function Having(calls: seq<Call>): string {
    if calls == [] then ""
    else
      var last := calls[|calls| - 1];
      if last.DoHaving? then last.condition else Having(calls[..|calls| - 1])
  }

  function Limit(calls: seq<Call>): int {
    if calls == [] then 0
    else
      var last := calls[|calls| - 1];
      if last.DoLimit? then last.n else Limit(calls[..|calls| - 1])
  }

  function Offset(calls: seq<Call>): int {
    if calls == [] then 0
    else
      var last := calls[|calls| - 1];
      if last.DoOffset? then last.n else Offset(calls[..|calls| - 1])
  }

  function Returned(calls: seq<Call>): seq<string> {
    if calls == [] then []
    else
      var last := calls[|calls| - 1];
      if last.DoReturning? then last.columns else Returned(calls[..|calls| - 1])
  }

  function United(calls: seq<Call>): string {
    if calls == [] then ""
    else
      var last := calls[|calls| - 1];
      if last.DoUnion? then Sql(Build(last.other)) else United(calls[..|calls| - 1])
  }

  /** The statement asked for. A limit that is not positive is none, and all rows get as many values as the first. */
  function Wanted(op: Operation, table: string, columns: seq<string>, calls: seq<Call>): Statement
    requires op != NoOp
  {
    match op
    case SelectOp =>
      var selected := ColumnsOf(columns, calls);
      Select(if selected == [] then ["*"] else selected, Table(table, calls), Joined(calls), Conditions(calls), Groups(calls),
             Lex(Having(calls)), Orders(calls), Positive(Limit(calls)), Positive(Offset(calls)), Lex(United(calls)))
    case InsertOp =>
      var rows := Rows(calls);
      Insert(Table(table, calls), ColumnsOf(columns, calls), if rows == [] then [] else Widths(|rows|, rows[0]), Returned(calls))
    case UpdateOp => Update(Table(table, calls), Assigned(calls), Conditions(calls), Returned(calls))
    case DeleteOp => Delete(Table(table, calls), Conditions(calls), Returned(calls))
  }

  // ---------- the fields of the builder ----------

  /** The names that the call passes are words, and its expressions hold no word that begins a clause. */
  predicate NamedCall(call: Call) {
    match call
    case DoSet(column, _) => IsName(column)
    case DoWhere(column, operator, _) => IsName(column) && IsOperator(operator)
    case DoWhereOr(column, operator, _) => IsName(column) && IsOperator(operator)
    case DoWhereIn(column, _) => IsName(column)
    case DoWhereNull(column) => IsName(column)
    case DoWhereNotNull(column) => IsName(column)
    case DoFrom(table) => IsName(table)
    case DoColumns(columns) => AllNames(columns)
    case DoJoin(join) => NamedJoins([join])
    case DoOrderBy(order) => IsName(order.column)
    case DoGroupBy(columns) => AllNames(columns)
    case DoHaving(condition) => IsPhrase(Lex(condition))
    case DoReturning(columns) => AllNames(columns)
    case _ => true
  }

  /** The fields are what the calls ask for. */
  ghost predicate Lists(b: Builder, table: string, columns: seq<string>, calls: seq<Call>) {
    && b.table == Table(table, calls) && b.columns == ColumnsOf(columns, calls)
    && SetColumns(b.sets) == Assigned(calls) && b.groupBy == Groups(calls) && b.having == Having(calls)
    && b.limitVal == Limit(calls) && b.offsetVal == Offset(calls) && b.returning == Returned(calls)
    && b.unionSQL == United(calls)
  }

  ghost predicate ListsMore(b: Builder, calls: seq<Call>) {
    && Clauses(b.wheres) == Conditions(calls) && OrderTerms(b.orderBy) == Orders(calls) && JoinTerms(b.joins) == Joined(calls)
    && |b.values| == |Rows(calls)| && (b.values != [] ==> |b.values[0]| == Rows(calls)[0])
    && |b.wheres| == |AllAsked(calls)|
  }

  ghost predicate WellFormed(b: Builder) {
    && (forall i :: 0 < i < |b.wheres| ==> b.wheres[i].logic == "AND" || b.wheres[i].logic == "OR")
  }

  lemma CallsSnoc(calls: seq<Call>, last: Call)
    ensures (calls + [last])[..|calls + [last]| - 1] == calls && (calls + [last])[|calls + [last]| - 1] == last
  {}

  lemma SetColumnsSnoc(sets: seq<SetClause>, c: SetClause)
    ensures SetColumns(sets + [c]) == SetColumns(sets) + [c.column]
  {}

  lemma ListsStep(b: Builder, table: string, columns: seq<string>, calls: seq<Call>, call: Call)
    requires Lists(b, table, columns, calls)
    ensures Lists(Apply(b, call), table, columns, calls + [call])
  {
    CallsSnoc(calls, call);
    if call.DoSet? {
      SetColumnsSnoc(b.sets, SetClause(call.column, call.value));
    }
    hide Build, Sql;
  }

  lemma FirstSnoc(all: seq<Clause>, c: Clause)
    ensures
      WithoutFirstConnective(all + [c]) ==
        WithoutFirstConnective(all) + [if all == [] then c.(connective := And) else c]
    ensures |WithoutFirstConnective(all)| == |all|
  {
    if all != [] {
      assert (all + [c])[1..] == all[1..] + [c];
    }
  }

  lemma AllAskedSnoc(calls: seq<Call>, call: Call)
    ensures AllAsked(calls + [call]) == AllAsked(calls) + Asked(call)
  {
    hide Asked;
    CallsSnoc(calls, call);
  }

  lemma ConditionsMore(calls: seq<Call>, call: Call, c: Clause)
    requires Asked(call) == [c]
    ensures
      Conditions(calls + [call]) == Conditions(calls) + [if AllAsked(calls) == [] then c.(connective := And) else c]
    ensures |AllAsked(calls + [call])| == |AllAsked(calls)| + 1 && |Conditions(calls)| == |AllAsked(calls)|
  {
    hide Asked, AllAsked, WithoutFirstConnective;
    AllAskedSnoc(calls, call);
    FirstSnoc(AllAsked(calls), c);
  }

  lemma ConditionsSame(calls: seq<Call>, call: Call)
    requires !IsWhereCall(call)
    ensures Conditions(calls + [call]) == Conditions(calls) && AllAsked(calls + [call]) == AllAsked(calls)
  {
    hide AllAsked, WithoutFirstConnective;
    AllAskedSnoc(calls, call);
    assert Asked(call) == [] && AllAsked(calls) + [] == AllAsked(calls);
  }

  lemma AskedOnce(call: Call)
    requires IsWhereCall(call)
    ensures |Asked(call)| == 1 && Asked(call) == [Asked(call)[0]]
  {}

  lemma ClausesAdd(wheres: seq<Condition>, c: Condition)
    ensures Clauses(wheres + [c]) == Clauses(wheres) + [ClauseOf(|wheres|, c)]
  {}

  /** The condition that a call adds is the one it asks for. */
  lemma ConditionAdded(b: Builder, call: Call)
    requires IsWhereCall(call)
    ensures
      var after := Apply(b, call);
      && |after.wheres| == |b.wheres| + 1 && after.wheres[..|b.wheres|] == b.wheres && Asked(call) != []
      && ClauseOf(|b.wheres|, after.wheres[|b.wheres|]) ==
           (if b.wheres == [] then Asked(call)[0].(connective := And) else Asked(call)[0])
      && (b.wheres != [] ==> after.wheres[|b.wheres|].logic == "AND" || after.wheres[|b.wheres|].logic == "OR")
  {
    hide Build, Sql;
  }

  ghost predicate ListsWheres(b: Builder, calls: seq<Call>) {
    Clauses(b.wheres) == Conditions(calls) && |b.wheres| == |AllAsked(calls)| && WellFormed(b)
  }

  lemma WheresSnoc(wheres: seq<Condition>, c: Condition, calls: seq<Call>, call: Call, asked: Clause)
    requires Clauses(wheres) == Conditions(calls) && |wheres| == |AllAsked(calls)| && Asked(call) == [asked]
    requires ClauseOf(|wheres|, c) == if wheres == [] then asked.(connective := And) else asked
    ensures Clauses(wheres + [c]) == Conditions(calls + [call]) && |wheres + [c]| == |AllAsked(calls + [call])|
  {
    hide Conditions, AllAsked, Asked, Clauses, ClauseOf;
    ConditionsMore(calls, call, asked);
    ClausesAdd(wheres, c);
  }

  lemma WheresStep(b: Builder, calls: seq<Call>, call: Call)
    requires ListsWheres(b, calls) && IsWhereCall(call)
    ensures ListsWheres(Apply(b, call), calls + [call])
  {
    var wheres := Apply(b, call).wheres;
    AskedOnce(call);
    ConditionAdded(b, call);
    hide Apply, AllAsked, Asked, Conditions, Clauses, ClauseOf;
    assert wheres == b.wheres + [wheres[|b.wheres|]];
    WheresSnoc(b.wheres, wheres[|b.wheres|], calls, call, Asked(call)[0]);
  }

  lemma NoWheresStep(b: Builder, calls: seq<Call>, call: Call)
    requires ListsWheres(b, calls) && !IsWhereCall(call)
    ensures ListsWheres(Apply(b, call), calls + [call])
  {
    ConditionsSame(calls, call);
    OtherCallsKeepWheres(b, call);
    hide AllAsked, Conditions, Clauses, Apply;
  }

  lemma ListsMoreStep(b: Builder, calls: seq<Call>, call: Call)
    requires ListsMore(b, calls) && WellFormed(b)
    ensures ListsMore(Apply(b, call), calls + [call]) && WellFormed(Apply(b, call))
  {
    if IsWhereCall(call) { WheresStep(b, calls, call); } else { NoWheresStep(b, calls, call); }
    ValuesStep(b, calls, call);
    TermsStep(b, calls, call);
    hide Clauses, Conditions, AllAsked, OrderTerms, Orders, JoinTerms, Joined, Rows, Apply, WellFormed;
    assert ListsWheres(Apply(b, call), calls + [call]);
  }

  lemma ValuesStep(b: Builder, calls: seq<Call>, call: Call)
    requires |b.values| == |Rows(calls)| && (b.values != [] ==> |b.values[0]| == Rows(calls)[0])
    ensures
      var values, rows := Apply(b, call).values, Rows(calls + [call]);
      |values| == |rows| && (values != [] ==> |values[0]| == rows[0])
  {
    CallsSnoc(calls, call);
    hide Build, Sql;
  }

  lemma TermsStep(b: Builder, calls: seq<Call>, call: Call)
    requires OrderTerms(b.orderBy) == Orders(calls) && JoinTerms(b.joins) == Joined(calls)
    ensures OrderTerms(Apply(b, call).orderBy) == Orders(calls + [call]) && JoinTerms(Apply(b, call).joins) == Joined(calls + [call])
  {
    CallsSnoc(calls, call);
    hide Build, Sql, Lex;
    if call.DoOrderBy? {
      assert OrderTerms(b.orderBy + [call.order]) == OrderTerms(b.orderBy) + [OrderTerm(call.order.column, call.order.desc)];
    } else if call.DoJoin? {
      var j := call.join;
      assert JoinTerms(b.joins + [j]) == JoinTerms(b.joins) + [JoinTerm(j.kind, j.table, Lex(j.on))];
    }
  }

  lemma ListsAtFirst(op: Operation, table: string, columns: seq<string>)
    ensures
      var b := Built(op, table, columns, []);
      Lists(b, table, columns, []) && ListsMore(b, []) && WellFormed(b)
  {
    hide Lex, Build, Sql;
  }

  lemma {:induction false} BuiltLists(op: Operation, table: string, columns: seq<string>, calls: seq<Call>)
    ensures
      var b := Built(op, table, columns, calls);
      Lists(b, table, columns, calls) && ListsMore(b, calls) && WellFormed(b)
    decreases |calls|
  {
    hide Lists, ListsMore, WellFormed, Run, New, Apply;
    if |calls| == 0 {
      ListsAtFirst(op, table, columns);
      assert calls == [];
    } else {
      var before, last := calls[..|calls| - 1], calls[|calls| - 1];
      assert calls == before + [last];
      BuiltLists(op, table, columns, before);
      RunSnoc(New(op, table, columns), before, last);
      ListsStep(Built(op, table, columns, before), table, columns, before, last);
      ListsMoreStep(Built(op, table, columns, before), before, last);
    }
  }

  // ---------- the main result ----------

  /** All names but that of the table. */
  ghost predicate NamedElse(b: Builder) { NamedBuilder(b.(table := "t")) }

  lemma NamedWheres(wheres: seq<Condition>, c: Condition)
    requires NamedConditions(wheres) && IsName(c.column) && IsOperator(c.operator)
    requires wheres != [] ==> c.logic == "AND" || c.logic == "OR"
    ensures NamedConditions(wheres + [c])
  {}

  lemma NamedWhereCall(b: Builder, call: Call)
    requires NamedCall(call) && IsWhereCall(call)
    ensures var c := Apply(b, call).wheres[|b.wheres|]; IsName(c.column) && IsOperator(c.operator)
  {
    hide Build, Sql;
  }

  lemma NamedWhereStep(b: Builder, call: Call)
    requires NamedElse(b) && NamedCall(call) && IsWhereCall(call)
    ensures NamedElse(Apply(b, call))
  {
    var wheres := Apply(b, call).wheres;
    ConditionAdded(b, call);
    NamedWhereCall(b, call);
    WhereFrame(b, call);
    hide Apply, NamedConditions, Lex, Clauses, ClauseOf, Asked, NamedJoins, NamedOrders, AllNames, SetColumns, IsPhrase;
    assert wheres == b.wheres + [wheres[|b.wheres|]];
    NamedWheres(b.wheres, wheres[|b.wheres|]);
  }

  lemma WhereFrame(b: Builder, call: Call)
    requires IsWhereCall(call)
    ensures Apply(b, call).(wheres := [], params := [], places := []) == b.(wheres := [], params := [], places := [])
  {
    hide Build, Sql;
  }

  lemma NamedOtherStep(b: Builder, call: Call)
    requires NamedElse(b) && NamedCall(call) && !IsWhereCall(call)
    ensures NamedElse(Apply(b, call))
  {
    hide Build, Sql, Lex, NamedConditions, IsPhrase;
    if call.DoSet? {
      SetColumnsSnoc(b.sets, SetClause(call.column, call.value));
    }
  }

  lemma NamedStep(b: Builder, call: Call)
    requires NamedElse(b) && NamedCall(call)
    ensures NamedElse(Apply(b, call))
  {
    hide NamedElse, NamedCall, Apply;
    if IsWhereCall(call) { NamedWhereStep(b, call); } else { NamedOtherStep(b, call); }
  }

  lemma NamedAtFirst(op: Operation, table: string, columns: seq<string>)
    requires AllNames(columns)
    ensures NamedElse(Built(op, table, columns, []))
  {
    LexEmpty();
  }

  lemma {:induction false} NamedCalls(op: Operation, table: string, columns: seq<string>, calls: seq<Call>)
    requires AllNames(columns) && forall i :: 0 <= i < |calls| ==> NamedCall(calls[i])
    ensures NamedElse(Built(op, table, columns, calls))
    decreases |calls|
  {
    hide NamedElse, NamedCall, Run, New, Apply, AllNames;
    if |calls| == 0 {
      NamedAtFirst(op, table, columns);
      assert calls == [];
    } else {
      var before, last := calls[..|calls| - 1], calls[|calls| - 1];
      assert calls == before + [last];
      NamedCalls(op, table, columns, before);
      RunSnoc(New(op, table, columns), before, last);
      NamedStep(Built(op, table, columns, before), last);
    }
  }

  lemma WrittenIsWanted(op: Operation, table: string, columns: seq<string>, calls: seq<Call>)
    requires op != NoOp
    ensures Built(op, table, columns, calls).op == op
    ensures Written(Built(op, table, columns, calls)) == Wanted(op, table, columns, calls)
  {
    var b := Built(op, table, columns, calls);
    RunKeepsOp(New(op, table, columns), calls);
    BuiltLists(op, table, columns, calls);
    hide Run, Lex, Clauses, Conditions, OrderTerms, Orders, JoinTerms, Joined, Rows, SetColumns, Assigned, Groups, Table, ColumnsOf,
         Having, Limit, Offset, Returned, United, AllAsked;
  }

  /** For every kind of statement and every sequence of calls whose names are words: the text of `Build`, read as SQL, is
      the statement that was called for, with its tables and columns, its conditions in order, joined by AND or OR as
      called, its orders and their directions, its bounds, and the rest. */
  lemma ReadsAsCalled(op: Operation, table: string, columns: seq<string>, calls: seq<Call>)
    requires op != NoOp && AllNames(columns) && IsName(Table(table, calls))
    requires forall i :: 0 <= i < |calls| ==> NamedCall(calls[i])
    ensures
      ReadStatement(Sql(Build(Built(op, table, columns, calls)))) == Reads(Wanted(op, table, columns, calls), [])
  {
    var b := Built(op, table, columns, calls);
    NamedCalls(op, table, columns, calls);
    BuiltLists(op, table, columns, calls);
    WrittenIsWanted(op, table, columns, calls);
    hide Run, New, Written, Wanted, Build, Sql, ReadStatement, Lex, NamedConditions, NamedJoins, IsPhrase;
    BuildReads(b);
  }
}
