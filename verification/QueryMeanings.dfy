/** Which rows a built statement takes. */
module QueryMeanings {
  // The conditions of a statement that go/vedadb/query_builder.go builds, evaluated on a row with the parameters of
  // `Params`, as SQL does: AND binds closer than OR.

  import opened QueryTexts
  import opened QueryPlaces
  import opened QueryReadings
  import opened QueryCalls
  import opened SqlReading
  import opened Wrappers

  // ---------- conditions of a WHERE clause ----------

  /** A maximal group of conditions that are joined by AND. */
  predicate IsGroup(cs: seq<Clause>, i: int, j: int) {
    && 0 <= i < j <= |cs|
    && (i == 0 || cs[i].connective == Or) && (j == |cs| || cs[j].connective == Or)
    && forall k :: i < k < j ==> cs[k].connective == And
  }

  predicate AllTrue(truths: seq<bool>, i: int, j: int)
    requires 0 <= i <= j <= |truths|
  {
    forall k :: i <= k < j ==> truths[k]
  }

  /** A row is taken when all conditions of some group hold, or when there are no conditions. */
  ghost predicate Takes(cs: seq<Clause>, truths: seq<bool>)
    requires |truths| == |cs|
  {
    cs == [] || exists i, j :: IsGroup(cs, i, j) && AllTrue(truths, i, j)
  }

  /** The same conditions, joined one after the other as the calls come. */
  function InOrder(cs: seq<Clause>, truths: seq<bool>): bool
    requires |truths| == |cs|
    decreases |cs|
  {
    if cs == [] then true
    else
      var n := |cs| - 1;
      if n == 0 then truths[0]
      else if cs[n].connective == And then InOrder(cs[..n], truths[..n]) && truths[n]
      else InOrder(cs[..n], truths[..n]) || truths[n]
  }

  /** A condition joined by AND after one joined by OR. */
  predicate AndAfterOr(cs: seq<Clause>, i: int, j: int) {
    0 < i < j < |cs| && cs[i].connective == Or && cs[j].connective == And
  }

  ghost predicate NoAndAfterOr(cs: seq<Clause>) { forall i, j :: !AndAfterOr(cs, i, j) }

  /** Where the group of the last condition begins. */
  function LastGroup(cs: seq<Clause>): (i: nat)
    requires cs != []
    ensures IsGroup(cs, i, |cs|)
    decreases |cs|
  {
    var n := |cs| - 1;
    if n == 0 || cs[n].connective == Or then n
    else
      var i := LastGroup(cs[..n]);
      assert forall k :: i < k < n ==> cs[k] == cs[..n][k];
      assert cs[i] == cs[..n][i];
      i
  }

  /** Without the last condition, if it is joined by OR, the other groups remain. */
  lemma GroupsWithoutLast(cs: seq<Clause>, truths: seq<bool>)
    requires |cs| == |truths| > 1 && cs[|cs| - 1].connective == Or
    ensures var n := |cs| - 1; Takes(cs, truths) <==> Takes(cs[..n], truths[..n]) || truths[n]
  {
    var n := |cs| - 1;
    if Takes(cs[..n], truths[..n]) {
      var i, j :| IsGroup(cs[..n], i, j) && AllTrue(truths[..n], i, j);
      GroupGrows(cs, i, j);
      assert AllTrue(truths, i, j);
    }
    if truths[n] {
      assert IsGroup(cs, n, n + 1) && AllTrue(truths, n, n + 1);
    }
    if Takes(cs, truths) && !truths[n] {
      var i, j :| IsGroup(cs, i, j) && AllTrue(truths, i, j);
      GroupShrinks(cs, i, j);
      assert AllTrue(truths[..n], i, j);
    }
  }

  lemma GroupGrows(cs: seq<Clause>, i: int, j: int)
    requires |cs| > 1 && cs[|cs| - 1].connective == Or && IsGroup(cs[..|cs| - 1], i, j)
    ensures IsGroup(cs, i, j)
  {
    assert forall k :: 0 <= k < |cs| - 1 ==> cs[..|cs| - 1][k] == cs[k];
  }

  lemma GroupShrinks(cs: seq<Clause>, i: int, j: int)
    requires |cs| > 1 && cs[|cs| - 1].connective == Or && IsGroup(cs, i, j) && !(i <= |cs| - 1 < j)
    ensures IsGroup(cs[..|cs| - 1], i, j)
  {
    assert forall k :: 0 <= k < |cs| - 1 ==> cs[..|cs| - 1][k] == cs[k];
  }

  /** Conditions joined by AND alone. */
  predicate AllAnd(cs: seq<Clause>) { forall k :: 0 < k < |cs| ==> cs[k].connective == And }

  lemma OneGroup(cs: seq<Clause>, truths: seq<bool>)
    requires |cs| == |truths| > 0 && AllAnd(cs)
    ensures Takes(cs, truths) <==> AllTrue(truths, 0, |truths|)
  {
    if Takes(cs, truths) {
      var i, j :| IsGroup(cs, i, j) && AllTrue(truths, i, j);
      assert i == 0 && j == |cs|;
    }
    assert IsGroup(cs, 0, |cs|);
  }

  lemma {:induction false} AllAndInOrder(cs: seq<Clause>, truths: seq<bool>)
    requires |cs| == |truths| > 0 && AllAnd(cs)
    ensures InOrder(cs, truths) <==> AllTrue(truths, 0, |truths|)
    decreases |cs|
  {
    var n := |cs| - 1;
    if n > 0 {
      AllAndInOrder(cs[..n], truths[..n]);
      assert forall k :: 0 <= k < n ==> truths[..n][k] == truths[k];
    }
  }

  lemma StillAndAfterOr(cs: seq<Clause>, i: int, j: int)
    requires cs != []
    ensures AndAfterOr(cs[..|cs| - 1], i, j) ==> AndAfterOr(cs, i, j)
  {}

  lemma OrsAtTheEnd(cs: seq<Clause>)
    requires |cs| > 1 && NoAndAfterOr(cs)
    ensures NoAndAfterOr(cs[..|cs| - 1]) && (cs[|cs| - 1].connective == And ==> AllAnd(cs))
  {
    var n := |cs| - 1;
    forall i, j ensures !AndAfterOr(cs[..n], i, j) {
      StillAndAfterOr(cs, i, j);
    }
    if cs[n].connective == And {
      forall k | 0 < k < |cs| ensures cs[k].connective == And {
        assert !AndAfterOr(cs, k, n);
      }
    }
  }

  lemma {:induction false} InOrderIsTaken(cs: seq<Clause>, truths: seq<bool>)
    requires |cs| == |truths| && NoAndAfterOr(cs)
    ensures Takes(cs, truths) == InOrder(cs, truths)
    decreases |cs|
  {
    var n := |cs| - 1;
    if |cs| == 1 {
      OneGroup(cs, truths);
    } else if |cs| > 1 {
      OrsAtTheEnd(cs);
      if cs[n].connective == And {
        OneGroup(cs, truths);
        AllAndInOrder(cs, truths);
      } else {
        GroupsWithoutLast(cs, truths);
        InOrderIsTaken(cs[..n], truths[..n]);
      }
    }
  }

  /** The first condition joined by OR. */
  lemma {:induction false} FirstOr(cs: seq<Clause>, n: nat) returns (i: nat)
    requires 0 < n < |cs| && cs[n].connective == Or
    ensures 0 < i <= n && cs[i].connective == Or && IsGroup(cs, 0, i)
    decreases n
  {
    if k :| 0 < k < n && cs[k].connective == Or {
      i := FirstOr(cs, k);
    } else {
      i := n;
    }
  }

  /** Everything before the condition `j` holds, and nothing from there on. */
  function Until(n: nat, j: nat): (truths: seq<bool>)
    ensures |truths| == n && forall k :: 0 <= k < n ==> (truths[k] <==> k < j)
  {
    seq(n, k requires 0 <= k < n => k < j)
  }

  lemma {:induction false} FalseFromThere(cs: seq<Clause>, truths: seq<bool>, j: nat)
    requires 0 < j < |cs| == |truths| && cs[j].connective == And && forall k :: j <= k < |cs| ==> !truths[k]
    ensures !InOrder(cs, truths)
    decreases |cs|
  {
    var n := |cs| - 1;
    if j < n {
      FalseFromThere(cs[..n], truths[..n], j);
    }
  }

  lemma OrderMatters(cs: seq<Clause>, i: nat, j: nat) returns (truths: seq<bool>)
    requires AndAfterOr(cs, i, j)
    ensures |truths| == |cs| && Takes(cs, truths) && !InOrder(cs, truths)
  {
    truths := Until(|cs|, j);
    var first := FirstOr(cs, i);
    assert AllTrue(truths, 0, first);
    FalseFromThere(cs, truths, j);
  }

  /** SQL takes the rows that the calls suggest when read from left to right, whatever the conditions are, if and only if
      no condition joined by AND comes after one joined by OR. */
  lemma LeftToRightIff(cs: seq<Clause>)
    ensures (forall truths: seq<bool> | |truths| == |cs| :: Takes(cs, truths) == InOrder(cs, truths)) <==> NoAndAfterOr(cs)
  {
    if NoAndAfterOr(cs) {
      forall truths: seq<bool> | |truths| == |cs| ensures Takes(cs, truths) == InOrder(cs, truths) {
        InOrderIsTaken(cs, truths);
      }
    } else {
      var i, j :| AndAfterOr(cs, i, j);
      var truths := OrderMatters(cs, i, j);
    }
  }

  // ---------- rows ----------

  /** A row: no value is NULL. */
  type Row = string -> Option<Value>

  /** How an operator compares the value of a column with a parameter. */
  type Comparison = (string, Value, Value) -> bool

  function MarkCount(test: Test): nat {
    match test
    case Compare(_) => 1
    case InList(count) => count
    case _ => 0
  }

  function MarksIn(cs: seq<Clause>): nat {
    if cs == [] then 0 else MarksIn(cs[..|cs| - 1]) + MarkCount(cs[|cs| - 1].test)
  }

  /** The condition holds for the row, with the parameters that its question marks stand for. */
  predicate Holds(cmp: Comparison, row: Row, c: Clause, params: seq<Value>)
    requires |params| == MarkCount(c.test)
  {
    match c.test
    case Compare(operator) => row(c.column).Some? && cmp(operator, row(c.column).value, params[0])
    case InList(_) => row(c.column).Some? && exists k :: 0 <= k < |params| && cmp("=", row(c.column).value, params[k])
    case IsNull => row(c.column).None?
    case IsNotNull => row(c.column).Some?
  }

  /** Which of the conditions hold; the parameters are used up in order. */
  function Truths(cmp: Comparison, row: Row, cs: seq<Clause>, params: seq<Value>): (r: seq<bool>)
    requires |params| == MarksIn(cs)
    ensures |r| == |cs|
    decreases |cs|
  {
    if cs == [] then []
    else
      var n := |cs| - 1;
      var k := MarksIn(cs[..n]);
      Truths(cmp, row, cs[..n], params[..k]) + [Holds(cmp, row, cs[n], params[k..])]
  }

  // ---------- what the calls mean ----------

  /** The condition of the call holds for the row, with the values given in the call. */
  function Meant(cmp: Comparison, row: Row, call: Call): seq<bool> {
    match call
    case DoWhere(column, operator, value) => [row(column).Some? && cmp(operator, row(column).value, value)]
    case DoWhereOr(column, operator, value) => [row(column).Some? && cmp(operator, row(column).value, value)]
    case DoWhereIn(column, vals) => [row(column).Some? && exists k :: 0 <= k < |vals| && cmp("=", row(column).value, vals[k])]
    case DoWhereNull(column) => [row(column).None?]
    case DoWhereNotNull(column) => [row(column).Some?]
    case _ => []
  }

  function AllMeant(cmp: Comparison, row: Row, calls: seq<Call>): seq<bool> {
    if calls == [] then [] else AllMeant(cmp, row, calls[..|calls| - 1]) + Meant(cmp, row, calls[|calls| - 1])
  }

  /** The parameters of the conditions, and those of the assignments. */
  function WhereValues(calls: seq<Call>): seq<Value> {
    if calls == [] then []
    else
      var before, last := WhereValues(calls[..|calls| - 1]), calls[|calls| - 1];
      match last
      case DoWhere(_, _, value) => before + [value]
      case DoWhereOr(_, _, value) => before + [value]
      case DoWhereIn(_, vals) => before + vals
      case _ => before
  }

  function SetValues(calls: seq<Call>): seq<Value> {
    if calls == [] then []
    else
      var before, last := SetValues(calls[..|calls| - 1]), calls[|calls| - 1];
      if last.DoSet? then before + [last.value] else before
  }

  predicate AllOrdinary(calls: seq<Call>) { forall i :: 0 <= i < |calls| ==> OrdinaryCall(calls[i]) }

  lemma OneMeant(cmp: Comparison, row: Row, call: Call, c: Clause, vals: seq<Value>)
    requires OrdinaryCall(call) && Asked(call) == [c]
    requires vals == match call
                     case DoWhere(_, _, value) => [value]
                     case DoWhereOr(_, _, value) => [value]
                     case DoWhereIn(_, values) => values
                     case _ => []
    ensures |vals| == MarkCount(c.test) && Meant(cmp, row, call) == [Holds(cmp, row, c, vals)]
    ensures |vals| == MarkCount(c.(connective := And).test) && Meant(cmp, row, call) == [Holds(cmp, row, c.(connective := And), vals)]
  {}

  lemma TruthsSnoc(cmp: Comparison, row: Row, cs: seq<Clause>, c: Clause, params: seq<Value>, vals: seq<Value>)
    requires |params| == MarksIn(cs) && |vals| == MarkCount(c.test)
    ensures |params + vals| == MarksIn(cs + [c])
    ensures Truths(cmp, row, cs + [c], params + vals) == Truths(cmp, row, cs, params) + [Holds(cmp, row, c, vals)]
  {
    hide Holds, MarkCount;
    assert (cs + [c])[..|cs|] == cs && (params + vals)[..|params|] == params && (params + vals)[|params|..] == vals;
  }

  /** What a call adds to the parameters of the conditions. */
  function ValuesOf(call: Call): seq<Value> {
    match call
    case DoWhere(_, _, value) => [value]
    case DoWhereOr(_, _, value) => [value]
    case DoWhereIn(_, vals) => vals
    case _ => []
  }

  lemma WhereValuesSnoc(calls: seq<Call>, last: Call)
    ensures WhereValues(calls + [last]) == WhereValues(calls) + ValuesOf(last)
  {
    CallsSnoc(calls, last);
  }

  lemma AllMeantSnoc(cmp: Comparison, row: Row, calls: seq<Call>, last: Call)
    ensures AllMeant(cmp, row, calls + [last]) == AllMeant(cmp, row, calls) + Meant(cmp, row, last)
  {
    hide Meant;
    CallsSnoc(calls, last);
  }

  lemma NothingMeant(cmp: Comparison, row: Row)
    ensures Conditions([]) == [] && WhereValues([]) == [] && MarksIn([]) == 0 && AllMeant(cmp, row, []) == []
    ensures Truths(cmp, row, [], []) == []
  {}

  lemma OtherMeansNothing(cmp: Comparison, row: Row, call: Call)
    requires !IsWhereCall(call)
    ensures Meant(cmp, row, call) == [] && ValuesOf(call) == []
  {}

  lemma MeantStep(cmp: Comparison, row: Row, before: seq<Call>, last: Call)
    requires OrdinaryCall(last)
    requires |WhereValues(before)| == MarksIn(Conditions(before))
    requires Truths(cmp, row, Conditions(before), WhereValues(before)) == AllMeant(cmp, row, before)
    ensures |WhereValues(before + [last])| == MarksIn(Conditions(before + [last]))
    ensures Truths(cmp, row, Conditions(before + [last]), WhereValues(before + [last])) == AllMeant(cmp, row, before + [last])
  {
    WhereValuesSnoc(before, last);
    AllMeantSnoc(cmp, row, before, last);
    if IsWhereCall(last) {
      AskedOnce(last);
      var asked := Asked(last)[0];
      OneMeant(cmp, row, last, asked, ValuesOf(last));
      hide Asked, Conditions, WhereValues, AllMeant, Truths, MarksIn, Meant, Holds, ValuesOf, AllAsked;
      ConditionsMore(before, last, asked);
      var c := if AllAsked(before) == [] then asked.(connective := And) else asked;
      TruthsSnoc(cmp, row, Conditions(before), c, WhereValues(before), ValuesOf(last));
    } else {
      OtherMeansNothing(cmp, row, last);
      hide Asked, Conditions, WhereValues, AllMeant, Truths, MarksIn, Meant, Holds, ValuesOf, AllAsked;
      ConditionsSame(before, last);
      assert WhereValues(before) + [] == WhereValues(before) && AllMeant(cmp, row, before) + [] == AllMeant(cmp, row, before);
    }
  }

  lemma {:induction false} ConditionsMean(cmp: Comparison, row: Row, calls: seq<Call>)
    requires AllOrdinary(calls)
    ensures |WhereValues(calls)| == MarksIn(Conditions(calls))
    ensures Truths(cmp, row, Conditions(calls), WhereValues(calls)) == AllMeant(cmp, row, calls)
    decreases |calls|
  {
    NothingMeant(cmp, row);
    hide Conditions, WhereValues, AllMeant, Truths, MarksIn;
    if |calls| == 0 {
      assert calls == [];
    } else {
      var before, last := calls[..|calls| - 1], calls[|calls| - 1];
      assert calls == before + [last];
      ConditionsMean(cmp, row, before);
      MeantStep(cmp, row, before, last);
    }
  }

  // ---------- the parameters ----------

  predicate SetsFirst(calls: seq<Call>) {
    && (forall i :: 0 <= i < |calls| ==> (calls[i].DoValues? ==> calls[i].vals == []))
    && (forall i, j :: 0 <= i < j < |calls| && calls[j].DoSet? ==> ValuesOf(calls[i]) == [])
  }

  lemma SetValuesSnoc(calls: seq<Call>, last: Call)
    ensures SetValues(calls + [last]) == SetValues(calls) + (if last.DoSet? then [last.value] else [])
  {
    CallsSnoc(calls, last);
  }

  lemma ParamsAdded(b: Builder, call: Call)
    requires call.DoValues? ==> call.vals == []
    ensures Apply(b, call).params == b.params + (if call.DoSet? then [call.value] else ValuesOf(call))
  {
    hide Build, Sql;
  }

  lemma {:induction false} NoValues(calls: seq<Call>)
    requires forall i :: 0 <= i < |calls| ==> ValuesOf(calls[i]) == []
    ensures WhereValues(calls) == []
    decreases |calls|
  {
    if calls != [] {
      var before, last := calls[..|calls| - 1], calls[|calls| - 1];
      assert calls == before + [last];
      NoValues(before);
      WhereValuesSnoc(before, last);
    }
  }

  lemma ParamsStep(b: Builder, before: seq<Call>, last: Call)
    requires b.params == SetValues(before) + WhereValues(before)
    requires last.DoValues? ==> last.vals == []
    requires last.DoSet? ==> WhereValues(before) == []
    ensures Apply(b, last).params == SetValues(before + [last]) + WhereValues(before + [last])
  {
    ParamsAdded(b, last);
    SetValuesSnoc(before, last);
    WhereValuesSnoc(before, last);
    assert last.DoSet? ==> ValuesOf(last) == [];
    hide Apply, SetValues, WhereValues, ValuesOf;
  }

  /** The parameters of an UPDATE that fits: those of the assignments, then those of the conditions. */
  lemma {:induction false} ParamsAre(op: Operation, table: string, columns: seq<string>, calls: seq<Call>)
    requires SetsFirst(calls)
    ensures Built(op, table, columns, calls).params == SetValues(calls) + WhereValues(calls)
    decreases |calls|
  {
    if |calls| == 0 {
      assert calls == [];
    } else {
      var before, last := calls[..|calls| - 1], calls[|calls| - 1];
      assert calls == before + [last];
      if last.DoSet? {
        NoValues(before);
      }
      hide Run, New, Apply, SetValues, WhereValues, ValuesOf;
      ParamsAre(op, table, columns, before);
      RunSnoc(New(op, table, columns), before, last);
      ParamsStep(Built(op, table, columns, before), before, last);
    }
  }

  lemma {:induction false} SetValuesCount(calls: seq<Call>)
    ensures |SetValues(calls)| == |Assigned(calls)|
    ensures (forall i :: 0 <= i < |calls| ==> !calls[i].DoSet?) ==> SetValues(calls) == []
    decreases |calls|
  {
    if calls != [] {
      SetValuesCount(calls[..|calls| - 1]);
    }
  }

  lemma FittingCalls(op: Operation, calls: seq<Call>)
    requires op == SelectOp || op == UpdateOp || op == DeleteOp
    requires Fits(op, calls)
    ensures SetsFirst(calls) && AllOrdinary(calls)
    ensures op != UpdateOp ==> forall i :: 0 <= i < |calls| ==> !calls[i].DoSet?
  {
    forall i | 0 <= i < |calls| ensures calls[i] in calls {}
  }

  // ---------- the main result ----------

  /** The conditions of a statement, and the parameters that its assignments take first. */
  function WheresOf(s: Statement): seq<Clause> { if s.Insert? then [] else s.wheres }

  function SetsOf(s: Statement): nat { if s.Update? then |s.sets| else 0 }

  lemma WantedWheres(op: Operation, table: string, columns: seq<string>, calls: seq<Call>)
    requires op == SelectOp || op == UpdateOp || op == DeleteOp
    ensures
      var s := Wanted(op, table, columns, calls);
      WheresOf(s) == Conditions(calls) && SetsOf(s) == (if op == UpdateOp then |Assigned(calls)| else 0)
  {
    hide Conditions, Assigned, Lex, Having, United, Orders, Joined, Groups, Table, ColumnsOf, Limit, Offset, Returned;
  }

  /** For every SELECT, UPDATE or DELETE whose calls fit and whose names are words, and for every row: the text of `Build`,
      read as SQL and evaluated with `Params`, takes the row exactly if the conditions of the calls do, each with the value
      given in its call, AND binding closer than OR. */
  lemma TakesAsCalled(op: Operation, table: string, columns: seq<string>, calls: seq<Call>, cmp: Comparison, row: Row)
    requires op == SelectOp || op == UpdateOp || op == DeleteOp
    requires Fits(op, calls) && AllNames(columns) && IsName(Table(table, calls))
    requires forall i :: 0 <= i < |calls| ==> NamedCall(calls[i])
    ensures
      var b, read := Built(op, table, columns, calls), ReadStatement(Sql(Build(Built(op, table, columns, calls))));
      && read.Reads? && read.rest == [] && WheresOf(read.value) == Conditions(calls)
      && |b.params| == SetsOf(read.value) + MarksIn(WheresOf(read.value)) && |AllMeant(cmp, row, calls)| == |Conditions(calls)|
      && Takes(WheresOf(read.value), Truths(cmp, row, WheresOf(read.value), b.params[SetsOf(read.value)..]))
         == Takes(Conditions(calls), AllMeant(cmp, row, calls))
  {
    FittingCalls(op, calls);
    ReadsAsCalled(op, table, columns, calls);
    WantedWheres(op, table, columns, calls);
    ParamsAre(op, table, columns, calls);
    SetValuesCount(calls);
    ConditionsMean(cmp, row, calls);
    hide Run, New, Build, Sql, ReadStatement, Wanted, Conditions, AllMeant, Truths, SetValues, WhereValues, Assigned, MarksIn, Takes,
         WheresOf, SetsOf, NamedCall, Fits, Table;
    var params := Built(op, table, columns, calls).params;
    assert (SetValues(calls) + WhereValues(calls))[|SetValues(calls)|..] == WhereValues(calls);
  }

  /** Without WhereOr a row is taken exactly if all conditions hold for it. */
  lemma AllConditionsHold(cmp: Comparison, row: Row, calls: seq<Call>)
    requires AllOrdinary(calls) && forall i :: 0 <= i < |calls| ==> !calls[i].DoWhereOr?
    ensures
      && |AllMeant(cmp, row, calls)| == |Conditions(calls)|
      && (Takes(Conditions(calls), AllMeant(cmp, row, calls)) <==>
            forall i :: 0 <= i < |calls| ==> Every(Meant(cmp, row, calls[i])))
  {
    ConditionsMean(cmp, row, calls);
    AllAreAnd(calls);
    MeantAll(cmp, row, calls);
    hide Conditions, AllMeant, Meant, Truths, MarksIn;
    if Conditions(calls) != [] {
      hide Takes;
      OneGroup(Conditions(calls), AllMeant(cmp, row, calls));
    }
  }

  lemma {:induction false} AllAskedAnd(calls: seq<Call>)
    requires forall i :: 0 <= i < |calls| ==> !calls[i].DoWhereOr?
    ensures forall c <- AllAsked(calls) :: c.connective == And
    decreases |calls|
  {
    if calls != [] {
      AllAskedAnd(calls[..|calls| - 1]);
    }
  }

  lemma AllAreAnd(calls: seq<Call>)
    requires forall i :: 0 <= i < |calls| ==> !calls[i].DoWhereOr?
    ensures AllAnd(Conditions(calls))
  {
    AllAskedAnd(calls);
    hide AllAsked;
  }

  predicate Every(truths: seq<bool>) { forall t :: t in truths ==> t }

  lemma AllTrueIsEvery(truths: seq<bool>)
    ensures AllTrue(truths, 0, |truths|) <==> Every(truths)
  {
    if Every(truths) {
      forall k | 0 <= k < |truths| ensures truths[k] {
        assert truths[k] in truths;
      }
    }
  }

  lemma EveryAppend(a: seq<bool>, b: seq<bool>)
    ensures Every(a + b) <==> Every(a) && Every(b)
  {
    assert forall t :: t in a + b <==> t in a || t in b;
  }

  lemma {:induction false} EveryMeant(cmp: Comparison, row: Row, calls: seq<Call>)
    ensures Every(AllMeant(cmp, row, calls)) <==> forall i :: 0 <= i < |calls| ==> Every(Meant(cmp, row, calls[i]))
    decreases |calls|
  {
    if calls != [] {
      var before, last := calls[..|calls| - 1], calls[|calls| - 1];
      EveryMeant(cmp, row, before);
      AllMeantSnoc(cmp, row, before, last);
      assert calls == before + [last];
      hide AllMeant, Meant, Every;
      EveryAppend(AllMeant(cmp, row, before), Meant(cmp, row, last));
    }
  }

  lemma MeantAll(cmp: Comparison, row: Row, calls: seq<Call>)
    ensures
      AllTrue(AllMeant(cmp, row, calls), 0, |AllMeant(cmp, row, calls)|) <==>
        forall i :: 0 <= i < |calls| ==> Every(Meant(cmp, row, calls[i]))
  {
    hide AllMeant, Meant, AllTrue, Every;
    EveryMeant(cmp, row, calls);
    AllTrueIsEvery(AllMeant(cmp, row, calls));
  }
}
