/** Question marks and parameters. */
module QueryPlaces {
  // When the placeholders that go/vedadb/query_builder.go prints meet their parameters.

  import opened QueryTexts

  function Built(op: Operation, table: string, columns: seq<string>, calls: seq<Call>): Builder {
    Run(New(op, table, columns), calls)
  }

  /** The k-th `?` that the builder prints itself stands for the k-th parameter, for every k, and there are equally
      many. A `?` in a text passed by the caller is the business of `QuestionMarks`. */
  predicate Aligned(b: Builder) { Marks(Build(b)) == b.places }

  // ---------- which calls fit ----------

  /** Conditions given through Where and WhereOr are printed with one `?`. */
  predicate OrdinaryCall(call: Call) { call.DoWhere? || call.DoWhereOr? ==> Ordinary(call.operator) }

  predicate GivesWhere(call: Call) {
    call.DoWhere? || call.DoWhereOr? || (call.DoWhereIn? && call.vals != [])
  }

  predicate GivesRow(call: Call) { call.DoValues? && call.vals != [] }

  /** What the caller has to keep to, for each kind of statement. */
  predicate Fits(op: Operation, calls: seq<Call>) {
    match op
    case SelectOp => forall c <- calls :: !c.DoSet? && !GivesRow(c) && OrdinaryCall(c)
    case DeleteOp => forall c <- calls :: !c.DoSet? && !GivesRow(c) && OrdinaryCall(c)
    case UpdateOp =>
      && (forall c <- calls :: !GivesRow(c) && OrdinaryCall(c))
      && (forall i, j :: 0 <= i < j < |calls| && calls[j].DoSet? ==> !GivesWhere(calls[i]))
    case InsertOp =>
      && (forall c <- calls :: !c.DoSet? && !GivesWhere(c))
      && (forall i, j :: 0 <= i < j < |calls| && calls[i].DoValues? && calls[j].DoValues? ==> |calls[i].vals| == |calls[j].vals|)
    case NoOp => forall c <- calls :: !c.DoSet? && !GivesRow(c) && !GivesWhere(c)
  }

  // ---------- every place points into the builder ----------

  predicate InRange(b: Builder, p: Place) {
    match p
    case AtSet(i) => i < |b.sets|
    case AtWhere(i) => i < |b.wheres|
    case AtIn(i, _) => i < |b.wheres|
    case AtRow(row, _) => row < |b.values|
  }

  /** The parameter given for a place, read from the clause. */
  predicate StandsAt(b: Builder, p: Place, v: Value) {
    match p
    case AtSet(i) => i < |b.sets| && b.sets[i].value == v
    case AtWhere(i) => i < |b.wheres| && b.wheres[i].value == v
    case AtIn(i, k) => i < |b.wheres| && b.wheres[i].value.Slice? && k < |b.wheres[i].value.items| && b.wheres[i].value.items[k] == v
    case AtRow(row, k) => row < |b.values| && k < |b.values[row]| && b.values[row][k] == v
  }

  predicate ParamsStand(b: Builder) {
    |b.params| == |b.places| && forall k :: 0 <= k < |b.places| ==> StandsAt(b, b.places[k], b.params[k])
  }

  lemma StandsInRange(b: Builder)
    requires ParamsStand(b)
    ensures forall p <- b.places :: InRange(b, p)
  {
    forall p | p in b.places ensures InRange(b, p) {
      var k :| 0 <= k < |b.places| && b.places[k] == p;
      assert StandsAt(b, b.places[k], b.params[k]);
    }
  }

  lemma ApplyKeepsStanding(b: Builder, call: Call)
    requires ParamsStand(b)
    ensures ParamsStand(Apply(b, call))
  {
    hide Build, Sql;
    var after := Apply(b, call);
    forall k | 0 <= k < |b.places|
      ensures StandsAt(after, b.places[k], b.params[k]) && after.places[k] == b.places[k] && after.params[k] == b.params[k]
    {
      assert StandsAt(b, b.places[k], b.params[k]);
    }
    forall k | |b.places| <= k < |after.places|
      ensures k < |after.params| && StandsAt(after, after.places[k], after.params[k])
    {
    }
  }

  /** In every run the parameters are the values of the clauses they were given for. */
  lemma {:induction false} RunParamsStand(op: Operation, table: string, columns: seq<string>, calls: seq<Call>)
    ensures ParamsStand(Built(op, table, columns, calls))
    decreases |calls|
  {
    if calls != [] {
      var n := |calls| - 1;
      RunParamsStand(op, table, columns, calls[..n]);
      ApplyKeepsStanding(Built(op, table, columns, calls[..n]), calls[n]);
    }
  }

  lemma {:induction false} RunKeepsOp(b: Builder, calls: seq<Call>)
    ensures Run(b, calls).op == b.op
    decreases |calls|
  {
    if calls != [] {
      RunKeepsOp(b, calls[..|calls| - 1]);
    }
  }

  // ---------- one call keeps the marks and the places together ----------

  lemma {:induction false} WhereMarksRange(wheres: seq<Condition>)
    ensures forall p <- WhereMarks(wheres) :: (p.AtWhere? || p.AtIn?) && p.i < |wheres|
    decreases |wheres|
  {
    if wheres != [] {
      WhereMarksRange(wheres[..|wheres| - 1]);
    }
  }

  lemma {:induction false} RowMarksRange(rows: nat, width: nat)
    ensures forall p <- RowMarks(rows, width) :: p.AtRow? && p.row < rows
  {
    if rows > 0 {
      RowMarksRange(rows - 1, width);
    }
  }

  /** The new ends of two sequences are told apart from everything before them: the sequences agree exactly
      when the ends and the beginnings do. */
  lemma EndsAgree(xs: seq<Place>, ys: seq<Place>, xe: seq<Place>, ye: seq<Place>)
    requires forall p <- xe :: p !in ys
    requires forall p <- ye :: p !in xs
    requires |xe| > 0 && |ye| > 0 && xe[|xe| - 1] == ye[|ye| - 1] ==> |xe| == |ye|
    ensures xs + xe == ys + ye <==> xs == ys && xe == ye
  {
    var x, y := xs + xe, ys + ye;
    if x == y {
      assert |xe| > 0 ==> xe[|xe| - 1] == x[|x| - 1];
      assert |ye| > 0 ==> ye[|ye| - 1] == y[|y| - 1];
      assert |xe| > 0 ==> x[|x| - 1] !in ys;
      assert |ye| > 0 ==> y[|y| - 1] !in xs;
      assert |xe| == |ye|;
      assert xs == x[..|xs|] == y[..|ys|] == ys;
      assert xe == x[|xs|..] == y[|ys|..] == ye;
    }
  }

  function Added(b: Builder, call: Call): seq<Place> { Apply(b, call).places[|b.places|..] }

  lemma AddedIs(b: Builder, call: Call)
    ensures Apply(b, call).places == b.places + Added(b, call)
  {
  }

  predicate IsWhereCall(call: Call) {
    call.DoWhere? || call.DoWhereOr? || call.DoWhereIn? || call.DoWhereNull? || call.DoWhereNotNull?
  }

  predicate AtCondition(i: nat, p: Place) { (p.AtWhere? || p.AtIn?) && p.i == i }

  lemma WhereCallAdds(b: Builder, call: Call)
    requires IsWhereCall(call)
    ensures var after := Apply(b, call);
            |after.wheres| == |b.wheres| + 1 && after.wheres[..|b.wheres|] == b.wheres
    ensures forall p <- Added(b, call) :: AtCondition(|b.wheres|, p)
    ensures |Added(b, call)| == if call.DoWhereIn? then |call.vals| else if GivesWhere(call) then 1 else 0
  {
  }

  lemma ConditionMarksAt(i: nat, c: Condition)
    ensures forall p <- ConditionMarks(i, c) :: AtCondition(i, p)
  {
  }

  lemma WhereCallMarks(b: Builder, call: Call)
    requires IsWhereCall(call)
    ensures var marks := ConditionMarks(|b.wheres|, Apply(b, call).wheres[|b.wheres|]);
            && (OrdinaryCall(call) ==> Added(b, call) == marks)
            && (!OrdinaryCall(call) ==> Added(b, call) == [AtWhere(|b.wheres|)] && AtWhere(|b.wheres|) !in marks)
  {
  }

  /** Aligned, read off the clauses. */
  predicate Even(b: Builder) { BuildMarks(b) == b.places }

  /** What keeps an aligned builder aligned. */
  predicate StepFits(b: Builder, call: Call) {
    match b.op
    case SelectOp => !call.DoSet? && !GivesRow(call) && OrdinaryCall(call)
    case DeleteOp => !call.DoSet? && !GivesRow(call) && OrdinaryCall(call)
    case UpdateOp => !GivesRow(call) && OrdinaryCall(call) && (call.DoSet? ==> WhereMarks(b.wheres) == [])
    case InsertOp =>
      !call.DoSet? && !GivesWhere(call) && (call.DoValues? && b.values != [] ==> |call.vals| == |b.values[0]|)
    case NoOp => !call.DoSet? && !GivesRow(call) && !GivesWhere(call)
  }

  lemma OtherCallsKeepPlaces(b: Builder, call: Call)
    requires !IsWhereCall(call) && !call.DoSet? && !call.DoValues?
    ensures Even(Apply(b, call)) <==> Even(b)
  {
    hide Build, Sql, WhereMarks, RowMarks;
  }

  /** The marks of the new condition come last. */
  lemma WhereCallBuilds(b: Builder, call: Call)
    requires IsWhereCall(call) && (b.op.SelectOp? || b.op.DeleteOp? || b.op.UpdateOp?)
    ensures |Apply(b, call).wheres| == |b.wheres| + 1
    ensures BuildMarks(Apply(b, call)) == BuildMarks(b) + ConditionMarks(|b.wheres|, Apply(b, call).wheres[|b.wheres|])
  {
    var after, i := Apply(b, call), |b.wheres|;
    WhereCallAdds(b, call);
    assert WhereMarks(after.wheres) == WhereMarks(b.wheres) + ConditionMarks(i, after.wheres[i]);
    if b.op.UpdateOp? {
      Regroup(SetMarks(|b.sets|), WhereMarks(b.wheres), ConditionMarks(i, after.wheres[i]));
    }
  }

  lemma Regroup<T>(a: seq<T>, b: seq<T>, c: seq<T>)
    ensures (a + b) + c == a + (b + c)
  {}

  lemma NewMarksAreNew(b: Builder, c: Condition)
    requires ParamsStand(b)
    ensures forall p <- ConditionMarks(|b.wheres|, c) :: p !in b.places
  {
    StandsInRange(b);
    ConditionMarksAt(|b.wheres|, c);
    forall p | p in ConditionMarks(|b.wheres|, c) ensures p !in b.places {
      assert !InRange(b, p);
    }
  }

  lemma OldMarksAreOld(b: Builder, call: Call)
    requires IsWhereCall(call)
    ensures forall p <- Added(b, call) :: p !in BuildMarks(b)
  {
    WhereCallAdds(b, call);
    WhereMarksRange(b.wheres);
    if b.op.InsertOp? && b.values != [] {
      RowMarksRange(|b.values|, |b.values[0]|);
    }
  }

  lemma WhereCallStep(b: Builder, call: Call)
    requires ParamsStand(b) && IsWhereCall(call)
    requires b.op.SelectOp? || b.op.DeleteOp? || b.op.UpdateOp?
    ensures Even(Apply(b, call)) <==> Even(b) && OrdinaryCall(call)
  {
    WhereCallBuilds(b, call);
    var ends := ConditionMarks(|b.wheres|, Apply(b, call).wheres[|b.wheres|]);
    WhereCallMarks(b, call);
    AddedIs(b, call);
    NewMarksAreNew(b, Apply(b, call).wheres[|b.wheres|]);
    OldMarksAreOld(b, call);
    EndsAgree(BuildMarks(b), b.places, ends, Added(b, call));
  }

  lemma UnmarkedStep(b: Builder, call: Call)
    requires ParamsStand(b)
    requires BuildMarks(Apply(b, call)) == BuildMarks(b)
    requires forall p <- Added(b, call) :: p !in BuildMarks(b)
    ensures Even(Apply(b, call)) <==> Even(b) && Added(b, call) == []
  {
    AddedIs(b, call);
    EndsAgree(BuildMarks(b), b.places, [], Added(b, call));
    assert BuildMarks(b) + [] == BuildMarks(b);
  }

  lemma SetStep(b: Builder, call: Call)
    requires ParamsStand(b) && b.op.UpdateOp? && call.DoSet?
    ensures Even(Apply(b, call)) <==> Even(b) && WhereMarks(b.wheres) == []
  {
    var after, n, wheres := Apply(b, call), |b.sets|, WhereMarks(b.wheres);
    WhereMarksRange(b.wheres);
    StandsInRange(b);
    assert SetMarks(n + 1) == SetMarks(n) + [AtSet(n)];
    if wheres == [] {
      assert BuildMarks(b) == SetMarks(n) && BuildMarks(after) == SetMarks(n) + [AtSet(n)];
      assert !InRange(b, AtSet(n));
      EndsAgree(SetMarks(n), b.places, [AtSet(n)], [AtSet(n)]);
    } else {
      var marks := BuildMarks(after);
      assert marks[|marks| - 1] == wheres[|wheres| - 1];
      assert wheres[|wheres| - 1] in wheres;
      assert after.places[|after.places| - 1] == AtSet(n);
    }
  }

  lemma RowStep(b: Builder, call: Call)
    requires ParamsStand(b) && b.op.InsertOp? && call.DoValues?
    ensures Even(Apply(b, call)) <==> Even(b) && (b.values != [] ==> |call.vals| == |b.values[0]|)
  {
    var after, n := Apply(b, call), |b.values|;
    StandsInRange(b);
    var width := |after.values[0]|;
    assert after.values[0] == if n == 0 then call.vals else b.values[0];
    RowMarksRange(n, width);
    var ends, added := RowPlaces(n, width), RowPlaces(n, |call.vals|);
    assert BuildMarks(after) == RowMarks(n, width) + ends;
    assert RowMarks(n, width) == BuildMarks(b);
    forall p | p in ends ensures p !in b.places {
      assert !InRange(b, p);
    }
    EndsAgree(RowMarks(n, width), b.places, ends, added);
  }

  lemma UnmarkedWhere(b: Builder, call: Call)
    requires ParamsStand(b) && IsWhereCall(call) && (b.op.InsertOp? || b.op.NoOp?)
    ensures Even(Apply(b, call)) <==> Even(b) && !GivesWhere(call)
  {
    if b.op.InsertOp? && b.values != [] {
      RowMarksRange(|b.values|, |b.values[0]|);
    }
    WhereCallAdds(b, call);
    UnmarkedStep(b, call);
  }

  lemma UnmarkedSet(b: Builder, call: Call)
    requires ParamsStand(b) && call.DoSet? && !b.op.UpdateOp?
    ensures !Even(Apply(b, call))
  {
    WhereMarksRange(b.wheres);
    if b.op.InsertOp? && b.values != [] {
      RowMarksRange(|b.values|, |b.values[0]|);
    }
    assert Added(b, call) == [AtSet(|b.sets|)];
    UnmarkedStep(b, call);
  }

  lemma UnmarkedRow(b: Builder, call: Call)
    requires ParamsStand(b) && call.DoValues? && !b.op.InsertOp?
    ensures Even(Apply(b, call)) <==> Even(b) && !GivesRow(call)
  {
    WhereMarksRange(b.wheres);
    assert Added(b, call) == RowPlaces(|b.values|, |call.vals|);
    UnmarkedStep(b, call);
  }

  lemma StepEven(b: Builder, call: Call)
    requires ParamsStand(b)
    ensures Even(Apply(b, call)) <==> Even(b) && StepFits(b, call)
  {
    if IsWhereCall(call) {
      if b.op.InsertOp? || b.op.NoOp? {
        UnmarkedWhere(b, call);
      } else {
        WhereCallStep(b, call);
      }
    } else if call.DoSet? {
      if b.op.UpdateOp? {
        SetStep(b, call);
      } else {
        UnmarkedSet(b, call);
      }
    } else if call.DoValues? {
      if b.op.InsertOp? {
        RowStep(b, call);
      } else {
        UnmarkedRow(b, call);
      }
    } else {
      OtherCallsKeepPlaces(b, call);
    }
  }

  // ---------- whole call sequences ----------

  lemma ConditionMarksEmpty(b: Builder, call: Call)
    requires OrdinaryCall(call) && IsWhereCall(call)
    ensures ConditionMarks(|b.wheres|, Apply(b, call).wheres[|b.wheres|]) == [] <==> !GivesWhere(call)
  {
    WhereCallMarks(b, call);
    WhereCallAdds(b, call);
  }

  lemma WhereMarksSnoc(wheres: seq<Condition>, c: Condition)
    ensures WhereMarks(wheres + [c]) == WhereMarks(wheres) + ConditionMarks(|wheres|, c)
  {
    assert (wheres + [c])[..|wheres|] == wheres;
  }

  lemma WhereMarksStep(b: Builder, call: Call)
    requires OrdinaryCall(call)
    ensures WhereMarks(Apply(b, call).wheres) == [] <==> WhereMarks(b.wheres) == [] && !GivesWhere(call)
  {
    if IsWhereCall(call) {
      var wheres := Apply(b, call).wheres;
      WhereCallAdds(b, call);
      ConditionMarksEmpty(b, call);
      assert wheres == b.wheres + [wheres[|b.wheres|]];
      WhereMarksSnoc(b.wheres, wheres[|b.wheres|]);
    } else {
      OtherCallsKeepWheres(b, call);
    }
  }

  lemma OtherCallsKeepWheres(b: Builder, call: Call)
    requires !IsWhereCall(call)
    ensures Apply(b, call).wheres == b.wheres && !GivesWhere(call)
  {}

  predicate NoWheres(calls: seq<Call>) { forall c <- calls :: !GivesWhere(c) }

  lemma NoWheresSnoc(calls: seq<Call>)
    requires calls != []
    ensures NoWheres(calls) <==> NoWheres(calls[..|calls| - 1]) && !GivesWhere(calls[|calls| - 1])
  {
    assert calls == calls[..|calls| - 1] + [calls[|calls| - 1]];
  }

  lemma {:induction false} NoWhereMarksIff(op: Operation, table: string, columns: seq<string>, calls: seq<Call>)
    requires forall c <- calls :: OrdinaryCall(c)
    ensures WhereMarks(Built(op, table, columns, calls).wheres) == [] <==> NoWheres(calls)
    decreases |calls|
  {
    if calls != [] {
      var n := |calls| - 1;
      NoWhereMarksIff(op, table, columns, calls[..n]);
      WhereMarksStep(Built(op, table, columns, calls[..n]), calls[n]);
      NoWheresSnoc(calls);
    }
  }

  /** The rows are the ones the calls gave. */
  predicate RowsGiven(values: seq<seq<Value>>, calls: seq<Call>) {
    && (values == [] <==> forall c <- calls :: !c.DoValues?)
    && (values != [] ==> exists c <- calls :: c.DoValues? && c.vals == values[0])
  }

  lemma RowsGivenStep(values: seq<seq<Value>>, b: Builder, before: seq<Call>, call: Call)
    requires RowsGiven(b.values, before) && values == Apply(b, call).values
    ensures RowsGiven(values, before + [call])
  {
    var calls := before + [call];
    assert calls[|before|] == call && forall c <- before :: c in calls;
    if call.DoValues? {
      assert call in calls;
    } else {
      assert values == b.values;
    }
  }

  lemma NoRowsAtFirst(op: Operation, table: string, columns: seq<string>)
    ensures RowsGiven(Built(op, table, columns, []).values, [])
  {}

  lemma {:induction false} RowsAre(op: Operation, table: string, columns: seq<string>, calls: seq<Call>)
    ensures RowsGiven(Built(op, table, columns, calls).values, calls)
    decreases |calls|
  {
    hide RowsGiven, Apply, Run, New;
    if |calls| == 0 {
      NoRowsAtFirst(op, table, columns);
      assert calls == [];
    } else {
      var before, last := calls[..|calls| - 1], calls[|calls| - 1];
      assert before + [last] == calls;
      RowsAre(op, table, columns, before);
      RunSnoc(New(op, table, columns), before, last);
      RowsGivenStep(Built(op, table, columns, calls).values, Built(op, table, columns, before), before, last);
    }
  }

  lemma UpdateFitsStep(b: Builder, before: seq<Call>, call: Call)
    requires b.op.UpdateOp?
    requires (forall c <- before :: OrdinaryCall(c)) ==> (WhereMarks(b.wheres) == [] <==> forall c <- before :: !GivesWhere(c))
    ensures Fits(UpdateOp, before + [call]) <==> Fits(UpdateOp, before) && StepFits(b, call)
  {
    var calls, n := before + [call], |before|;
    assert calls[n] == call && call in calls;
    assert forall c <- before :: c in calls;
    assert forall i | 0 <= i < n :: calls[i] == before[i];
    assert forall i | 0 <= i < n :: before[i] in before;
  }

  lemma InsertFitsStep(b: Builder, before: seq<Call>, call: Call)
    requires b.op.InsertOp? && RowsGiven(b.values, before)
    ensures Fits(InsertOp, before + [call]) <==> Fits(InsertOp, before) && StepFits(b, call)
  {
    var calls, n := before + [call], |before|;
    assert calls[n] == call && call in calls;
    assert forall c <- before :: c in calls;
    assert forall i | 0 <= i < n :: calls[i] == before[i];
    assert forall i | 0 <= i < n :: before[i] in before;
  }

  lemma PlainFitsStep(b: Builder, before: seq<Call>, call: Call)
    requires b.op.SelectOp? || b.op.DeleteOp? || b.op.NoOp?
    ensures Fits(b.op, before + [call]) <==> Fits(b.op, before) && StepFits(b, call)
  {
    var calls := before + [call];
    assert calls[|before|] == call && forall c <- before :: c in calls;
  }

  lemma FitsStep(op: Operation, table: string, columns: seq<string>, before: seq<Call>, call: Call)
    ensures Fits(op, before + [call]) <==> Fits(op, before) && StepFits(Built(op, table, columns, before), call)
  {
    var b := Built(op, table, columns, before);
    RunKeepsOp(New(op, table, columns), before);
    if op.UpdateOp? {
      if forall c <- before :: OrdinaryCall(c) {
        NoWhereMarksIff(op, table, columns, before);
      }
      UpdateFitsStep(b, before, call);
    } else if op.InsertOp? {
      RowsAre(op, table, columns, before);
      InsertFitsStep(b, before, call);
    } else {
      PlainFitsStep(b, before, call);
    }
  }

  lemma EvenIffFitsStep(op: Operation, table: string, columns: seq<string>, before: seq<Call>, call: Call)
    requires Even(Built(op, table, columns, before)) <==> Fits(op, before)
    ensures Even(Built(op, table, columns, before + [call])) <==> Fits(op, before + [call])
  {
    RunParamsStand(op, table, columns, before);
    RunSnoc(New(op, table, columns), before, call);
    StepEven(Built(op, table, columns, before), call);
    FitsStep(op, table, columns, before, call);
  }

  lemma EvenAtFirst(op: Operation, table: string, columns: seq<string>)
    ensures Even(Built(op, table, columns, [])) && Fits(op, [])
  {
    assert Built(op, table, columns, []) == New(op, table, columns);
  }

  lemma {:induction false} EvenIffFits(op: Operation, table: string, columns: seq<string>, calls: seq<Call>)
    ensures Even(Built(op, table, columns, calls)) <==> Fits(op, calls)
    decreases |calls|
  {
    if |calls| == 0 {
      EvenAtFirst(op, table, columns);
      assert calls == [];
    } else {
      var before, last := calls[..|calls| - 1], calls[|calls| - 1];
      assert before + [last] == calls;
      EvenIffFits(op, table, columns, before);
      EvenIffFitsStep(op, table, columns, before, last);
    }
  }

  /** The k-th `?` that the builder prints itself stands for the k-th parameter, and the counts agree, exactly when
      the calls fit. */
  lemma PlaceholdersLineUpIff(op: Operation, table: string, columns: seq<string>, calls: seq<Call>)
    ensures Aligned(Built(op, table, columns, calls)) <==> Fits(op, calls)
  {
    EvenIffFits(op, table, columns, calls);
    BuildMarksAre(Built(op, table, columns, calls));
  }

  lemma RunTwo(b: Builder, first: Call, second: Call)
    ensures Run(b, [first, second]) == Apply(Apply(b, first), second)
  {
    RunSnoc(b, [], first);
    RunSnoc(b, [first], second);
    assert [] + [first] == [first] && [first] + [second] == [first, second];
  }

  /** UPDATE with Where before Set: the row is looked up by the new name and the name is set to the id. */
  lemma SetAfterWhereSwaps(id: Value, name: Value)
    ensures var b := Built(UpdateOp, "users", [], [DoWhere("id", "=", id), DoSet("name", name)]);
            BuildMarks(b) == [AtSet(0), AtWhere(0)] && b.places == [AtWhere(0), AtSet(0)] && b.params == [id, name]
  {
    var start := New(UpdateOp, "users", []);
    RunTwo(start, DoWhere("id", "=", id), DoSet("name", name));
    var b := Built(UpdateOp, "users", [], [DoWhere("id", "=", id), DoSet("name", name)]);
    assert b.wheres == [Condition("id", "=", id, "")];
    assert b.wheres[..0] == [];
    assert WhereMarks(b.wheres) == [AtWhere(0)];
  }
}
