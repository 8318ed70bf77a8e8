/** Tokens of the statements that module `SqlReading` reads, and that each of them is read back. */
module SqlPhrases {
  import opened SqlReading
  import opened SqlText

  /** Lists of tokens with commas between them. */
  function Commas(items: seq<seq<Token>>): seq<Token> {
    if items == [] then []
    else if |items| == 1 then items[0]
    else items[0] + [Punct(',')] + Commas(items[1..])
  }

  function NameTokens(names: seq<string>): seq<Token> {
    Commas(seq(|names|, i requires 0 <= i < |names| => [Word(names[i])]))
  }

  function MarkTokens(n: nat): seq<Token> { Commas(seq(n, _ => [Punct('?')])) }

  function ListTokens(n: nat): seq<Token> { [Punct('(')] + MarkTokens(n) + [Punct(')')] }

  function TestTokens(test: Test): seq<Token> {
    match test
    case Compare(operator) => [Word(operator), Punct('?')]
    case InList(count) => [Word("IN")] + ListTokens(count)
    case IsNull => [Word("IS"), Word("NULL")]
    case IsNotNull => [Word("IS"), Word("NOT"), Word("NULL")]
  }

  function ConditionTokens(c: Clause): seq<Token> { [Word(c.column)] + TestTokens(c.test) }

  function JoiningWord(c: Connective): Token { Word(if c == And then "AND" else "OR") }

  /** Conditions; the connective of the first is not written. */
  function ClauseTokens(cs: seq<Clause>): seq<Token> {
    if cs == [] then []
    else if |cs| == 1 then ConditionTokens(cs[0])
    else ConditionTokens(cs[0]) + [JoiningWord(cs[1].connective)] + ClauseTokens(cs[1..])
  }

  function WhereTokens(cs: seq<Clause>): seq<Token> { if cs == [] then [] else [Word("WHERE")] + ClauseTokens(cs) }

  function AssignmentTokens(columns: seq<string>): seq<Token> {
    Commas(seq(|columns|, i requires 0 <= i < |columns| => [Word(columns[i]), Word("="), Punct('?')]))
  }

  function SetTokens(columns: seq<string>): seq<Token> {
    if columns == [] then [] else [Word("SET")] + AssignmentTokens(columns)
  }

  function RowTokens(rows: seq<nat>): seq<Token> {
    Commas(seq(|rows|, i requires 0 <= i < |rows| => ListTokens(rows[i])))
  }

  function ValueTokens(rows: seq<nat>): seq<Token> { if rows == [] then [] else [Word("VALUES")] + RowTokens(rows) }

  function JoinTokens(joins: seq<JoinTerm>): seq<Token> {
    if joins == [] then []
    else [Word(joins[0].kind), Word("JOIN"), Word(joins[0].table), Word("ON")] + joins[0].on + JoinTokens(joins[1..])
  }

  function GroupTokens(names: seq<string>): seq<Token> {
    if names == [] then [] else [Word("GROUP"), Word("BY")] + NameTokens(names)
  }

  function OrderTokens(orders: seq<OrderTerm>): seq<Token> {
    Commas(seq(|orders|, i requires 0 <= i < |orders| =>
      [Word(orders[i].column), Word(if orders[i].desc then "DESC" else "ASC")]))
  }

  function OrderByTokens(orders: seq<OrderTerm>): seq<Token> {
    if orders == [] then [] else [Word("ORDER"), Word("BY")] + OrderTokens(orders)
  }

  function BoundTokens(word: string, n: nat): seq<Token> { if n == 0 then [] else [Word(word), Word(ShowNat(n))] }

  function ReturningTokens(names: seq<string>): seq<Token> {
    if names == [] then [] else [Word("RETURNING")] + NameTokens(names)
  }

  // ---------- what may follow ----------

  /** Nothing, or the beginning of another clause. */
  predicate Follows(ts: seq<Token>) {
    ts == [] || (IsClauseWord(ts[0]) && ts[0] != Word("JOIN")) || ts[0] == Word("RETURNING")
  }

  lemma CommasCons(item: seq<Token>, items: seq<seq<Token>>)
    ensures Commas([item] + items) == if items == [] then item else item + [Punct(',')] + Commas(items)
  {
    assert ([item] + items)[1..] == items;
  }

  /** The tokens of a list of two or more, in front of others. */
  lemma CommasRest(item: seq<Token>, items: seq<seq<Token>>, rest: seq<Token>)
    ensures
      Commas([item] + items) + rest ==
        if items == [] then item + rest else item + ([Punct(',')] + (Commas(items) + rest))
  {
    CommasCons(item, items);
  }

  // ---------- reading lists ----------

  lemma NamesCons(names: seq<string>, rest: seq<Token>)
    requires names != []
    ensures
      NameTokens(names) + rest ==
        if |names| == 1 then [Word(names[0])] + rest
        else [Word(names[0]), Punct(',')] + (NameTokens(names[1..]) + rest)
  {
    var items := seq(|names|, i requires 0 <= i < |names| => [Word(names[i])]);
    var tail := seq(|names[1..]|, i requires 0 <= i < |names[1..]| => [Word(names[1..][i])]);
    assert items == [[Word(names[0])]] + tail;
    CommasRest([Word(names[0])], tail, rest);
  }

  lemma {:induction false} NamesRead(names: seq<string>, rest: seq<Token>)
    requires names != [] && !Starts(rest, Punct(','))
    ensures ReadNames(NameTokens(names) + rest) == Reads(names, rest)
  {
    var ts := NameTokens(names) + rest;
    NamesCons(names, rest);
    if |names| == 1 {
      assert ts[1..] == rest && names == [names[0]];
    } else {
      NamesRead(names[1..], rest);
      assert ts[2..] == NameTokens(names[1..]) + rest;
      assert [names[0]] + names[1..] == names;
    }
  }

  lemma MarksCons(n: nat, rest: seq<Token>)
    requires n > 0
    ensures
      MarkTokens(n) + rest ==
        if n == 1 then [Punct('?')] + rest else [Punct('?'), Punct(',')] + (MarkTokens(n - 1) + rest)
  {
    assert seq(n, _ => [Punct('?')]) == [[Punct('?')]] + seq(n - 1, _ => [Punct('?')]);
    CommasRest([Punct('?')], seq(n - 1, _ => [Punct('?')]), rest);
  }

  lemma {:induction false} MarksRead(n: nat, rest: seq<Token>)
    requires !Starts(rest, Punct(',')) && !Starts(rest, Punct('?'))
    ensures ReadMarks(MarkTokens(n) + rest) == Reads(n, rest)
  {
    var ts := MarkTokens(n) + rest;
    if n == 0 {
      assert MarkTokens(0) == [] && ts == rest;
    } else {
      MarksCons(n, rest);
      if n == 1 {
        assert ts[1..] == rest;
      } else {
        MarksRead(n - 1, rest);
        assert ts[2..] == MarkTokens(n - 1) + rest;
      }
    }
  }

  lemma ListRead(n: nat, rest: seq<Token>)
    ensures ReadList(ListTokens(n) + rest) == Reads(n, rest)
  {
    var ts := ListTokens(n) + rest;
    assert ts[1..] == MarkTokens(n) + ([Punct(')')] + rest);
    MarksRead(n, [Punct(')')] + rest);
    assert ([Punct(')')] + rest)[1..] == rest;
  }

  lemma InRead(list: seq<Token>, rest: seq<Token>, count: nat)
    requires Starts(list, Punct('(')) && ReadList(list + rest) == Reads(count, rest)
    ensures ReadTest(([Word("IN")] + list) + rest) == Reads(InList(count), rest)
  {
    hide ReadList;
    var ts := ([Word("IN")] + list) + rest;
    assert ts[0] == Word("IN") && ts[1] == list[0] && ts[1..] == list + rest;
  }

  lemma ListStarts(count: nat)
    ensures Starts(ListTokens(count), Punct('('))
  {
    hide MarkTokens;
  }

  lemma InListRead(count: nat, rest: seq<Token>)
    ensures ReadTest(TestTokens(InList(count)) + rest) == Reads(InList(count), rest)
  {
    hide ListTokens, ReadList, ReadTest;
    ListStarts(count);
    ListRead(count, rest);
    InRead(ListTokens(count), rest, count);
  }

  lemma TestRead(test: Test, rest: seq<Token>)
    ensures ReadTest(TestTokens(test) + rest) == Reads(test, rest)
  {
    hide ListTokens, ReadList;
    var ts := TestTokens(test) + rest;
    match test {
      case InList(count) => InListRead(count, rest);
      case Compare(operator) => assert ts[2..] == rest;
      case IsNull => assert ts[2..] == rest;
      case IsNotNull => assert ts[3..] == rest;
    }
  }

  // ---------- reading conditions ----------

  lemma Regroup<T>(a: seq<T>, b: seq<T>, c: seq<T>, d: seq<T>, e: seq<T>)
    ensures ((a + b) + c + d) + e == a + (b + (c + (d + e))) && (a + b) + e == a + (b + e)
  {}

  lemma ClausesCons(cs: seq<Clause>, rest: seq<Token>)
    requires cs != []
    ensures
      ClauseTokens(cs) + rest ==
        [Word(cs[0].column)] + (TestTokens(cs[0].test)
          + (if |cs| == 1 then rest else [JoiningWord(cs[1].connective)] + (ClauseTokens(cs[1..]) + rest)))
  {
    hide TestTokens, JoiningWord;
    Regroup([Word(cs[0].column)], TestTokens(cs[0].test), if |cs| == 1 then [] else [JoiningWord(cs[1].connective)],
            ClauseTokens(cs[1..]), rest);
  }

  lemma ConditionRead(column: string, test: Test, after: seq<Token>, connective: Connective)
    ensures
      var clause := Clause(connective, column, test);
      ReadConditions([Word(column)] + (TestTokens(test) + after), connective) ==
        if Starts(after, Word("AND")) || Starts(after, Word("OR")) then
          match ReadConditions(after[1..], if after[0] == Word("AND") then And else Or)
          case Fails => Fails
          case Reads(clauses, rest) => Reads([clause] + clauses, rest)
        else Reads([clause], after)
  {
    hide ReadTest, TestTokens;
    var ts := [Word(column)] + (TestTokens(test) + after);
    assert ts[1..] == TestTokens(test) + after;
    TestRead(test, after);
  }

  lemma JoiningRead(c: Connective, more: seq<Token>)
    ensures
      var after := [JoiningWord(c)] + more;
      && (Starts(after, Word("AND")) || Starts(after, Word("OR"))) && after[1..] == more
      && (if after[0] == Word("AND") then And else Or) == c
  {}

  lemma NothingJoins(rest: seq<Token>)
    requires Follows(rest)
    ensures !Starts(rest, Word("AND")) && !Starts(rest, Word("OR"))
  {}

  lemma {:induction false} ConditionsRead(cs: seq<Clause>, rest: seq<Token>)
    requires cs != [] && Follows(rest)
    ensures ReadConditions(ClauseTokens(cs) + rest, cs[0].connective) == Reads(cs, rest)
  {
    hide ReadConditions, ClauseTokens, TestTokens, JoiningWord, Follows, Starts;
    ClausesCons(cs, rest);
    if |cs| == 1 {
      ConditionRead(cs[0].column, cs[0].test, rest, cs[0].connective);
      NothingJoins(rest);
      assert cs == [cs[0]];
    } else {
      var more := ClauseTokens(cs[1..]) + rest;
      ConditionRead(cs[0].column, cs[0].test, [JoiningWord(cs[1].connective)] + more, cs[0].connective);
      JoiningRead(cs[1].connective, more);
      ConditionsRead(cs[1..], rest);
      assert [cs[0]] + cs[1..] == cs;
    }
  }

  lemma WhereRead(cs: seq<Clause>, rest: seq<Token>)
    requires Follows(rest) && !Starts(rest, Word("WHERE")) && (cs != [] ==> cs[0].connective == And)
    ensures ReadWhere(WhereTokens(cs) + rest) == Reads(cs, rest)
  {
    hide ReadConditions, ClauseTokens, Follows;
    var ts := WhereTokens(cs) + rest;
    if cs == [] {
      assert ts == rest;
    } else {
      assert ts[1..] == ClauseTokens(cs) + rest;
      ConditionsRead(cs, rest);
    }
  }

  // ---------- reading the other clauses ----------

  lemma AssignmentsCons(columns: seq<string>, rest: seq<Token>)
    requires columns != []
    ensures
      AssignmentTokens(columns) + rest ==
        if |columns| == 1 then [Word(columns[0]), Word("="), Punct('?')] + rest
        else [Word(columns[0]), Word("="), Punct('?'), Punct(',')] + (AssignmentTokens(columns[1..]) + rest)
  {
    var items := seq(|columns|, i requires 0 <= i < |columns| => [Word(columns[i]), Word("="), Punct('?')]);
    var tail := seq(|columns[1..]|, i requires 0 <= i < |columns[1..]| => [Word(columns[1..][i]), Word("="), Punct('?')]);
    assert items == [[Word(columns[0]), Word("="), Punct('?')]] + tail;
    CommasRest([Word(columns[0]), Word("="), Punct('?')], tail, rest);
  }

  lemma {:induction false} AssignmentsRead(columns: seq<string>, rest: seq<Token>)
    requires columns != [] && !Starts(rest, Punct(','))
    ensures ReadAssignments(AssignmentTokens(columns) + rest) == Reads(columns, rest)
  {
    hide AssignmentTokens;
    var ts := AssignmentTokens(columns) + rest;
    AssignmentsCons(columns, rest);
    if |columns| == 1 {
      assert ts[3..] == rest && columns == [columns[0]];
    } else {
      AssignmentsRead(columns[1..], rest);
      assert ts[4..] == AssignmentTokens(columns[1..]) + rest;
      assert [columns[0]] + columns[1..] == columns;
    }
  }

  lemma SetsRead(columns: seq<string>, rest: seq<Token>)
    requires Follows(rest)
    ensures ReadSets(SetTokens(columns) + rest) == Reads(columns, rest)
  {
    hide AssignmentTokens, ReadAssignments;
    var ts := SetTokens(columns) + rest;
    if columns == [] {
      assert ts == rest;
    } else {
      assert ts[1..] == AssignmentTokens(columns) + rest;
      AssignmentsRead(columns, rest);
    }
  }

  lemma RowsCons(rows: seq<nat>, rest: seq<Token>)
    requires rows != []
    ensures
      RowTokens(rows) + rest ==
        ListTokens(rows[0]) + (if |rows| == 1 then rest else [Punct(',')] + (RowTokens(rows[1..]) + rest))
  {
    var items := seq(|rows|, i requires 0 <= i < |rows| => ListTokens(rows[i]));
    var tail := seq(|rows[1..]|, i requires 0 <= i < |rows[1..]| => ListTokens(rows[1..][i]));
    assert items == [ListTokens(rows[0])] + tail;
    CommasRest(ListTokens(rows[0]), tail, rest);
  }

  lemma {:induction false} RowsRead(rows: seq<nat>, rest: seq<Token>)
    requires rows != [] && !Starts(rest, Punct(','))
    ensures ReadRows(RowTokens(rows) + rest) == Reads(rows, rest)
  {
    var after := if |rows| == 1 then rest else [Punct(',')] + (RowTokens(rows[1..]) + rest);
    RowsCons(rows, rest);
    ListRead(rows[0], after);
    if |rows| == 1 {
      assert rows == [rows[0]];
    } else {
      RowsRead(rows[1..], rest);
      assert after[1..] == RowTokens(rows[1..]) + rest;
      assert [rows[0]] + rows[1..] == rows;
    }
  }

  lemma ValuesRead(rows: seq<nat>, rest: seq<Token>)
    requires Follows(rest)
    ensures ReadValues(ValueTokens(rows) + rest) == Reads(rows, rest)
  {
    hide RowTokens, ReadRows;
    var ts := ValueTokens(rows) + rest;
    if rows == [] {
      assert ts == rest;
    } else {
      assert ts[1..] == RowTokens(rows) + rest;
      RowsRead(rows, rest);
    }
  }

  predicate IsPhrase(p: seq<Token>) { forall i :: 0 <= i < |p| ==> !IsClauseWord(p[i]) }

  lemma {:induction false} PhraseRead(p: seq<Token>, rest: seq<Token>)
    requires IsPhrase(p) && EndsPhrase(rest) && !Starts(rest, Word("JOIN"))
    ensures ReadPhrase(p + rest) == Reads(p, rest)
  {
    var ts := p + rest;
    if p == [] {
      assert ts == rest;
    } else {
      assert ts[1..] == p[1..] + rest;
      assert |ts| > 1 ==> ts[1] == if |p| > 1 then p[1] else rest[0];
      PhraseRead(p[1..], rest);
      assert [p[0]] + p[1..] == p;
    }
  }

  predicate JoinsOk(joins: seq<JoinTerm>) {
    forall i :: 0 <= i < |joins| ==> !IsClauseWord(Word(joins[i].kind)) && IsPhrase(joins[i].on)
  }

  lemma JoinsCons(joins: seq<JoinTerm>, rest: seq<Token>)
    requires joins != []
    ensures
      JoinTokens(joins) + rest ==
        [Word(joins[0].kind), Word("JOIN"), Word(joins[0].table), Word("ON")] + (joins[0].on + (JoinTokens(joins[1..]) + rest))
  {}

  lemma JoinsEnd(joins: seq<JoinTerm>, rest: seq<Token>)
    requires JoinsOk(joins) && Follows(rest) && !Starts(rest, Word("RETURNING"))
    ensures EndsPhrase(JoinTokens(joins) + rest) && !Starts(JoinTokens(joins) + rest, Word("JOIN"))
  {
    if joins == [] {
      assert JoinTokens(joins) + rest == rest;
    }
  }

  lemma {:induction false} JoinsRead(joins: seq<JoinTerm>, rest: seq<Token>)
    requires JoinsOk(joins) && Follows(rest) && !Starts(rest, Word("RETURNING"))
    ensures ReadJoins(JoinTokens(joins) + rest) == Reads(joins, rest)
    decreases |joins|
  {
    var ts := JoinTokens(joins) + rest;
    if joins == [] {
      assert ts == rest;
    } else {
      hide JoinTokens, ReadPhrase;
      var more := JoinTokens(joins[1..]) + rest;
      JoinsCons(joins, rest);
      assert ts[4..] == joins[0].on + more;
      JoinsEnd(joins[1..], rest);
      PhraseRead(joins[0].on, more);
      JoinsRead(joins[1..], rest);
      assert [JoinTerm(joins[0].kind, joins[0].table, joins[0].on)] + joins[1..] == joins;
    }
  }

  lemma GroupRead(names: seq<string>, rest: seq<Token>)
    requires Follows(rest) && !Starts(rest, Word("GROUP"))
    ensures ReadGroupBy(GroupTokens(names) + rest) == Reads(names, rest)
  {
    hide NameTokens, ReadNames;
    var ts := GroupTokens(names) + rest;
    if names == [] {
      assert ts == rest;
    } else {
      assert ts[2..] == NameTokens(names) + rest;
      NamesRead(names, rest);
    }
  }

  lemma OrdersCons(orders: seq<OrderTerm>, rest: seq<Token>)
    requires orders != []
    ensures
      var first := [Word(orders[0].column), Word(if orders[0].desc then "DESC" else "ASC")];
      OrderTokens(orders) + rest ==
        if |orders| == 1 then first + rest else first + ([Punct(',')] + (OrderTokens(orders[1..]) + rest))
  {
    var items := seq(|orders|, i requires 0 <= i < |orders| =>
      [Word(orders[i].column), Word(if orders[i].desc then "DESC" else "ASC")]);
    var tail := seq(|orders[1..]|, i requires 0 <= i < |orders[1..]| =>
      [Word(orders[1..][i].column), Word(if orders[1..][i].desc then "DESC" else "ASC")]);
    var first := [Word(orders[0].column), Word(if orders[0].desc then "DESC" else "ASC")];
    assert items == [first] + tail;
    CommasRest(first, tail, rest);
  }

  lemma {:induction false} OrdersRead(orders: seq<OrderTerm>, rest: seq<Token>)
    requires orders != [] && !Starts(rest, Punct(','))
    ensures ReadOrders(OrderTokens(orders) + rest) == Reads(orders, rest)
  {
    var ts := OrderTokens(orders) + rest;
    OrdersCons(orders, rest);
    assert OrderTerm(orders[0].column, orders[0].desc) == orders[0];
    if |orders| == 1 {
      assert ts[2..] == rest && orders == [orders[0]];
    } else {
      OrdersRead(orders[1..], rest);
      assert ts[3..] == OrderTokens(orders[1..]) + rest;
      assert [orders[0]] + orders[1..] == orders;
    }
  }

  lemma OrderByRead(orders: seq<OrderTerm>, rest: seq<Token>)
    requires Follows(rest) && !Starts(rest, Word("ORDER"))
    ensures ReadOrderBy(OrderByTokens(orders) + rest) == Reads(orders, rest)
  {
    hide OrderTokens, ReadOrders;
    var ts := OrderByTokens(orders) + rest;
    if orders == [] {
      assert ts == rest;
    } else {
      assert ts[2..] == OrderTokens(orders) + rest;
      OrdersRead(orders, rest);
    }
  }

  lemma BoundRead(word: string, n: nat, rest: seq<Token>)
    requires !Starts(rest, Word(word))
    ensures ReadBound(BoundTokens(word, n) + rest, word) == Reads(n, rest)
  {
    var ts := BoundTokens(word, n) + rest;
    if n == 0 {
      assert ts == rest;
    } else {
      assert ts[2..] == rest;
      ShowsDecimal(n);
    }
  }

  lemma ReturningRead(names: seq<string>)
    ensures ReadReturning(ReturningTokens(names)) == Reads(names, [])
  {
    hide NameTokens, ReadNames;
    if names != [] {
      assert ReturningTokens(names)[1..] == NameTokens(names) + [];
      NamesRead(names, []);
    }
  }
}
