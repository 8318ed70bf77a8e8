/** Reading back what the query builder writes. */
module QueryReadings {
  // A reader of SQL, applied to the text that go/vedadb/query_builder.go builds, finds the statement that the calls
  // asked for: tables, columns, conditions with their connectives, orders, bounds.

  import opened QueryTexts
  import opened SqlReading
  import opened SqlPhrases
  import opened SqlText
  import B = QueryBuilders

  // ---------- lexing what is printed ----------

  function LexAll(xs: seq<string>): seq<seq<Token>> { seq(|xs|, i requires 0 <= i < |xs| => Lex(xs[i])) }

  lemma CommasSnoc(items: seq<seq<Token>>, last: seq<Token>)
    ensures Commas(items + [last]) == if items == [] then last else Commas(items) + [Punct(',')] + last
    decreases |items|
  {
    if items == [] {
      assert items + [last] == [last];
    } else {
      CommasSnoc(items[1..], last);
      assert items + [last] == [items[0]] + (items[1..] + [last]);
      CommasCons(items[0], items[1..] + [last]);
      assert items == [items[0]] + items[1..];
      CommasCons(items[0], items[1..]);
    }
  }

  lemma LexComma()
    ensures Lex(", ") == [Punct(',')]
  {
    LexPunct(',');
    LexAppend(",", " ");
    assert " "[1..] == "";
    assert "," + " " == ", ";
  }

  lemma LexCommaBetween(s: string, t: string)
    ensures Lex(s + ", " + t) == Lex(s) + [Punct(',')] + Lex(t)
  {
    LexComma();
    LexAppend(s, ", ");
    LexAppend(s + ", ", t);
  }

  lemma LexAllSnoc(front: seq<string>, last: string)
    ensures LexAll(front + [last]) == LexAll(front) + [Lex(last)]
  {
    hide Lex;
  }

  lemma JoinSnoc(front: seq<string>, last: string)
    requires front != []
    ensures Join(front + [last], ", ") == Join(front, ", ") + ", " + last
  {
    assert (front + [last])[..|front|] == front;
  }

  lemma LexJoinOne(xs: seq<string>)
    requires |xs| <= 1
    ensures Lex(Join(xs, ", ")) == Commas(LexAll(xs))
  {}

  lemma {:induction false} LexJoin(xs: seq<string>)
    ensures Lex(Join(xs, ", ")) == Commas(LexAll(xs))
    decreases |xs|
  {
    hide Lex, Join, Commas;
    if |xs| <= 1 {
      LexJoinOne(xs);
    } else {
      var front, last := xs[..|xs| - 1], xs[|xs| - 1];
      assert xs == front + [last];
      LexJoin(front);
      LexCommaBetween(Join(front, ", "), last);
      JoinSnoc(front, last);
      LexAllSnoc(front, last);
      CommasSnoc(LexAll(front), Lex(last));
    }
  }

  predicate AllNames(xs: seq<string>) { forall i :: 0 <= i < |xs| ==> IsName(xs[i]) }

  lemma NamesLex(names: seq<string>)
    requires AllNames(names)
    ensures Lex(Join(names, ", ")) == NameTokens(names)
  {
    LexJoin(names);
    forall i | 0 <= i < |names| ensures Lex(names[i]) == [Word(names[i])] {
      LexName(names[i]);
    }
    assert LexAll(names) == seq(|names|, i requires 0 <= i < |names| => [Word(names[i])]);
  }

  lemma MarksLex(n: nat)
    ensures Lex(Join(B.QuestionMarkTexts(n), ", ")) == MarkTokens(n)
  {
    LexJoin(B.QuestionMarkTexts(n));
    LexPunct('?');
    assert LexAll(B.QuestionMarkTexts(n)) == seq(n, _ => [Punct('?')]);
  }

  lemma LexBetween(before: char, s: string, after: char)
    requires IsPunct(before) && IsPunct(after)
    ensures Lex([before] + s + [after]) == [Punct(before)] + Lex(s) + [Punct(after)]
  {
    LexPunct(before);
    LexPunct(after);
    LexAppend([before], s);
    LexAppend([before] + s, [after]);
  }

  lemma ListLex(n: nat)
    ensures Lex("(" + Join(B.QuestionMarkTexts(n), ", ") + ")") == ListTokens(n)
  {
    MarksLex(n);
    LexBetween('(', Join(B.QuestionMarkTexts(n), ", "), ')');
  }

  function Widths(rows: nat, width: nat): (r: seq<nat>)
    ensures |r| == rows && forall i :: 0 <= i < rows ==> r[i] == width
  {
    seq(rows, _ => width)
  }

  lemma RowsLex(rows: nat, width: nat)
    ensures Lex(Join(B.RowTexts(rows, width), ", ")) == RowTokens(Widths(rows, width))
  {
    var texts, widths := B.RowTexts(rows, width), Widths(rows, width);
    LexJoin(texts);
    ListLex(width);
    assert LexAll(texts) == seq(|widths|, i requires 0 <= i < |widths| => ListTokens(widths[i]));
  }

  /** A word after a space. */
  lemma LexNext(s: string, word: string)
    requires IsName(word)
    ensures Lex(s + " " + word) == Lex(s) + [Word(word)]
  {
    LexName(word);
    LexSpace(word);
    LexAppend(s, " " + word);
    assert s + (" " + word) == s + " " + word;
  }

  lemma LexSpaceAfter(s: string)
    ensures Lex(s + " ") == Lex(s)
  {
    LexAppend(s, " ");
    assert " "[1..] == "";
  }

  lemma LexWords(first: string, second: string)
    requires IsName(first) && IsName(second)
    ensures Lex(first + " " + second) == [Word(first), Word(second)]
  {
    LexName(first);
    LexNext(first, second);
  }

  lemma AssignmentText(column: string)
    ensures column + " " + "=" + " " + "?" == column + " = ?"
  {
    assert " " + "=" + " " + "?" == " = ?";
  }

  lemma AssignmentLex(column: string)
    requires IsName(column)
    ensures Lex(column + " = ?") == [Word(column), Word("="), Punct('?')]
  {
    hide Lex;
    LexWords(column, "=");
    LexSpaceAfter(column + " " + "=");
    LexPunct('?');
    LexAppend(column + " " + "=" + " ", "?");
    AssignmentText(column);
  }

  function SetColumns(sets: seq<SetClause>): (r: seq<string>)
    ensures |r| == |sets| && forall i :: 0 <= i < |sets| ==> r[i] == sets[i].column
  {
    seq(|sets|, i requires 0 <= i < |sets| => sets[i].column)
  }

  lemma SetsLex(sets: seq<SetClause>)
    requires AllNames(SetColumns(sets))
    ensures Lex(Join(B.SetTexts(sets), ", ")) == AssignmentTokens(SetColumns(sets))
  {
    var texts, columns := B.SetTexts(sets), SetColumns(sets);
    LexJoin(texts);
    forall i | 0 <= i < |sets| ensures Lex(texts[i]) == [Word(columns[i]), Word("="), Punct('?')] {
      AssignmentLex(columns[i]);
    }
    assert LexAll(texts) == seq(|columns|, i requires 0 <= i < |columns| => [Word(columns[i]), Word("="), Punct('?')]);
  }

  function OrderTerms(orders: seq<Order>): (r: seq<OrderTerm>)
    ensures |r| == |orders| && forall i :: 0 <= i < |orders| ==> r[i] == OrderTerm(orders[i].column, orders[i].desc)
  {
    seq(|orders|, i requires 0 <= i < |orders| => OrderTerm(orders[i].column, orders[i].desc))
  }

  lemma OrderLex(column: string, desc: bool)
    requires IsName(column)
    ensures Lex(column + (if desc then " DESC" else " ASC")) == [Word(column), Word(if desc then "DESC" else "ASC")]
  {
    hide Lex;
    var direction := if desc then "DESC" else "ASC";
    LexWords(column, direction);
    assert " " + direction == if desc then " DESC" else " ASC";
    assert column + " " + direction == column + (if desc then " DESC" else " ASC");
  }

  lemma OrdersLex(orders: seq<Order>)
    requires forall i :: 0 <= i < |orders| ==> IsName(orders[i].column)
    ensures Lex(Join(OrderList(orders), ", ")) == OrderTokens(OrderTerms(orders))
  {
    var texts, terms := OrderList(orders), OrderTerms(orders);
    LexJoin(texts);
    forall i | 0 <= i < |orders|
      ensures Lex(texts[i]) == [Word(terms[i].column), Word(if terms[i].desc then "DESC" else "ASC")]
    {
      OrderLex(orders[i].column, orders[i].desc);
    }
    assert LexAll(texts) ==
      seq(|terms|, i requires 0 <= i < |terms| => [Word(terms[i].column), Word(if terms[i].desc then "DESC" else "ASC")]);
  }

  // ---------- conditions ----------

  /** What a condition given with an operator tests. */
  function TestOf(operator: string, value: Value): Test {
    if operator == "IN" then InList(InCount(value))
    else if operator == "IS NULL" then IsNull
    else if operator == "IS NOT NULL" then IsNotNull
    else Compare(operator)
  }

  predicate IsOperator(operator: string) { IsName(operator) || operator == "IS NULL" || operator == "IS NOT NULL" }

  lemma InTokens(column: string, n: nat)
    ensures [Word(column), Word("IN")] + ListTokens(n) == [Word(column)] + TestTokens(InList(n))
  {
    hide ListTokens;
  }

  lemma InText(column: string, marks: string)
    ensures column + " IN (" + marks + ")" == (column + " " + "IN" + " ") + ("(" + marks + ")")
  {
    assert " " + "IN" + " " + "(" == " IN (";
  }

  lemma InLex(column: string, n: nat)
    requires IsName(column)
    ensures
      Lex(column + " IN (" + Join(B.QuestionMarkTexts(n), ", ") + ")") == [Word(column)] + TestTokens(InList(n))
  {
    hide Lex, TestTokens, ListTokens, Join;
    var marks := Join(B.QuestionMarkTexts(n), ", ");
    LexWords(column, "IN");
    LexSpaceAfter(column + " " + "IN");
    ListLex(n);
    LexAppend(column + " " + "IN" + " ", "(" + marks + ")");
    InText(column, marks);
    InTokens(column, n);
  }

  lemma IsNullLex(column: string)
    requires IsName(column)
    ensures Lex(column + " " + "IS NULL") == [Word(column)] + TestTokens(IsNull)
  {
    hide Lex;
    LexWords(column, "IS");
    LexNext(column + " " + "IS", "NULL");
    assert "IS" + " " + "NULL" == "IS NULL";
    assert column + " " + "IS" + " " + "NULL" == column + " " + "IS NULL";
  }

  lemma IsNotNullLex(column: string)
    requires IsName(column)
    ensures Lex(column + " " + "IS NOT NULL") == [Word(column)] + TestTokens(IsNotNull)
  {
    hide Lex;
    LexWords(column, "IS");
    LexNext(column + " " + "IS", "NOT");
    LexNext(column + " " + "IS" + " " + "NOT", "NULL");
    assert "IS" + " " + "NOT" + " " + "NULL" == "IS NOT NULL";
    assert column + " " + "IS" + " " + "NOT" + " " + "NULL" == column + " " + "IS NOT NULL";
  }

  lemma CompareLex(column: string, operator: string)
    requires IsName(column) && IsName(operator)
    ensures Lex(column + " " + operator + " ?") == [Word(column)] + TestTokens(Compare(operator))
  {
    LexWords(column, operator);
    LexSpaceAfter(column + " " + operator);
    LexPunct('?');
    LexAppend(column + " " + operator + " ", "?");
    assert column + " " + operator + " " + "?" == column + " " + operator + " ?";
  }

  lemma ConditionLex(c: Condition)
    requires IsName(c.column) && IsOperator(c.operator)
    ensures Lex(B.ConditionText(c)) == [Word(c.column)] + TestTokens(TestOf(c.operator, c.value))
  {
    hide Lex, TestTokens;
    if c.operator == "IN" {
      InLex(c.column, InCount(c.value));
    } else if c.operator == "IS NULL" || c.operator == "IS NOT NULL" {
      if c.operator == "IS NULL" { IsNullLex(c.column); } else { IsNotNullLex(c.column); }
    } else {
      CompareLex(c.column, c.operator);
    }
  }

  function ClauseOf(i: nat, c: Condition): Clause {
    Clause(if i > 0 && c.logic == "OR" then Or else And, c.column, TestOf(c.operator, c.value))
  }

  function Clauses(wheres: seq<Condition>): (r: seq<Clause>)
    ensures |r| == |wheres| && forall i :: 0 <= i < |wheres| ==> r[i] == ClauseOf(i, wheres[i])
  {
    seq(|wheres|, i requires 0 <= i < |wheres| => ClauseOf(i, wheres[i]))
  }

  predicate NamedConditions(wheres: seq<Condition>) {
    forall i :: 0 <= i < |wheres| ==>
      IsName(wheres[i].column) && IsOperator(wheres[i].operator) && (i > 0 ==> wheres[i].logic == "AND" || wheres[i].logic == "OR")
  }

  lemma {:induction false} ClausesSnoc(cs: seq<Clause>, c: Clause)
    requires cs != []
    ensures ClauseTokens(cs + [c]) == ClauseTokens(cs) + ([JoiningWord(c.connective)] + ConditionTokens(c))
    decreases |cs|
  {
    var all := cs + [c];
    if |cs| == 1 {
      assert all[1..] == [c];
    } else {
      assert all[1..] == cs[1..] + [c] && all[1] == cs[1];
      ClausesSnoc(cs[1..], c);
    }
  }

  lemma SeparatorLex(i: nat, c: Condition)
    requires i > 0 && (c.logic == "AND" || c.logic == "OR")
    ensures Lex(Separator(i, c).s) == [JoiningWord(ClauseOf(i, c).connective)]
  {
    LexName(c.logic);
    LexNext("", c.logic);
    LexSpaceAfter("" + " " + c.logic);
    assert "" + " " + c.logic + " " == " " + c.logic + " ";
  }

  lemma ConditionNextLex(before: string, i: nat, c: Condition)
    requires IsName(c.column) && IsOperator(c.operator) && (i > 0 ==> c.logic == "AND" || c.logic == "OR")
    requires i == 0 ==> before == ""
    ensures
      Lex(before + (Separator(i, c).s + B.ConditionText(c))) ==
        Lex(before) + ((if i > 0 then [JoiningWord(ClauseOf(i, c).connective)] else []) + ConditionTokens(ClauseOf(i, c)))
  {
    hide Lex, B.ConditionText, TestTokens;
    ConditionLex(c);
    if i > 0 {
      SeparatorLex(i, c);
      LexAppend(Separator(i, c).s, B.ConditionText(c));
    } else {
      assert Separator(i, c).s + B.ConditionText(c) == B.ConditionText(c);
    }
    LexAppend(before, Separator(i, c).s + B.ConditionText(c));
    LexEmpty();
  }

  lemma LexEmpty()
    ensures Lex("") == []
  {}

  lemma ConditionsNext(wheres: seq<Condition>, i: nat)
    requires i < |wheres| && NamedConditions(wheres)
    requires Lex(Sql(ConditionList(wheres[..i]))) == ClauseTokens(Clauses(wheres)[..i])
    ensures Lex(Sql(ConditionList(wheres[..i + 1]))) == ClauseTokens(Clauses(wheres)[..i + 1])
  {
    hide Lex, ClauseTokens, ConditionList, Sql, B.ConditionText, NamedConditions, Clauses;
    B.ConditionListStep(wheres, i);
    ConditionStepLex(wheres, i);
    ClausesTake(wheres, i);
  }

  lemma {:induction false} ConditionsLex(wheres: seq<Condition>, n: nat)
    requires n <= |wheres| && NamedConditions(wheres)
    ensures Lex(Sql(ConditionList(wheres[..n]))) == ClauseTokens(Clauses(wheres)[..n])
  {
    hide Lex, ClauseTokens, ConditionList, Sql, B.ConditionText, NamedConditions, Clauses;
    if n == 0 {
      NoConditionsLex(wheres);
    } else {
      ConditionsLex(wheres, n - 1);
      ConditionsNext(wheres, n - 1);
    }
  }

  lemma ClausesTake(wheres: seq<Condition>, i: nat)
    requires i < |wheres|
    ensures Clauses(wheres)[..i + 1] == Clauses(wheres)[..i] + [Clauses(wheres)[i]]
  {}

  lemma NoConditionsLex(wheres: seq<Condition>)
    ensures Lex(Sql(ConditionList(wheres[..0]))) == ClauseTokens(Clauses(wheres)[..0])
  {}

  lemma ConditionStepLex(wheres: seq<Condition>, i: nat)
    requires i < |wheres| && NamedConditions(wheres)
    requires Lex(Sql(ConditionList(wheres[..i]))) == ClauseTokens(Clauses(wheres)[..i])
    requires Sql(ConditionList(wheres[..i + 1])) ==
               Sql(ConditionList(wheres[..i])) + (Separator(i, wheres[i]).s + B.ConditionText(wheres[i]))
    ensures Lex(Sql(ConditionList(wheres[..i + 1]))) == ClauseTokens(Clauses(wheres)[..i] + [Clauses(wheres)[i]])
  {
    NoConditions(wheres);
    hide Lex, Sql, ConditionList, B.ConditionText, ClauseTokens, ConditionTokens, JoiningWord;
    var cs := Clauses(wheres);
    ConditionNextLex(Sql(ConditionList(wheres[..i])), i, wheres[i]);
    if i > 0 {
      ClausesSnoc(cs[..i], cs[i]);
    } else {
      OneClause(cs[0]);
      assert cs[..0] + [cs[0]] == [cs[0]];
    }
  }

  lemma OneClause(c: Clause)
    ensures ClauseTokens([c]) == ConditionTokens(c) && ClauseTokens([]) == []
  {}

  lemma NoConditions(wheres: seq<Condition>)
    ensures Sql(ConditionList(wheres[..0])) == ""
  {}

  lemma KeywordLex(word: string, s: string)
    requires IsName(word)
    ensures Lex(" " + word + " " + s) == [Word(word)] + Lex(s)
  {
    LexEmpty();
    LexNext("", word);
    LexSpaceAfter("" + " " + word);
    assert "" + " " + word == " " + word;
    LexAppend(" " + word + " ", s);
  }

  lemma WholeConditionsLex(wheres: seq<Condition>)
    requires NamedConditions(wheres)
    ensures Lex(Sql(ConditionList(wheres))) == ClauseTokens(Clauses(wheres))
  {
    hide Lex, Sql, ClauseTokens, ConditionList, NamedConditions;
    ConditionsLex(wheres, |wheres|);
    assert wheres[..|wheres|] == wheres && Clauses(wheres)[..|wheres|] == Clauses(wheres);
  }

  lemma WhereLex(wheres: seq<Condition>)
    requires NamedConditions(wheres)
    ensures Lex(Sql(WherePieces(wheres))) == WhereTokens(Clauses(wheres))
  {
    LexEmpty();
    SqlOne(Text(" WHERE "));
    hide Lex, Sql, ClauseTokens, ConditionList, NamedConditions;
    if wheres == [] {
      NoPieces();
    } else {
      var list := ConditionList(wheres);
      WholeConditionsLex(wheres);
      SqlAppend([Text(" WHERE ")], list);
      KeywordLex("WHERE", Sql(list));
      assert " " + "WHERE" + " " == " WHERE ";
    }
  }

  lemma NoPieces()
    ensures Sql([]) == ""
  {}

  // ---------- the other clauses ----------

  lemma SetPiecesLex(sets: seq<SetClause>)
    requires AllNames(SetColumns(sets))
    ensures Lex(Sql(SetPieces(sets))) == SetTokens(SetColumns(sets))
  {
    LexEmpty();
    NoPieces();
    SqlOne(Text(" SET "));
    hide Lex, Sql, AssignmentTokens, SetList, Join, AllNames;
    if sets != [] {
      var list := SetList(sets);
      B.SetListText(sets);
      SetsLex(sets);
      SqlAppend([Text(" SET ")], list);
      KeywordLex("SET", Sql(list));
      assert " " + "SET" + " " == " SET ";
    }
  }

  function RowCounts(values: seq<seq<Value>>): seq<nat> {
    if values == [] then [] else Widths(|values|, |values[0]|)
  }

  lemma ValuePiecesLex(values: seq<seq<Value>>)
    ensures Lex(Sql(ValuePieces(values))) == ValueTokens(RowCounts(values))
  {
    LexEmpty();
    NoPieces();
    SqlOne(Text(" VALUES "));
    hide Lex, Sql, RowTokens, RowList, Join, Widths;
    if values != [] {
      var list := RowList(|values|, |values[0]|);
      B.RowListText(|values|, |values[0]|);
      RowsLex(|values|, |values[0]|);
      SqlAppend([Text(" VALUES ")], list);
      KeywordLex("VALUES", Sql(list));
      assert " " + "VALUES" + " " == " VALUES ";
    }
  }

  lemma ReturningLex(b: Builder)
    requires AllNames(b.returning)
    ensures Lex(ReturningText(b)) == ReturningTokens(b.returning)
  {
    if b.returning == [] {
      LexEmpty();
    } else {
      hide Lex, NameTokens;
      NamesLex(b.returning);
      KeywordLex("RETURNING", Join(b.returning, ", "));
      assert " " + "RETURNING" + " " == " RETURNING ";
    }
  }

  lemma TwoKeywordsLex(first: string, second: string, s: string)
    requires IsName(first) && IsName(second)
    ensures Lex(" " + first + " " + second + " " + s) == [Word(first), Word(second)] + Lex(s)
  {
    LexEmpty();
    hide Lex;
    KeywordLex(second, s);
    LexNext("", first);
    assert "" + " " + first == " " + first;
    LexAppend(" " + first, " " + second + " " + s);
    assert " " + first + (" " + second + " " + s) == " " + first + " " + second + " " + s;
  }

  lemma ByWords()
    ensures " " + "GROUP" + " " + "BY" + " " == " GROUP BY " && " " + "ORDER" + " " + "BY" + " " == " ORDER BY "
  {}

  lemma GroupLex(b: Builder)
    requires AllNames(b.groupBy)
    ensures Lex(GroupText(b)) == GroupTokens(b.groupBy)
  {
    if b.groupBy == [] {
      LexEmpty();
    } else {
      hide Lex, NameTokens;
      NamesLex(b.groupBy);
      TwoKeywordsLex("GROUP", "BY", Join(b.groupBy, ", "));
      ByWords();
    }
  }

  lemma OrderByLex(b: Builder)
    requires forall i :: 0 <= i < |b.orderBy| ==> IsName(b.orderBy[i].column)
    ensures Lex(OrderText(b)) == OrderByTokens(OrderTerms(b.orderBy))
  {
    if b.orderBy == [] {
      LexEmpty();
    } else {
      hide Lex, OrderTokens, Join, OrderList, OrderTerms;
      OrdersLex(b.orderBy);
      TwoKeywordsLex("ORDER", "BY", Join(OrderList(b.orderBy), ", "));
      ByWords();
    }
  }

  function HavingTokens(having: string): seq<Token> { if having == "" then [] else [Word("HAVING")] + Lex(having) }

  lemma HavingLex(b: Builder)
    ensures Lex(HavingText(b)) == HavingTokens(b.having)
  {
    if b.having == "" {
      LexEmpty();
    } else {
      hide Lex;
      KeywordLex("HAVING", b.having);
      assert " " + "HAVING" + " " == " HAVING ";
    }
  }

  lemma NumberName(n: nat)
    ensures IsName(ShowNat(n))
  {}

  lemma BoundLex(word: string, n: nat)
    requires IsName(word)
    ensures Lex(if n == 0 then "" else " " + word + " " + ShowNat(n)) == BoundTokens(word, n)
  {
    LexEmpty();
    if n > 0 {
      NumberName(n);
      hide Lex, ShowNat;
      LexName(ShowNat(n));
      KeywordLex(word, ShowNat(n));
    }
  }

  function Positive(n: int): nat { if n > 0 then n else 0 }

  lemma LimitLex(b: Builder)
    ensures Lex(LimitText(b)) == BoundTokens("LIMIT", Positive(b.limitVal))
    ensures Lex(OffsetText(b)) == BoundTokens("OFFSET", Positive(b.offsetVal))
  {
    hide Lex, BoundTokens, ShowNat;
    BoundLex("LIMIT", Positive(b.limitVal));
    BoundLex("OFFSET", Positive(b.offsetVal));
    assert " " + "LIMIT" + " " == " LIMIT " && " " + "OFFSET" + " " == " OFFSET ";
  }

  function UnionTokens(union: string): seq<Token> { if union == "" then [] else [Word("UNION")] + Lex(union) }

  lemma UnionLex(b: Builder)
    ensures Lex(UnionText(b)) == UnionTokens(b.unionSQL)
  {
    if b.unionSQL == "" {
      LexEmpty();
    } else {
      hide Lex;
      KeywordLex("UNION", b.unionSQL);
      assert " " + "UNION" + " " == " UNION ";
    }
  }

  function JoinTerms(joins: seq<JoinClause>): (r: seq<JoinTerm>)
    ensures |r| == |joins| && forall i :: 0 <= i < |joins| ==> r[i] == JoinTerm(joins[i].kind, joins[i].table, Lex(joins[i].on))
  {
    seq(|joins|, i requires 0 <= i < |joins| => JoinTerm(joins[i].kind, joins[i].table, Lex(joins[i].on)))
  }

  predicate NamedJoins(joins: seq<JoinClause>) {
    forall i :: 0 <= i < |joins| ==>
      && IsName(joins[i].kind) && !IsClauseWord(Word(joins[i].kind)) && IsName(joins[i].table) && IsPhrase(Lex(joins[i].on))
  }

  function JoinTermTokens(j: JoinTerm): seq<Token> { [Word(j.kind), Word("JOIN"), Word(j.table), Word("ON")] + j.on }

  lemma {:induction false} JoinTokensSnoc(joins: seq<JoinTerm>, j: JoinTerm)
    ensures JoinTokens(joins + [j]) == JoinTokens(joins) + JoinTermTokens(j)
    decreases |joins|
  {
    var all := joins + [j];
    if joins == [] {
      assert all == [j] && all[1..] == [];
    } else {
      assert all[1..] == joins[1..] + [j];
      JoinTokensSnoc(joins[1..], j);
    }
  }

  lemma JoinLex(before: string, j: JoinClause)
    requires IsName(j.kind) && IsName(j.table)
    ensures Lex(before + JoinClauseText(j)) == Lex(before) + JoinTermTokens(JoinTerm(j.kind, j.table, Lex(j.on)))
  {
    LexEmpty();
    hide Lex;
    var text := "" + " " + j.kind + " " + "JOIN" + " " + j.table + " " + "ON";
    LexNext("", j.kind);
    LexNext("" + " " + j.kind, "JOIN");
    LexNext("" + " " + j.kind + " " + "JOIN", j.table);
    LexNext("" + " " + j.kind + " " + "JOIN" + " " + j.table, "ON");
    LexSpaceAfter(text);
    LexAppend(text + " ", j.on);
    JoinWritten(j);
    LexAppend(before, JoinClauseText(j));
  }

  lemma JoinWritten(j: JoinClause)
    ensures "" + " " + j.kind + " " + "JOIN" + " " + j.table + " " + "ON" + " " + j.on == JoinClauseText(j)
  {
    assert " " + j.kind + " " + "JOIN" + " " == " " + j.kind + " JOIN ";
    assert " " + j.kind + " JOIN " + j.table + " " + "ON" + " " == " " + j.kind + " JOIN " + j.table + " ON ";
    assert "" + " " == " ";
  }

  lemma JoinTextSnoc(joins: seq<JoinClause>)
    requires joins != []
    ensures JoinText(joins) == JoinText(joins[..|joins| - 1]) + JoinClauseText(joins[|joins| - 1])
  {}

  lemma NoJoinsLex()
    ensures Lex(JoinText([])) == JoinTokens(JoinTerms([]))
  {}

  lemma {:induction false} JoinsLex(joins: seq<JoinClause>)
    requires NamedJoins(joins)
    ensures Lex(JoinText(joins)) == JoinTokens(JoinTerms(joins))
    decreases |joins|
  {
    hide Lex, JoinText, JoinClauseText, JoinTokens, JoinTermTokens;
    if |joins| == 0 {
      NoJoinsLex();
      assert joins == [];
    } else {
      var n := |joins| - 1;
      JoinsLex(joins[..n]);
      JoinTextSnoc(joins);
      JoinLex(JoinText(joins[..n]), joins[n]);
      assert JoinTerms(joins) == JoinTerms(joins[..n]) + [JoinTerms(joins)[n]];
      JoinTokensSnoc(JoinTerms(joins[..n]), JoinTerms(joins)[n]);
    }
  }
}
