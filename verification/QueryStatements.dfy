/** The query builder writes what was called for. */
module QueryStatements {
  // Whole statements of go/vedadb/query_builder.go, read back and compared with the calls.

  import opened QueryTexts
  import opened QueryReadings
  import opened SqlReading
  import opened SqlPhrases

  // ---------- the statement of a builder ----------

  /** The statement that the fields of a builder stand for. */
  function Written(b: Builder): Statement
    requires b.op != NoOp
  {
    match b.op
    case SelectOp =>
      Select(if b.columns == [] then ["*"] else b.columns, b.table, JoinTerms(b.joins), Clauses(b.wheres), b.groupBy,
             Lex(b.having), OrderTerms(b.orderBy), Positive(b.limitVal), Positive(b.offsetVal), Lex(b.unionSQL))
    case InsertOp => Insert(b.table, b.columns, RowCounts(b.values), b.returning)
    case UpdateOp => Update(b.table, SetColumns(b.sets), Clauses(b.wheres), b.returning)
    case DeleteOp => Delete(b.table, Clauses(b.wheres), b.returning)
  }

  predicate NamedOrders(orders: seq<Order>) { forall i :: 0 <= i < |orders| ==> IsName(orders[i].column) }

  /** The names are words, and the expressions of joins and HAVING hold no word that begins a clause. */
  predicate NamedBuilder(b: Builder) {
    && IsName(b.table) && AllNames(b.columns) && NamedJoins(b.joins) && NamedConditions(b.wheres)
    && AllNames(SetColumns(b.sets)) && AllNames(b.groupBy) && IsPhrase(Lex(b.having)) && NamedOrders(b.orderBy)
    && AllNames(b.returning)
  }

  /** The tokens begin with one of the words, if there are any. */
  predicate Begins(ts: seq<Token>, words: seq<string>) { ts == [] || (ts[0].Word? && ts[0].text in words) }

  lemma BeginsMore(p: seq<Token>, rest: seq<Token>, word: string, words: seq<string>)
    requires p == [] || p[0] == Word(word)
    requires Begins(rest, words)
    ensures Begins(p + rest, [word] + words)
  {
    if p == [] {
      assert p + rest == rest;
    }
  }

  const AFTER_WHERE := ["GROUP", "HAVING", "ORDER", "LIMIT", "OFFSET", "UNION"]

  // ---------- SELECT ----------

  function UnionPart(b: Builder): seq<Token> { UnionTokens(b.unionSQL) }

  function OffsetPart(b: Builder): seq<Token> { BoundTokens("OFFSET", Positive(b.offsetVal)) + UnionPart(b) }

  function LimitPart(b: Builder): seq<Token> { BoundTokens("LIMIT", Positive(b.limitVal)) + OffsetPart(b) }

  function OrderPart(b: Builder): seq<Token> { OrderByTokens(OrderTerms(b.orderBy)) + LimitPart(b) }

  function HavingPart(b: Builder): seq<Token> { HavingTokens(b.having) + OrderPart(b) }

  function GroupPart(b: Builder): seq<Token> { GroupTokens(b.groupBy) + HavingPart(b) }

  function WherePart(b: Builder): seq<Token> { WhereTokens(Clauses(b.wheres)) + GroupPart(b) }

  function JoinPart(b: Builder): seq<Token> { JoinTokens(JoinTerms(b.joins)) + WherePart(b) }

  lemma UnionBegins(b: Builder)
    ensures Begins(UnionPart(b), ["UNION"])
  {}

  lemma OffsetBegins(b: Builder)
    ensures Begins(OffsetPart(b), ["OFFSET", "UNION"])
  {
    UnionBegins(b);
    BeginsMore(BoundTokens("OFFSET", Positive(b.offsetVal)), UnionPart(b), "OFFSET", ["UNION"]);
  }

  lemma LimitBegins(b: Builder)
    ensures Begins(LimitPart(b), ["LIMIT", "OFFSET", "UNION"])
  {
    OffsetBegins(b);
    hide OffsetPart;
    BeginsMore(BoundTokens("LIMIT", Positive(b.limitVal)), OffsetPart(b), "LIMIT", ["OFFSET", "UNION"]);
  }

  lemma OrderBegins(b: Builder)
    ensures Begins(OrderPart(b), ["ORDER", "LIMIT", "OFFSET", "UNION"])
  {
    LimitBegins(b);
    hide LimitPart, OrderTokens;
    BeginsMore(OrderByTokens(OrderTerms(b.orderBy)), LimitPart(b), "ORDER", ["LIMIT", "OFFSET", "UNION"]);
  }

  lemma HavingBegins(b: Builder)
    ensures Begins(HavingPart(b), ["HAVING", "ORDER", "LIMIT", "OFFSET", "UNION"])
  {
    OrderBegins(b);
    hide OrderPart, Lex;
    BeginsMore(HavingTokens(b.having), OrderPart(b), "HAVING", ["ORDER", "LIMIT", "OFFSET", "UNION"]);
  }

  lemma GroupBegins(b: Builder)
    ensures Begins(GroupPart(b), ["GROUP", "HAVING", "ORDER", "LIMIT", "OFFSET", "UNION"])
  {
    HavingBegins(b);
    hide HavingPart, NameTokens;
    BeginsMore(GroupTokens(b.groupBy), HavingPart(b), "GROUP", ["HAVING", "ORDER", "LIMIT", "OFFSET", "UNION"]);
  }

  lemma WhereBegins(b: Builder)
    ensures Begins(WherePart(b), ["WHERE", "GROUP", "HAVING", "ORDER", "LIMIT", "OFFSET", "UNION"])
  {
    GroupBegins(b);
    hide GroupPart, ClauseTokens;
    BeginsMore(WhereTokens(Clauses(b.wheres)), GroupPart(b), "WHERE", ["GROUP", "HAVING", "ORDER", "LIMIT", "OFFSET", "UNION"]);
  }

  /** What begins with a clause word can follow any clause. */
  lemma BeginsFollows(ts: seq<Token>, words: seq<string>)
    requires Begins(ts, words)
    requires forall w <- words :: w in ["WHERE", "GROUP", "HAVING", "ORDER", "LIMIT", "OFFSET", "UNION"]
    ensures Follows(ts) && !Starts(ts, Word("RETURNING"))
    ensures forall w :: w !in words ==> !Starts(ts, Word(w))
  {}

  lemma PhraseAfterHaving(p: seq<Token>, rest: seq<Token>)
    requires IsPhrase(p) && EndsPhrase(rest) && !Starts(rest, Word("JOIN"))
    ensures ReadHaving(([Word("HAVING")] + p) + rest) == Reads(p, rest)
  {
    hide ReadPhrase, EndsPhrase;
    var ts := ([Word("HAVING")] + p) + rest;
    assert ts[1..] == p + rest;
    PhraseRead(p, rest);
  }

  lemma HavingRead(having: string, rest: seq<Token>)
    requires IsPhrase(Lex(having)) && Follows(rest) && !Starts(rest, Word("HAVING")) && !Starts(rest, Word("RETURNING"))
    ensures ReadHaving(HavingTokens(having) + rest) == Reads(Lex(having), rest)
  {
    LexEmpty();
    PhraseEnds(rest);
    hide Lex, IsPhrase, EndsPhrase, Follows;
    if having == "" {
      assert HavingTokens(having) + rest == rest;
    } else {
      PhraseAfterHaving(Lex(having), rest);
    }
  }

  lemma PhraseEnds(rest: seq<Token>)
    requires Follows(rest) && !Starts(rest, Word("RETURNING"))
    ensures EndsPhrase(rest) && !Starts(rest, Word("JOIN"))
  {}

  lemma UnionRead(union: string)
    ensures ReadUnion(UnionTokens(union)) == Reads(Lex(union), [])
  {
    if union == "" {
      LexEmpty();
    } else {
      hide Lex;
      assert UnionTokens(union)[1..] == Lex(union);
    }
  }

  lemma GroupReads(b: Builder)
    ensures ReadGroupBy(GroupPart(b)) == Reads(b.groupBy, HavingPart(b))
  {
    HavingBegins(b);
    hide HavingPart, GroupTokens, ReadGroupBy, Begins;
    BeginsFollows(HavingPart(b), ["HAVING", "ORDER", "LIMIT", "OFFSET", "UNION"]);
    GroupRead(b.groupBy, HavingPart(b));
  }

  lemma HavingReads(b: Builder)
    requires IsPhrase(Lex(b.having))
    ensures ReadHaving(HavingPart(b)) == Reads(Lex(b.having), OrderPart(b))
  {
    OrderBegins(b);
    hide OrderPart, HavingTokens, ReadHaving, Lex, IsPhrase, Begins;
    BeginsFollows(OrderPart(b), ["ORDER", "LIMIT", "OFFSET", "UNION"]);
    HavingRead(b.having, OrderPart(b));
  }

  lemma OrderReads(b: Builder)
    ensures ReadOrderBy(OrderPart(b)) == Reads(OrderTerms(b.orderBy), LimitPart(b))
  {
    LimitBegins(b);
    hide LimitPart, OrderByTokens, ReadOrderBy, Begins;
    BeginsFollows(LimitPart(b), ["LIMIT", "OFFSET", "UNION"]);
    OrderByRead(OrderTerms(b.orderBy), LimitPart(b));
  }

  lemma EndReads(b: Builder)
    ensures ReadBound(LimitPart(b), "LIMIT") == Reads(Positive(b.limitVal), OffsetPart(b))
    ensures ReadBound(OffsetPart(b), "OFFSET") == Reads(Positive(b.offsetVal), UnionPart(b))
    ensures ReadUnion(UnionPart(b)) == Reads(Lex(b.unionSQL), [])
  {
    OffsetBegins(b);
    UnionBegins(b);
    hide Begins, ReadBound, ReadUnion, Lex, BoundTokens, UnionTokens;
    BeginsFollows(OffsetPart(b), ["OFFSET", "UNION"]);
    BeginsFollows(UnionPart(b), ["UNION"]);
    BoundRead("LIMIT", Positive(b.limitVal), OffsetPart(b));
    BoundRead("OFFSET", Positive(b.offsetVal), UnionPart(b));
    UnionRead(b.unionSQL);
  }

  lemma ClausesFirst(wheres: seq<Condition>)
    ensures Clauses(wheres) != [] ==> Clauses(wheres)[0].connective == And
  {}

  lemma JoinTermsOk(joins: seq<JoinClause>)
    requires NamedJoins(joins)
    ensures JoinsOk(JoinTerms(joins))
  {
    hide Lex;
  }

  lemma HeadReads(b: Builder)
    requires NamedJoins(b.joins)
    ensures ReadJoins(JoinPart(b)) == Reads(JoinTerms(b.joins), WherePart(b))
    ensures ReadWhere(WherePart(b)) == Reads(Clauses(b.wheres), GroupPart(b))
  {
    WhereBegins(b);
    GroupBegins(b);
    JoinTermsOk(b.joins);
    ClausesFirst(b.wheres);
    hide Begins, GroupPart, ReadJoins, ReadWhere, Lex, NamedJoins, JoinsOk, WhereTokens, JoinTokens;
    BeginsFollows(WherePart(b), ["WHERE", "GROUP", "HAVING", "ORDER", "LIMIT", "OFFSET", "UNION"]);
    BeginsFollows(GroupPart(b), ["GROUP", "HAVING", "ORDER", "LIMIT", "OFFSET", "UNION"]);
    JoinsRead(JoinTerms(b.joins), WherePart(b));
    WhereRead(Clauses(b.wheres), GroupPart(b));
  }

  /** The columns of a SELECT. */
  function Selected(b: Builder): seq<string> { if b.columns == [] then ["*"] else b.columns }

  lemma ColumnsRead(b: Builder)
    ensures
      var ts := NameTokens(Selected(b)) + ([Word("FROM"), Word(b.table)] + JoinPart(b));
      && ReadNames(ts) == Reads(Selected(b), [Word("FROM"), Word(b.table)] + JoinPart(b))
      && ReadKeyword([Word("FROM"), Word(b.table)] + JoinPart(b), "FROM") == Reads((), [Word(b.table)] + JoinPart(b))
      && ReadWord([Word(b.table)] + JoinPart(b)) == Reads(b.table, JoinPart(b))
  {
    hide JoinPart, NameTokens, ReadNames;
    var rest := [Word("FROM"), Word(b.table)] + JoinPart(b);
    NamesRead(Selected(b), rest);
    assert rest[1..] == [Word(b.table)] + JoinPart(b);
    assert ([Word(b.table)] + JoinPart(b))[1..] == JoinPart(b);
  }

  lemma SelectRead(b: Builder)
    requires b.op.SelectOp? && NamedBuilder(b)
    ensures
      ReadSelect(NameTokens(Selected(b)) + ([Word("FROM"), Word(b.table)] + JoinPart(b))) == Reads(Written(b), [])
  {
    ColumnsRead(b);
    HeadReads(b);
    GroupReads(b);
    HavingReads(b);
    OrderReads(b);
    EndReads(b);
    hide JoinPart, WherePart, GroupPart, HavingPart, OrderPart, LimitPart, OffsetPart, UnionPart, NameTokens, Lex,
         ReadNames, ReadKeyword, ReadWord, ReadJoins, ReadWhere, ReadGroupBy, ReadHaving, ReadOrderBy, ReadBound, ReadUnion,
         NamedBuilder;
  }

  // ---------- the text of a SELECT ----------

  lemma TailLex(b: Builder)
    requires NamedBuilder(b)
    ensures Lex(SelectTail(b)) == GroupPart(b)
  {
    GroupLex(b);
    HavingLex(b);
    OrderByLex(b);
    LimitLex(b);
    UnionLex(b);
    hide Lex, GroupTokens, HavingTokens, OrderByTokens, BoundTokens, UnionTokens, OrderTerms, NamedBuilder;
    TextsApart(b);
    hide GroupText, HavingText, OrderText, LimitText, OffsetText, UnionText;
    LexAppend(GroupText(b), HavingText(b));
    LexAppend(GroupText(b) + HavingText(b), OrderText(b));
    LexAppend(LimitText(b), OffsetText(b));
    LexAppend(GroupText(b) + HavingText(b) + OrderText(b), LimitText(b) + OffsetText(b));
    LexAppend(GroupText(b) + HavingText(b) + OrderText(b) + (LimitText(b) + OffsetText(b)), UnionText(b));
    TailRegrouped(GroupTokens(b.groupBy), HavingTokens(b.having), OrderByTokens(OrderTerms(b.orderBy)),
                  BoundTokens("LIMIT", Positive(b.limitVal)), BoundTokens("OFFSET", Positive(b.offsetVal)),
                  UnionTokens(b.unionSQL));
  }

  lemma TailRegrouped<T>(a: seq<T>, b: seq<T>, c: seq<T>, d: seq<T>, e: seq<T>, f: seq<T>)
    ensures ((a + b) + c) + (d + e) + f == a + (b + (c + (d + (e + f))))
  {}

  /** A text that is empty or begins with a space stands apart from what is before it. */
  predicate Spaced(s: string) { s == "" || s[0] == ' ' }

  lemma SpacedApart(s: string, t: string)
    requires Spaced(t)
    ensures Apart(s, t)
  {}

  lemma TextsSpaced(b: Builder)
    ensures Spaced(HavingText(b)) && Spaced(OrderText(b)) && Spaced(OffsetText(b)) && Spaced(UnionText(b)) && Spaced(GroupText(b))
    ensures Spaced(LimitText(b)) && Spaced(LimitText(b) + OffsetText(b))
  {}

  lemma TextsApart(b: Builder)
    ensures Apart(GroupText(b), HavingText(b)) && Apart(GroupText(b) + HavingText(b), OrderText(b))
    ensures Apart(LimitText(b), OffsetText(b))
    ensures Apart(GroupText(b) + HavingText(b) + OrderText(b), LimitText(b) + OffsetText(b))
    ensures Apart(GroupText(b) + HavingText(b) + OrderText(b) + (LimitText(b) + OffsetText(b)), UnionText(b))
  {
    TextsSpaced(b);
    hide GroupText, HavingText, OrderText, LimitText, OffsetText, UnionText, Apart;
    SpacedApart(GroupText(b), HavingText(b));
    SpacedApart(GroupText(b) + HavingText(b), OrderText(b));
    SpacedApart(LimitText(b), OffsetText(b));
    SpacedApart(GroupText(b) + HavingText(b) + OrderText(b), LimitText(b) + OffsetText(b));
    SpacedApart(GroupText(b) + HavingText(b) + OrderText(b) + (LimitText(b) + OffsetText(b)), UnionText(b));
  }

  lemma FirstWordLex(word: string, s: string)
    requires IsName(word)
    ensures Lex(word + " " + s) == [Word(word)] + Lex(s)
  {
    LexName(word);
    hide Lex;
    LexSpaceAfter(word);
    LexAppend(word + " ", s);
  }

  lemma SelectedLex(b: Builder)
    requires AllNames(b.columns)
    ensures
      Lex(if b.columns == [] then "SELECT *" else "SELECT " + Join(b.columns, ", ")) ==
        [Word("SELECT")] + NameTokens(Selected(b))
  {
    hide Lex, NameTokens, Join;
    StarJoined();
    NamesLex(Selected(b));
    FirstWordLex("SELECT", Join(Selected(b), ", "));
    assert "SELECT" + " " == "SELECT ";
  }

  lemma StarJoined()
    ensures Join(["*"], ", ") == "*" && "SELECT" + " " + "*" == "SELECT *"
  {}

  lemma FromText(start: string, table: string)
    ensures start + " " + "FROM" + " " + table == start + " FROM " + table
  {
    assert " " + "FROM" + " " == " FROM ";
  }

  lemma FromLex(start: string, table: string)
    requires IsName(table)
    ensures Lex(start + " FROM " + table) == Lex(start) + [Word("FROM"), Word(table)]
  {
    hide Lex;
    LexNext(start, "FROM");
    LexNext(start + " " + "FROM", table);
    FromText(start, table);
  }

  lemma HeadLex(b: Builder)
    requires NamedBuilder(b)
    ensures
      Lex(SelectHead(b)) ==
        [Word("SELECT")] + NameTokens(Selected(b)) + [Word("FROM"), Word(b.table)] + JoinTokens(JoinTerms(b.joins))
  {
    var start := if b.columns == [] then "SELECT *" else "SELECT " + Join(b.columns, ", ");
    SelectedLex(b);
    JoinsLex(b.joins);
    JoinTextSpaced(b.joins);
    hide Lex, NameTokens, JoinTokens, JoinTerms, JoinText, Join, NamedJoins, AllNames, Selected, Spaced;
    FromLex(start, b.table);
    SpacedApart(start + " FROM " + b.table, JoinText(b.joins));
    LexAppend(start + " FROM " + b.table, JoinText(b.joins));
  }

  lemma {:induction false} JoinTextSpaced(joins: seq<JoinClause>)
    ensures Spaced(JoinText(joins))
    decreases |joins|
  {
    if joins != [] {
      JoinTextSpaced(joins[..|joins| - 1]);
    }
  }

  lemma WhereTextSpaced(wheres: seq<Condition>)
    ensures Spaced(Sql(WherePieces(wheres)))
  {
    SqlOne(Text(" WHERE "));
    if wheres == [] {
      NoPieces();
    } else {
      SqlAppend([Text(" WHERE ")], ConditionList(wheres));
    }
  }

  lemma TailSpaced(b: Builder)
    ensures Spaced(SelectTail(b))
  {
    TextsSpaced(b);
    hide GroupText, HavingText, OrderText, LimitText, OffsetText, UnionText;
  }

  lemma SelectLex(b: Builder)
    requires b.op.SelectOp? && NamedBuilder(b)
    ensures
      Lex(Sql(Build(b))) == [Word("SELECT")] + (NameTokens(Selected(b)) + ([Word("FROM"), Word(b.table)] + JoinPart(b)))
  {
    var head, where, tail := SelectHead(b), WherePieces(b.wheres), SelectTail(b);
    HeadLex(b);
    WhereLex(b.wheres);
    TailLex(b);
    WhereTextSpaced(b.wheres);
    TailSpaced(b);
    hide Lex, Sql, SelectHead, SelectTail, WherePieces, NameTokens, JoinTokens, JoinTerms, WhereTokens, Clauses, GroupPart,
         NamedBuilder;
    SqlBetween(head, where, tail);
    SpacedApart(head, Sql(where));
    LexAppend(head, Sql(where));
    SpacedApart(head + Sql(where), tail);
    LexAppend(head + Sql(where), tail);
    SelectRegrouped([Word("SELECT")], NameTokens(Selected(b)), [Word("FROM"), Word(b.table)], JoinTokens(JoinTerms(b.joins)),
                    WhereTokens(Clauses(b.wheres)), GroupPart(b));
  }

  lemma SelectRegrouped<T>(a: seq<T>, b: seq<T>, c: seq<T>, d: seq<T>, e: seq<T>, f: seq<T>)
    ensures (a + b + c + d) + e + f == a + (b + (c + (d + (e + f))))
  {}

  // ---------- INSERT, UPDATE and DELETE ----------

  function ColumnListTokens(names: seq<string>): seq<Token> {
    if names == [] then [] else [Punct('(')] + NameTokens(names) + [Punct(')')]
  }

  lemma BracketRead(p: seq<Token>, names: seq<string>, rest: seq<Token>)
    requires ReadNames(p + ([Punct(')')] + rest)) == Reads(names, [Punct(')')] + rest)
    ensures ReadColumnList(([Punct('(')] + p + [Punct(')')]) + rest) == Reads(names, rest)
  {
    hide ReadNames;
    var ts := ([Punct('(')] + p + [Punct(')')]) + rest;
    assert ts[1..] == p + ([Punct(')')] + rest);
    assert ([Punct(')')] + rest)[1..] == rest;
  }

  lemma ColumnListRead(names: seq<string>, rest: seq<Token>)
    requires !Starts(rest, Punct('('))
    ensures ReadColumnList(ColumnListTokens(names) + rest) == Reads(names, rest)
  {
    if names == [] {
      assert ColumnListTokens(names) + rest == rest;
    } else {
      hide NameTokens, ReadNames, ReadColumnList;
      NamesRead(names, [Punct(')')] + rest);
      BracketRead(NameTokens(names), names, rest);
    }
  }

  lemma ColumnListLex(names: seq<string>)
    requires AllNames(names)
    ensures Lex(if names == [] then "" else " (" + Join(names, ", ") + ")") == ColumnListTokens(names)
  {
    LexEmpty();
    hide Lex, NameTokens, Join;
    if names != [] {
      var list := Join(names, ", ");
      NamesLex(names);
      LexBetween('(', list, ')');
      LexSpace("(" + list + ")");
      assert " " + ("(" + list + ")") == " (" + list + ")";
    }
  }

  function ReturningPart(b: Builder): seq<Token> { ReturningTokens(b.returning) }

  lemma ReturningBegins(b: Builder)
    ensures Begins(ReturningPart(b), ["RETURNING"]) && Follows(ReturningPart(b)) && !Starts(ReturningPart(b), Word("WHERE"))
    ensures Spaced(ReturningText(b))
  {}

  lemma InsertWordsLex(table: string)
    requires IsName(table)
    ensures Lex("INSERT INTO " + table) == [Word("INSERT")] + [Word("INTO"), Word(table)]
  {
    hide Lex;
    LexWords("INSERT", "INTO");
    LexNext("INSERT" + " " + "INTO", table);
    InsertText(table);
  }

  lemma ColumnListSpaced(names: seq<string>)
    ensures Spaced(if names == [] then "" else " (" + Join(names, ", ") + ")")
  {}

  lemma InsertHeadLex(b: Builder)
    requires IsName(b.table) && AllNames(b.columns)
    ensures Lex(InsertHead(b)) == ([Word("INSERT")] + [Word("INTO"), Word(b.table)]) + ColumnListTokens(b.columns)
  {
    var list := if b.columns == [] then "" else " (" + Join(b.columns, ", ") + ")";
    ColumnListLex(b.columns);
    ColumnListSpaced(b.columns);
    InsertWordsLex(b.table);
    hide Lex, ColumnListTokens, Join, AllNames, IsName, Spaced;
    SpacedApart("INSERT INTO " + b.table, list);
    LexAppend("INSERT INTO " + b.table, list);
  }

  lemma InsertText(table: string)
    ensures "INSERT" + " " + "INTO" + " " + table == "INSERT INTO " + table
  {
    assert "INSERT" + " " + "INTO" + " " == "INSERT INTO ";
  }

  function ValuePart(b: Builder): seq<Token> { ValueTokens(RowCounts(b.values)) + ReturningPart(b) }

  lemma ValuesSpaced(values: seq<seq<Value>>)
    ensures Spaced(Sql(ValuePieces(values)))
  {
    SqlOne(Text(" VALUES "));
    if values == [] {
      NoPieces();
    } else {
      SqlAppend([Text(" VALUES ")], RowList(|values|, |values[0]|));
    }
  }

  lemma SetsSpaced(sets: seq<SetClause>)
    ensures Spaced(Sql(SetPieces(sets)))
  {
    SqlOne(Text(" SET "));
    if sets == [] {
      NoPieces();
    } else {
      SqlAppend([Text(" SET ")], SetList(sets));
    }
  }

  /** Three texts one after the other. */
  lemma ThreeLex(head: string, middle: string, tail: string)
    requires Spaced(middle) && Spaced(tail)
    ensures Lex(head + middle + tail) == Lex(head) + (Lex(middle) + Lex(tail))
  {
    hide Lex, Spaced;
    SpacedApart(head, middle);
    LexAppend(head, middle);
    SpacedApart(head + middle, tail);
    LexAppend(head + middle, tail);
  }

  lemma InsertLex(b: Builder)
    requires b.op.InsertOp? && NamedBuilder(b)
    ensures
      Lex(Sql(Build(b))) == [Word("INSERT")] + ([Word("INTO"), Word(b.table)] + (ColumnListTokens(b.columns) + ValuePart(b)))
  {
    InsertHeadLex(b);
    ReturningLex(b);
    hide NamedBuilder;
    ValuePiecesLex(b.values);
    ValuesSpaced(b.values);
    ReturningBegins(b);
    hide Lex, Sql, InsertHead, ReturningText, ValuePieces, ColumnListTokens, ValueTokens, RowCounts, ReturningTokens, Begins,
         Follows, Spaced;
    SqlBetween(InsertHead(b), ValuePieces(b.values), ReturningText(b));
    ThreeLex(InsertHead(b), Sql(ValuePieces(b.values)), ReturningText(b));
    ThreeRegrouped([Word("INSERT")], [Word("INTO"), Word(b.table)], ColumnListTokens(b.columns), ValuePart(b));
  }

  lemma ThreeRegrouped<T>(a: seq<T>, b: seq<T>, c: seq<T>, d: seq<T>)
    ensures (a + b + c) + d == a + (b + (c + d))
  {}

  lemma ValuePartStarts(b: Builder)
    ensures !Starts(ValuePart(b), Punct('('))
  {
    ReturningBegins(b);
    hide RowTokens, RowCounts, ReturningPart;
    if RowCounts(b.values) == [] {
      assert ValuePart(b) == ReturningPart(b);
    }
  }

  lemma InsertRead(b: Builder)
    requires b.op.InsertOp?
    ensures
      ReadInsert([Word("INTO"), Word(b.table)] + (ColumnListTokens(b.columns) + ValuePart(b))) == Reads(Written(b), [])
  {
    ValuePartStarts(b);
    ReturningBegins(b);
    hide ColumnListTokens, ValueTokens, RowCounts, ReturningTokens, ReadColumnList, ReadValues, ReadReturning, Lex, Follows;
    var list := ColumnListTokens(b.columns) + ValuePart(b);
    var ts := [Word("INTO"), Word(b.table)] + list;
    assert ts[1..] == [Word(b.table)] + list && ([Word(b.table)] + list)[1..] == list;
    ColumnListRead(b.columns, ValuePart(b));
    ValuesRead(RowCounts(b.values), ReturningPart(b));
    ReturningRead(b.returning);
  }

  /** The conditions and RETURNING of UPDATE and DELETE. */
  function ChangePart(b: Builder): seq<Token> { WhereTokens(Clauses(b.wheres)) + ReturningPart(b) }

  lemma ChangeBegins(b: Builder)
    ensures Follows(ChangePart(b))
    ensures ReadWhere(ChangePart(b)) == Reads(Clauses(b.wheres), ReturningPart(b))
  {
    ReturningBegins(b);
    ClausesFirst(b.wheres);
    WhereRead(Clauses(b.wheres), ReturningPart(b));
    hide ReadWhere, ClauseTokens, Clauses, ReturningPart;
    if Clauses(b.wheres) == [] {
      assert ChangePart(b) == ReturningPart(b);
    }
  }

  lemma DeleteLex(b: Builder)
    requires b.op.DeleteOp? && NamedBuilder(b)
    ensures Lex(Sql(Build(b))) == [Word("DELETE")] + ([Word("FROM"), Word(b.table)] + ChangePart(b))
  {
    WhereLex(b.wheres);
    ReturningLex(b);
    WhereTextSpaced(b.wheres);
    ReturningBegins(b);
    DeleteHeadLex(b.table);
    hide Lex, Sql, ReturningText, WherePieces, WhereTokens, Clauses, ReturningTokens, NamedBuilder;
    SqlBetween("DELETE FROM " + b.table, WherePieces(b.wheres), ReturningText(b));
    ThreeLex("DELETE FROM " + b.table, Sql(WherePieces(b.wheres)), ReturningText(b));
    TwoRegrouped([Word("DELETE")], [Word("FROM"), Word(b.table)], ChangePart(b));
  }

  lemma TwoRegrouped<T>(a: seq<T>, b: seq<T>, c: seq<T>)
    ensures (a + b) + c == a + (b + c)
  {}

  lemma DeleteHeadLex(table: string)
    requires IsName(table)
    ensures Lex("DELETE FROM " + table) == [Word("DELETE")] + [Word("FROM"), Word(table)]
  {
    hide Lex;
    LexName("DELETE");
    FromLex("DELETE", table);
    assert "DELETE" + " FROM " == "DELETE FROM ";
  }

  lemma DeleteRead(b: Builder)
    requires b.op.DeleteOp?
    ensures ReadDelete([Word("FROM"), Word(b.table)] + ChangePart(b)) == Reads(Written(b), [])
  {
    ChangeBegins(b);
    hide ChangePart, ReturningTokens, ReadWhere, ReadReturning, Lex, Clauses;
    var ts := [Word("FROM"), Word(b.table)] + ChangePart(b);
    assert ts[1..] == [Word(b.table)] + ChangePart(b) && ([Word(b.table)] + ChangePart(b))[1..] == ChangePart(b);
    ReturningRead(b.returning);
  }

  function SetPart(b: Builder): seq<Token> { SetTokens(SetColumns(b.sets)) + ChangePart(b) }

  lemma UpdateLex(b: Builder)
    requires b.op.UpdateOp? && NamedBuilder(b)
    ensures Lex(Sql(Build(b))) == [Word("UPDATE")] + ([Word(b.table)] + SetPart(b))
  {
    SetPiecesLex(b.sets);
    WhereLex(b.wheres);
    ReturningLex(b);
    SetsSpaced(b.sets);
    WhereTextSpaced(b.wheres);
    ReturningBegins(b);
    UpdateHeadLex(b.table);
    hide Lex, Sql, ReturningText, WherePieces, SetPieces, WhereTokens, SetTokens, Clauses, SetColumns, ReturningTokens, NamedBuilder;
    var sets, where, returning := Sql(SetPieces(b.sets)), Sql(WherePieces(b.wheres)), ReturningText(b);
    B.SqlBetweenTwo("UPDATE " + b.table, SetPieces(b.sets), WherePieces(b.wheres), returning);
    UpdateText("UPDATE " + b.table, sets, where, returning);
    ThreeLex("UPDATE " + b.table + sets, where, returning);
    SpacedApart("UPDATE " + b.table, sets);
    LexAppend("UPDATE " + b.table, sets);
    UpdateRegrouped([Word("UPDATE")], [Word(b.table)], SetTokens(SetColumns(b.sets)), ChangePart(b));
  }

  lemma UpdateText(head: string, sets: string, where: string, returning: string)
    ensures head + (sets + where) + returning == head + sets + where + returning
  {}

  lemma UpdateRegrouped<T>(a: seq<T>, b: seq<T>, c: seq<T>, d: seq<T>)
    ensures ((a + b) + c) + d == a + (b + (c + d))
  {}

  lemma UpdateHeadLex(table: string)
    requires IsName(table)
    ensures Lex("UPDATE " + table) == [Word("UPDATE")] + [Word(table)]
  {
    hide Lex;
    LexWords("UPDATE", table);
    assert "UPDATE" + " " == "UPDATE ";
  }

  lemma UpdateRead(b: Builder)
    requires b.op.UpdateOp?
    ensures ReadUpdate([Word(b.table)] + SetPart(b)) == Reads(Written(b), [])
  {
    ChangeBegins(b);
    hide ChangePart, SetTokens, SetColumns, ReturningTokens, ReadSets, ReadWhere, ReadReturning, Lex, Clauses, Follows;
    var ts := [Word(b.table)] + SetPart(b);
    assert ts[1..] == SetPart(b);
    SetsRead(SetColumns(b.sets), ChangePart(b));
    ReturningRead(b.returning);
  }

  // ---------- any statement ----------

  lemma StatementRead(text: string, word: string, ts: seq<Token>, statement: Statement)
    requires Lex(text) == [Word(word)] + ts
    requires word == "SELECT" ==> ReadSelect(ts) == Reads(statement, [])
    requires word == "INSERT" ==> ReadInsert(ts) == Reads(statement, [])
    requires word == "UPDATE" ==> ReadUpdate(ts) == Reads(statement, [])
    requires word == "DELETE" ==> ReadDelete(ts) == Reads(statement, [])
    requires word in ["SELECT", "INSERT", "UPDATE", "DELETE"]
    ensures ReadStatement(text) == Reads(statement, [])
  {
    hide Lex, ReadSelect, ReadInsert, ReadUpdate, ReadDelete;
    assert Lex(text)[1..] == ts;
  }

  /** What is written for a builder is read back as the statement that its fields stand for. */
  lemma BuildReads(b: Builder)
    requires b.op != NoOp && NamedBuilder(b)
    ensures ReadStatement(Sql(Build(b))) == Reads(Written(b), [])
  {
    hide Lex, ReadSelect, ReadInsert, ReadUpdate, ReadDelete, ReadStatement, Written, Sql, Build, NamedBuilder, NameTokens,
         Selected, JoinPart, ColumnListTokens, ValuePart, SetPart, ChangePart;
    var text := Sql(Build(b));
    match b.op {
      case SelectOp =>
        SelectLex(b);
        SelectRead(b);
        StatementRead(text, "SELECT", NameTokens(Selected(b)) + ([Word("FROM"), Word(b.table)] + JoinPart(b)), Written(b));
      case InsertOp =>
        InsertLex(b);
        InsertRead(b);
        StatementRead(text, "INSERT", [Word("INTO"), Word(b.table)] + (ColumnListTokens(b.columns) + ValuePart(b)), Written(b));
      case UpdateOp =>
        UpdateLex(b);
        UpdateRead(b);
        StatementRead(text, "UPDATE", [Word(b.table)] + SetPart(b), Written(b));
      case DeleteOp =>
        DeleteLex(b);
        DeleteRead(b);
        StatementRead(text, "DELETE", [Word("FROM"), Word(b.table)] + ChangePart(b), Written(b));
    }
  }
}
