/** A reader of the statements that the query builder of go/vedadb/query_builder.go writes: words, question marks and
    punctuation, and the clauses of SELECT, INSERT, UPDATE and DELETE. It knows nothing of how they are printed. */
module SqlReading {
  import opened SqlText

  datatype Token = Word(text: string) | Punct(c: char)

  predicate IsPunct(c: char) { c == '(' || c == ')' || c == ',' || c == '?' }

  /** Part of a word. */
  predicate IsPlainChar(c: char) { c != ' ' && !IsPunct(c) }

  function WordLength(s: string): (k: nat)
    ensures k <= |s| && (s != [] && IsPlainChar(s[0]) ==> k > 0)
  {
    if s != [] && IsPlainChar(s[0]) then 1 + WordLength(s[1..]) else 0
  }

  function Lex(s: string): seq<Token>
    decreases |s|
  {
    if s == [] then []
    else if s[0] == ' ' then Lex(s[1..])
    else if IsPunct(s[0]) then [Punct(s[0])] + Lex(s[1..])
    else [Word(s[..WordLength(s)])] + Lex(s[WordLength(s)..])
  }

  // ---------- statements ----------

  datatype Connective = And | Or

  datatype Test = Compare(operator: string) | InList(count: nat) | IsNull | IsNotNull

  /** A condition, and how it is joined to the ones before it. */
  datatype Clause = Clause(connective: Connective, column: string, test: Test)

  datatype OrderTerm = OrderTerm(column: string, desc: bool)

  datatype JoinTerm = JoinTerm(kind: string, table: string, on: seq<Token>)

  datatype Statement =
    | Select(columns: seq<string>, table: string, joins: seq<JoinTerm>, wheres: seq<Clause>, groupBy: seq<string>,
             having: seq<Token>, orderBy: seq<OrderTerm>, limit: nat, offset: nat, union: seq<Token>)
    | Insert(table: string, columns: seq<string>, rows: seq<nat>, returning: seq<string>)
    | Update(table: string, sets: seq<string>, wheres: seq<Clause>, returning: seq<string>)
    | Delete(table: string, wheres: seq<Clause>, returning: seq<string>)

  // ---------- reading ----------

  /** What was read, and the tokens that follow. */
  datatype Parse<+T> = Fails | Reads(value: T, rest: seq<Token>) {
    predicate IsFailure() { Fails? }

    function PropagateFailure<U>(): Parse<U>
      requires Fails?
    {
      Fails
    }

    function Extract(): (T, seq<Token>)
      requires Reads?
    {
      (value, rest)
    }
  }

  predicate Starts(ts: seq<Token>, t: Token) { ts != [] && ts[0] == t }

  /** The word must come next. */
  function ReadKeyword(ts: seq<Token>, word: string): Parse<()> {
    if Starts(ts, Word(word)) then Reads((), ts[1..]) else Fails
  }

  function ReadPunct(ts: seq<Token>, c: char): Parse<()> {
    if Starts(ts, Punct(c)) then Reads((), ts[1..]) else Fails
  }

  function ReadWord(ts: seq<Token>): Parse<string> {
    if ts != [] && ts[0].Word? then Reads(ts[0].text, ts[1..]) else Fails
  }

  /** Words separated by commas. */
  function ReadNames(ts: seq<Token>): (r: Parse<seq<string>>)
    ensures r.Reads? ==> |r.rest| < |ts|
  {
    if ts == [] || !ts[0].Word? then Fails
    else if |ts| > 1 && ts[1] == Punct(',') then
      match ReadNames(ts[2..])
      case Fails => Fails
      case Reads(names, rest) => Reads([ts[0].text] + names, rest)
    else Reads([ts[0].text], ts[1..])
  }

  /** Question marks separated by commas; how many. */
  function ReadMarks(ts: seq<Token>): (r: Parse<nat>)
    ensures r.Reads? && |r.rest| <= |ts|
  {
    if !Starts(ts, Punct('?')) then Reads(0, ts)
    else if |ts| > 1 && ts[1] == Punct(',') then
      var r := ReadMarks(ts[2..]);
      Reads(r.value + 1, r.rest)
    else Reads(1, ts[1..])
  }

  /** Question marks in parentheses. */
  function ReadList(ts: seq<Token>): (r: Parse<nat>)
    ensures r.Reads? ==> |r.rest| < |ts|
  {
    if !Starts(ts, Punct('(')) then Fails
    else
      var marks := ReadMarks(ts[1..]);
      if Starts(marks.rest, Punct(')')) then Reads(marks.value, marks.rest[1..]) else Fails
  }

  function ReadTest(ts: seq<Token>): (r: Parse<Test>)
    ensures r.Reads? ==> |r.rest| < |ts|
  {
    if |ts| > 1 && ts[0] == Word("IN") && ts[1] == Punct('(') then
      match ReadList(ts[1..])
      case Fails => Fails
      case Reads(count, rest) => Reads(InList(count), rest)
    else if |ts| > 1 && ts[0] == Word("IS") && ts[1] == Word("NULL") then Reads(IsNull, ts[2..])
    else if |ts| > 2 && ts[0] == Word("IS") && ts[1] == Word("NOT") && ts[2] == Word("NULL") then Reads(IsNotNull, ts[3..])
    else if |ts| > 1 && ts[0].Word? && ts[1] == Punct('?') then Reads(Compare(ts[0].text), ts[2..])
    else Fails
  }

  /** A condition, and more after AND or OR. */
  function ReadConditions(ts: seq<Token>, connective: Connective): (r: Parse<seq<Clause>>)
    decreases |ts|
  {
    if ts == [] || !ts[0].Word? then Fails
    else
      match ReadTest(ts[1..])
      case Fails => Fails
      case Reads(test, rest) =>
        var clause := Clause(connective, ts[0].text, test);
        if Starts(rest, Word("AND")) || Starts(rest, Word("OR")) then
          match ReadConditions(rest[1..], if rest[0] == Word("AND") then And else Or)
          case Fails => Fails
          case Reads(clauses, rest') => Reads([clause] + clauses, rest')
        else Reads([clause], rest)
  }

  function ReadWhere(ts: seq<Token>): Parse<seq<Clause>> {
    if Starts(ts, Word("WHERE")) then ReadConditions(ts[1..], And) else Reads([], ts)
  }

  /** Assignments of question marks. */
  function ReadAssignments(ts: seq<Token>): Parse<seq<string>> {
    if |ts| < 3 || !ts[0].Word? || ts[1] != Word("=") || ts[2] != Punct('?') then Fails
    else if |ts| > 3 && ts[3] == Punct(',') then
      match ReadAssignments(ts[4..])
      case Fails => Fails
      case Reads(columns, rest) => Reads([ts[0].text] + columns, rest)
    else Reads([ts[0].text], ts[3..])
  }

  function ReadSets(ts: seq<Token>): Parse<seq<string>> {
    if Starts(ts, Word("SET")) then ReadAssignments(ts[1..]) else Reads([], ts)
  }

  /** Rows of question marks; how many in each. */
  function ReadRows(ts: seq<Token>): Parse<seq<nat>>
    decreases |ts|
  {
    match ReadList(ts)
    case Fails => Fails
    case Reads(count, rest) =>
      if Starts(rest, Punct(',')) then
        match ReadRows(rest[1..])
        case Fails => Fails
        case Reads(counts, rest') => Reads([count] + counts, rest')
      else Reads([count], rest)
  }

  function ReadValues(ts: seq<Token>): Parse<seq<nat>> {
    if Starts(ts, Word("VALUES")) then ReadRows(ts[1..]) else Reads([], ts)
  }

  /** The words that begin a clause. */
  predicate IsClauseWord(t: Token) {
    || t == Word("WHERE") || t == Word("GROUP") || t == Word("HAVING") || t == Word("ORDER")
    || t == Word("LIMIT") || t == Word("OFFSET") || t == Word("UNION") || t == Word("JOIN")
  }

  /** An expression that the reader does not look into ends before a clause or before the next join. */
  predicate EndsPhrase(ts: seq<Token>) {
    ts == [] || IsClauseWord(ts[0]) || (|ts| > 1 && ts[1] == Word("JOIN"))
  }

  function ReadPhrase(ts: seq<Token>): (r: Parse<seq<Token>>)
    ensures r.Reads? && |r.rest| <= |ts|
  {
    if EndsPhrase(ts) then Reads([], ts)
    else
      var r := ReadPhrase(ts[1..]);
      Reads([ts[0]] + r.value, r.rest)
  }

  function ReadJoins(ts: seq<Token>): Parse<seq<JoinTerm>>
    decreases |ts|
  {
    if |ts| < 2 || IsClauseWord(ts[0]) || ts[1] != Word("JOIN") then Reads([], ts)
    else if |ts| < 4 || !ts[0].Word? || !ts[2].Word? || ts[3] != Word("ON") then Fails
    else
      var on := ReadPhrase(ts[4..]);
      match ReadJoins(on.rest)
      case Fails => Fails
      case Reads(joins, rest) => Reads([JoinTerm(ts[0].text, ts[2].text, on.value)] + joins, rest)
  }

  function ReadGroupBy(ts: seq<Token>): Parse<seq<string>> {
    if |ts| > 1 && ts[0] == Word("GROUP") && ts[1] == Word("BY") then ReadNames(ts[2..]) else Reads([], ts)
  }

  function ReadHaving(ts: seq<Token>): Parse<seq<Token>> {
    if Starts(ts, Word("HAVING")) then ReadPhrase(ts[1..]) else Reads([], ts)
  }

  function ReadOrders(ts: seq<Token>): Parse<seq<OrderTerm>> {
    if |ts| < 2 || !ts[0].Word? || !(ts[1] == Word("ASC") || ts[1] == Word("DESC")) then Fails
    else
      var order := OrderTerm(ts[0].text, ts[1] == Word("DESC"));
      if |ts| > 2 && ts[2] == Punct(',') then
        match ReadOrders(ts[3..])
        case Fails => Fails
        case Reads(orders, rest) => Reads([order] + orders, rest)
      else Reads([order], ts[2..])
  }

  function ReadOrderBy(ts: seq<Token>): Parse<seq<OrderTerm>> {
    if |ts| > 1 && ts[0] == Word("ORDER") && ts[1] == Word("BY") then ReadOrders(ts[2..]) else Reads([], ts)
  }

  predicate IsNumber(t: Token) { t.Word? && forall i :: 0 <= i < |t.text| ==> IsDigit(t.text[i]) }

  /** A number after the word, if the word is there, and 0 otherwise. */
  function ReadBound(ts: seq<Token>, word: string): Parse<int> {
    if !Starts(ts, Word(word)) then Reads(0, ts)
    else if |ts| > 1 && IsNumber(ts[1]) then Reads(PlaceValue(ts[1].text), ts[2..])
    else Fails
  }

  /** The other statement is not looked into. */
  function ReadUnion(ts: seq<Token>): Parse<seq<Token>> {
    if Starts(ts, Word("UNION")) then Reads(ts[1..], []) else Reads([], ts)
  }

  function ReadReturning(ts: seq<Token>): Parse<seq<string>> {
    if Starts(ts, Word("RETURNING")) then ReadNames(ts[1..]) else Reads([], ts)
  }

  function ReadColumnList(ts: seq<Token>): Parse<seq<string>> {
    if !Starts(ts, Punct('(')) then Reads([], ts)
    else
      var (names, rest) :- ReadNames(ts[1..]);
      var (_, rest') :- ReadPunct(rest, ')');
      Reads(names, rest')
  }

  function ReadSelect(ts: seq<Token>): Parse<Statement> {
    var (columns, t0) :- ReadNames(ts);
    var (_, t1) :- ReadKeyword(t0, "FROM");
    var (table, t2) :- ReadWord(t1);
    var (joins, t3) :- ReadJoins(t2);
    var (wheres, t4) :- ReadWhere(t3);
    var (groupBy, t5) :- ReadGroupBy(t4);
    var (having, t6) :- ReadHaving(t5);
    var (orderBy, t7) :- ReadOrderBy(t6);
    var (limit, t8) :- ReadBound(t7, "LIMIT");
    var (offset, t9) :- ReadBound(t8, "OFFSET");
    var (union, t10) :- ReadUnion(t9);
    if limit < 0 || offset < 0 then Fails
    else Reads(Select(columns, table, joins, wheres, groupBy, having, orderBy, limit, offset, union), t10)
  }

  function ReadInsert(ts: seq<Token>): Parse<Statement> {
    var (_, t0) :- ReadKeyword(ts, "INTO");
    var (table, t1) :- ReadWord(t0);
    var (columns, t2) :- ReadColumnList(t1);
    var (rows, t3) :- ReadValues(t2);
    var (returning, t4) :- ReadReturning(t3);
    Reads(Insert(table, columns, rows, returning), t4)
  }

  function ReadUpdate(ts: seq<Token>): Parse<Statement> {
    var (table, t0) :- ReadWord(ts);
    var (sets, t1) :- ReadSets(t0);
    var (wheres, t2) :- ReadWhere(t1);
    var (returning, t3) :- ReadReturning(t2);
    Reads(Update(table, sets, wheres, returning), t3)
  }

  function ReadDelete(ts: seq<Token>): Parse<Statement> {
    var (_, t0) :- ReadKeyword(ts, "FROM");
    var (table, t1) :- ReadWord(t0);
    var (wheres, t2) :- ReadWhere(t1);
    var (returning, t3) :- ReadReturning(t2);
    Reads(Delete(table, wheres, returning), t3)
  }

  /** A whole text, read as one statement. */
  function ReadStatement(text: string): Parse<Statement> {
    var ts := Lex(text);
    if ts == [] then Fails
    else
      var read :=
        if ts[0] == Word("SELECT") then ReadSelect(ts[1..])
        else if ts[0] == Word("INSERT") then ReadInsert(ts[1..])
        else if ts[0] == Word("UPDATE") then ReadUpdate(ts[1..])
        else if ts[0] == Word("DELETE") then ReadDelete(ts[1..])
        else Fails;
      if read.Reads? && read.rest == [] then read else Fails
  }

  // ---------- lexing what is put together ----------

  /** A word of its own: not empty, without spaces and punctuation. */
  predicate IsName(s: string) { s != [] && forall i :: 0 <= i < |s| ==> IsPlainChar(s[i]) }

  /** No word goes on across the boundary. */
  predicate Apart(s: string, t: string) {
    s == [] || t == [] || !IsPlainChar(s[|s| - 1]) || !IsPlainChar(t[0])
  }

  lemma {:induction false} WordLengthAppend(s: string, t: string)
    requires Apart(s, t) && s != []
    ensures WordLength(s + t) == WordLength(s)
  {
    if IsPlainChar(s[0]) {
      assert (s + t)[1..] == s[1..] + t;
      if |s| > 1 {
        WordLengthAppend(s[1..], t);
      } else {
        assert s[1..] + t == t;
      }
    }
  }

  lemma {:induction false} WordLengthPlain(s: string)
    ensures forall i :: 0 <= i < WordLength(s) ==> IsPlainChar(s[i])
    ensures WordLength(s) < |s| ==> !IsPlainChar(s[WordLength(s)])
  {
    if s != [] && IsPlainChar(s[0]) {
      WordLengthPlain(s[1..]);
    }
  }

  lemma WordAppend(s: string, t: string)
    requires s != [] && Apart(s, t)
    ensures var k := WordLength(s); (s + t)[..k] == s[..k] && (s + t)[k..] == s[k..] + t && WordLength(s + t) == k
  {
    WordLengthAppend(s, t);
  }

  lemma {:induction false} LexAppend(s: string, t: string)
    requires Apart(s, t)
    ensures Lex(s + t) == Lex(s) + Lex(t)
    decreases |s|
  {
    if s == [] {
      assert s + t == t;
    } else if !IsPlainChar(s[0]) {
      assert (s + t)[1..] == s[1..] + t;
      LexAppend(s[1..], t);
    } else {
      WordAppend(s, t);
      LexAppend(s[WordLength(s)..], t);
      LexWord(s);
      LexWord(s + t);
    }
  }

  /** A text that begins with a word. */
  lemma LexWord(s: string)
    requires s != [] && IsPlainChar(s[0])
    ensures Lex(s) == [Word(s[..WordLength(s)])] + Lex(s[WordLength(s)..])
  {}

  lemma {:induction false} WholeWord(s: string)
    requires IsName(s)
    ensures WordLength(s) == |s|
  {
    if |s| > 1 {
      WholeWord(s[1..]);
    }
  }

  lemma LexName(s: string)
    requires IsName(s)
    ensures Lex(s) == [Word(s)]
  {
    WholeWord(s);
    LexWord(s);
    assert s[..|s|] == s && s[|s|..] == [];
  }

  lemma LexSpace(s: string)
    ensures Lex(" " + s) == Lex(s)
  {
    assert (" " + s)[1..] == s;
  }

  lemma LexPunct(c: char)
    requires IsPunct(c)
    ensures Lex([c]) == [Punct(c)]
  {
    assert [c][1..] == [];
  }
}
