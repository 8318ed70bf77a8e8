/** `parseWhereClause` and `matchesWhere` of src/utils.ts. */
module WhereClause {
  // The printed clause, read back with the lexer and the grammar of SQL and evaluated with its three-valued
  // logic, against the in-memory filter.

  import opened Wrappers
  import opened SqlText

  datatype Value = Undefined | Null | Bool(b: bool) | Int(n: int) | Str(s: string)

  /** A column and the value it is compared with. */
  datatype Entry = Entry(key: string, value: Value)

  // ---------- printing ----------

  function EscapeIdentifier(name: string): string { Quoted('"', name) }

  function EscapeValue(v: Value): string {
    match v
    case Undefined => "NULL"
    case Null => "NULL"
    case Bool(b) => if b then "TRUE" else "FALSE"
    case Int(n) => ShowInt(n)
    case Str(s) => Quoted('\'', s)
  }

  function PrintEntry(e: Entry): string {
    EscapeIdentifier(e.key) + " = " + EscapeValue(e.value)
  }

  /** `parseWhereClause`, which prints: the entries joined by AND. */
  function PrintWhere(w: seq<Entry>): string {
    if w == [] then []
    else if |w| == 1 then PrintEntry(w[0])
    else PrintEntry(w[0]) + " AND " + PrintWhere(w[1..])
  }

  // ---------- reading ----------

  datatype Token = Identifier(name: string) | Text(s: string) | Number(n: nat) | Minus | Equals | Word(word: string)

  predicate IsLetter(c: char) { 'A' <= c <= 'Z' }

  function LetterRun(s: string): (k: nat)
    ensures k <= |s| && (forall i :: 0 <= i < k ==> IsLetter(s[i])) && (k < |s| ==> !IsLetter(s[k]))
  {
    if s != [] && IsLetter(s[0]) then
      var k := LetterRun(s[1..]);
      assert forall i :: 0 < i < k + 1 ==> s[i] == s[1..][i - 1];
      k + 1
    else 0
  }

  function Prepend(t: Token, ts: Option<seq<Token>>): Option<seq<Token>> {
    match ts
    case None => None
    case Some(tokens) => Some([t] + tokens)
  }

  /** The tokens of a piece of SQL text. */
  function Lex(s: string): Option<seq<Token>>
    decreases |s|
  {
    if s == [] then Some([])
    else if s[0] == ' ' then Lex(s[1..])
    else if s[0] == '=' then Prepend(Equals, Lex(s[1..]))
    else if s[0] == '-' then Prepend(Minus, Lex(s[1..]))
    else if s[0] == '"' || s[0] == '\'' then
      match Scan(s[0], s[1..])
      case None => None
      case Some((content, rest)) =>
        ScanShape(s[0], s[1..]);
        Prepend(if s[0] == '"' then Identifier(content) else Text(content), Lex(rest))
    else if IsDigit(s[0]) then
      var k := DigitRun(s);
      Prepend(Number(ReadNat(s[..k])), Lex(s[k..]))
    else if IsLetter(s[0]) then
      var k := LetterRun(s);
      Prepend(Word(s[..k]), Lex(s[k..]))
    else None
  }

  /** A literal at the start of the tokens, and what follows it. */
  function ParseLiteral(ts: seq<Token>): Option<(Value, seq<Token>)> {
    if ts == [] then None
    else match ts[0]
      case Text(s) => Some((Str(s), ts[1..]))
      case Number(n) => Some((Int(n), ts[1..]))
      case Minus => if |ts| > 1 && ts[1].Number? then Some((Int(0 - ts[1].n), ts[2..])) else None
      case Word(word) =>
        if word == "TRUE" then Some((Bool(true), ts[1..]))
        else if word == "FALSE" then Some((Bool(false), ts[1..]))
        else if word == "NULL" then Some((Null, ts[1..]))
        else None
      case _ => None
  }

  /** A conjunction of comparisons. */
  function ParseConjunction(ts: seq<Token>): Option<seq<Entry>>
    decreases |ts|
  {
    if |ts| < 2 || !ts[0].Identifier? || !ts[1].Equals? then None
    else match ParseLiteral(ts[2..])
      case None => None
      case Some((value, rest)) =>
        var e := Entry(ts[0].name, value);
        if rest == [] then Some([e])
        else if rest[0] != Word("AND") || |rest| >= |ts| then None
        else match ParseConjunction(rest[1..])
          case None => None
          case Some(entries) => Some([e] + entries)
  }

  function ParseWhere(s: string): Option<seq<Entry>> {
    match Lex(s)
    case None => None
    case Some(ts) => if ts == [] then Some([]) else ParseConjunction(ts)
  }

  // ---------- the printed text has the tokens it should have ----------

  function ValueTokens(v: Value): seq<Token> {
    match v
    case Undefined => [Word("NULL")]
    case Null => [Word("NULL")]
    case Bool(b) => [Word(if b then "TRUE" else "FALSE")]
    case Int(n) => if n < 0 then [Minus, Number(-n)] else [Number(n)]
    case Str(s) => [Text(s)]
  }

  function EntryTokens(e: Entry): seq<Token> {
    [Identifier(e.key), Equals] + ValueTokens(e.value)
  }

  function WhereTokens(w: seq<Entry>): seq<Token> {
    if w == [] then []
    else if |w| == 1 then EntryTokens(w[0])
    else EntryTokens(w[0]) + [Word("AND")] + WhereTokens(w[1..])
  }

  function PrependAll(a: seq<Token>, ts: Option<seq<Token>>): Option<seq<Token>> {
    match ts
    case None => None
    case Some(tokens) => Some(a + tokens)
  }

  /** What may follow a token: the end, or a space. */
  predicate Stops(rest: string) { rest == [] || rest[0] == ' ' }

  lemma {:induction false} LetterRunAppend(letters: string, rest: string)
    requires (forall i :: 0 <= i < |letters| ==> IsLetter(letters[i])) && Stops(rest)
    ensures LetterRun(letters + rest) == |letters|
  {
    if letters == [] {
      assert letters + rest == rest;
    } else {
      assert (letters + rest)[1..] == letters[1..] + rest;
      LetterRunAppend(letters[1..], rest);
    }
  }

  lemma LexWord(word: string, rest: string)
    requires word != [] && (forall i :: 0 <= i < |word| ==> IsLetter(word[i])) && Stops(rest)
    ensures Lex(word + rest) == Prepend(Word(word), Lex(rest))
  {
    LetterRunAppend(word, rest);
    assert (word + rest)[..|word|] == word && (word + rest)[|word|..] == rest;
  }

  lemma LexNumber(n: nat, rest: string)
    requires Stops(rest)
    ensures Lex(ShowNat(n) + rest) == Prepend(Number(n), Lex(rest))
  {
    var s := ShowNat(n);
    DigitRunAppend(s, rest);
    ReadShow(n);
    assert (s + rest)[..|s|] == s && (s + rest)[|s|..] == rest;
  }

  lemma LexQuoted(q: char, content: string, rest: string)
    requires (q == '"' || q == '\'') && Stops(rest)
    ensures
      Lex(Quoted(q, content) + rest) == Prepend(if q == '"' then Identifier(content) else Text(content), Lex(rest))
  {
    var s := Quoted(q, content) + rest;
    assert s[1..] == Doubled(q, content) + [q] + rest;
    ScanDoubled(q, content, rest);
  }

  lemma LexSymbol(c: char, rest: string)
    requires c == ' ' || c == '=' || c == '-'
    ensures
      Lex([c] + rest) == if c == ' ' then Lex(rest) else Prepend(if c == '=' then Equals else Minus, Lex(rest))
  {
    assert ([c] + rest)[1..] == rest;
  }

  lemma PrependTwo(a: seq<Token>, b: seq<Token>, ts: Option<seq<Token>>)
    ensures PrependAll(a, PrependAll(b, ts)) == PrependAll(a + b, ts)
  {
    if ts.Some? {
      assert a + (b + ts.value) == a + b + ts.value;
    }
  }

  lemma LexNegative(n: nat, rest: string)
    requires Stops(rest)
    ensures Lex("-" + ShowNat(n) + rest) == PrependAll([Minus, Number(n)], Lex(rest))
  {
    LexNumber(n, rest);
    LexSymbol('-', ShowNat(n) + rest);
    Regroup("-", ShowNat(n), rest);
    PrependTwo([Minus], [Number(n)], Lex(rest));
    assert [Minus] + [Number(n)] == [Minus, Number(n)];
  }

  lemma Regroup(a: string, b: string, c: string)
    ensures (a + b) + c == a + (b + c)
  {}

  lemma LexInt(n: int, rest: string)
    requires Stops(rest)
    ensures Lex(ShowInt(n) + rest) == PrependAll(ValueTokens(Int(n)), Lex(rest))
  {
    if n < 0 {
      LexNegative(-n, rest);
      assert ShowInt(n) == "-" + ShowNat(-n);
    } else {
      LexNumber(n, rest);
      PrependOne(Number(n), Lex(rest));
      assert ShowInt(n) == ShowNat(n);
    }
  }

  lemma PrependOne(t: Token, ts: Option<seq<Token>>)
    ensures Prepend(t, ts) == PrependAll([t], ts)
  {}

  lemma LexValue(v: Value, rest: string)
    requires Stops(rest)
    ensures Lex(EscapeValue(v) + rest) == PrependAll(ValueTokens(v), Lex(rest))
  {
    match v {
      case Undefined => LexWord("NULL", rest);
      case Null => LexWord("NULL", rest);
      case Bool(b) => if b { LexWord("TRUE", rest); } else { LexWord("FALSE", rest); }
      case Str(s) => LexQuoted('\'', s, rest);
      case Int(n) => LexInt(n, rest);
    }
  }

  lemma LexEquals(value: string)
    ensures Lex(" = " + value) == PrependAll([Equals], Lex(value))
  {
    LexSymbol(' ', value);
    LexSymbol('=', [' '] + value);
    LexSymbol(' ', ['='] + ([' '] + value));
    assert " = " + value == [' '] + (['='] + ([' '] + value));
  }

  lemma LexEntry(e: Entry, rest: string)
    requires Stops(rest)
    ensures Lex(PrintEntry(e) + rest) == PrependAll(EntryTokens(e), Lex(rest))
  {
    var value := EscapeValue(e.value) + rest;
    LexValue(e.value, rest);
    LexEquals(value);
    LexQuoted('"', e.key, " = " + value);
    JoinEntry(e, rest);
    PrependTwo([Equals], ValueTokens(e.value), Lex(rest));
    PrependTwo([Identifier(e.key)], [Equals] + ValueTokens(e.value), Lex(rest));
    assert [Identifier(e.key)] + ([Equals] + ValueTokens(e.value)) == EntryTokens(e);
  }

  lemma JoinEntry(e: Entry, rest: string)
    ensures PrintEntry(e) + rest == Quoted('"', e.key) + (" = " + (EscapeValue(e.value) + rest))
  {}

  lemma {:induction false} LexWhere(w: seq<Entry>)
    ensures Lex(PrintWhere(w)) == Some(WhereTokens(w))
  {
    if |w| == 1 {
      LexEntry(w[0], []);
      assert PrintEntry(w[0]) + [] == PrintEntry(w[0]);
      assert EntryTokens(w[0]) + [] == EntryTokens(w[0]);
    } else if |w| > 1 {
      LexWhere(w[1..]);
      LexAnd(w[0], PrintWhere(w[1..]));
    }
  }

  lemma LexAnd(e: Entry, more: string)
    ensures Lex(PrintEntry(e) + " AND " + more) == PrependAll(EntryTokens(e) + [Word("AND")], Lex(more))
  {
    var blank := [' '] + more;
    LexSymbol(' ', more);
    LexWord("AND", blank);
    LexSymbol(' ', "AND" + blank);
    LexEntry(e, [' '] + ("AND" + blank));
    JoinAnd(PrintEntry(e), more);
    PrependTwo(EntryTokens(e), [Word("AND")], Lex(more));
  }

  lemma JoinAnd(entry: string, more: string)
    ensures entry + ([' '] + ("AND" + ([' '] + more))) == entry + " AND " + more
  {}

  // ---------- reading gives the entries back ----------

  /** The value a reader of SQL sees: there is no `undefined` in SQL. */
  function SqlValue(v: Value): Value { if v.Undefined? then Null else v }

  function SqlEntries(w: seq<Entry>): seq<Entry> {
    seq(|w|, i requires 0 <= i < |w| => Entry(w[i].key, SqlValue(w[i].value)))
  }

  lemma ParseValue(v: Value, rest: seq<Token>)
    ensures ParseLiteral(ValueTokens(v) + rest) == Some((SqlValue(v), rest))
  {
    var ts := ValueTokens(v) + rest;
    assert ts[|ValueTokens(v)|..] == rest;
  }

  lemma ParseEntry(e: Entry, rest: seq<Token>)
    ensures
      var ts := EntryTokens(e) + rest;
      && ts[0] == Identifier(e.key) && ts[1] == Equals && |rest| < |ts|
      && ParseLiteral(ts[2..]) == Some((SqlValue(e.value), rest))
  {
    ParseValue(e.value, rest);
    assert (EntryTokens(e) + rest)[2..] == ValueTokens(e.value) + rest;
  }

  /** One comparison at the start of a conjunction. */
  lemma ParseFirst(e: Entry, rest: seq<Token>)
    ensures
      ParseConjunction(EntryTokens(e) + rest) ==
        if rest == [] then Some([Entry(e.key, SqlValue(e.value))])
        else if rest[0] != Word("AND") then None
        else match ParseConjunction(rest[1..])
          case None => None
          case Some(es) => Some([Entry(e.key, SqlValue(e.value))] + es)
  {
    ParseEntry(e, rest);
  }

  lemma SqlEntriesCons(w: seq<Entry>)
    requires w != []
    ensures SqlEntries(w) == [Entry(w[0].key, SqlValue(w[0].value))] + SqlEntries(w[1..])
  {}

  lemma WhereTokensCons(w: seq<Entry>)
    requires |w| > 1
    ensures WhereTokens(w) == EntryTokens(w[0]) + ([Word("AND")] + WhereTokens(w[1..]))
  {}

  lemma {:induction false} ParseTokens(w: seq<Entry>)
    requires w != []
    ensures ParseConjunction(WhereTokens(w)) == Some(SqlEntries(w))
  {
    if |w| == 1 {
      ParseFirst(w[0], []);
      assert WhereTokens(w) == EntryTokens(w[0]) + [];
      assert SqlEntries(w) == [Entry(w[0].key, SqlValue(w[0].value))];
    } else {
      var rest := [Word("AND")] + WhereTokens(w[1..]);
      WhereTokensCons(w);
      ParseFirst(w[0], rest);
      ParseTokens(w[1..]);
      assert rest[1..] == WhereTokens(w[1..]);
      SqlEntriesCons(w);
    }
  }

  /** Parsing the printed clause recovers the entries, whatever quotes, spaces or keywords they contain. */
  lemma PrintThenParse(w: seq<Entry>)
    ensures ParseWhere(PrintWhere(w)) == Some(SqlEntries(w))
    ensures (forall i :: 0 <= i < |w| ==> !w[i].value.Undefined?) ==> SqlEntries(w) == w
  {
    LexWhere(w);
    if w != [] {
      ParseTokens(w);
      assert WhereTokens(w) != [];
    } else {
      assert SqlEntries(w) == [];
    }
  }

  // ---------- evaluating ----------

  type Row = map<string, Value>

  function Column(row: Row, key: string): Value { if key in row then row[key] else Undefined }

  datatype Truth = True | False | Unknown

  /** A comparison with NULL, on either side, is unknown. */
  function EvalEntry(row: Row, e: Entry): Truth {
    var v := SqlValue(Column(row, e.key));
    if v == Null || e.value == Null then Unknown else if v == e.value then True else False
  }

  function And(a: Truth, b: Truth): Truth {
    if a == False || b == False then False else if a == Unknown || b == Unknown then Unknown else True
  }

  function EvalWhere(row: Row, w: seq<Entry>): Truth {
    if w == [] then True else And(EvalEntry(row, w[0]), EvalWhere(row, w[1..]))
  }

  /** The rows that SQL selects with a clause. */
  predicate Selects(clause: string, row: Row) {
    match ParseWhere(clause)
    case None => false
    case Some(w) => EvalWhere(row, w) == True
  }

  /** The rows that the in-memory filter keeps. */
  ghost predicate Matches(row: Row, w: seq<Entry>) {
    forall i :: 0 <= i < |w| ==> Column(row, w[i].key) == w[i].value
  }

  method MatchesWhere(row: Row, w: seq<Entry>) returns (matches: bool)
    ensures matches == Matches(row, w)
  {
    for i := 0 to |w|
      invariant forall j :: 0 <= j < i ==> Column(row, w[j].key) == w[j].value
    {
      if Column(row, w[i].key) != w[i].value {
        return false;
      }
    }
    return true;
  }

  lemma {:induction false} EvalIsAll(row: Row, w: seq<Entry>)
    ensures EvalWhere(row, w) == True <==> forall i :: 0 <= i < |w| ==> EvalEntry(row, w[i]) == True
  {
    if w != [] {
      EvalIsAll(row, w[1..]);
      if forall i :: 0 <= i < |w| ==> EvalEntry(row, w[i]) == True {
        assert forall i :: 0 <= i < |w[1..]| ==> w[1..][i] == w[i + 1];
      } else {
        var i :| 0 <= i < |w| && EvalEntry(row, w[i]) != True;
        assert i > 0 ==> w[1..][i - 1] == w[i];
      }
    }
  }

  /** Neither `null` nor `undefined` among the values. */
  predicate NoNull(w: seq<Entry>) {
    forall i :: 0 <= i < |w| ==> !w[i].value.Null? && !w[i].value.Undefined?
  }

  /** The row that has just the values asked for. */
  function RowOf(w: seq<Entry>): Row {
    if w == [] then map[] else RowOf(w[1..])[w[0].key := w[0].value]
  }

  lemma {:induction false} RowHas(w: seq<Entry>, i: nat)
    requires i < |w| && forall j, k :: 0 <= j < k < |w| ==> w[j].key != w[k].key
    ensures Column(RowOf(w), w[i].key) == w[i].value
  {
    if i > 0 {
      RowHas(w[1..], i - 1);
    }
  }

  lemma SelectsIsMatches(w: seq<Entry>, row: Row)
    requires NoNull(w)
    ensures Selects(PrintWhere(w), row) <==> Matches(row, w)
  {
    PrintThenParse(w);
    EvalIsAll(row, w);
  }

  /** For a record of conditions: the SQL clause selects the same rows as the in-memory filter, on every row,
      if and only if no value is `null` or `undefined` (`= NULL` is never true). */
  lemma SameMeaningIff(w: seq<Entry>)
    requires forall j, k :: 0 <= j < k < |w| ==> w[j].key != w[k].key
    ensures (forall row: Row :: Selects(PrintWhere(w), row) <==> Matches(row, w)) <==> NoNull(w)
  {
    if NoNull(w) {
      forall row: Row ensures Selects(PrintWhere(w), row) <==> Matches(row, w) {
        SelectsIsMatches(w, row);
      }
    } else {
      var i :| 0 <= i < |w| && (w[i].value.Null? || w[i].value.Undefined?);
      NullDisagrees(w, i);
    }
  }

  lemma NullUnknown(w: seq<Entry>, i: nat, row: Row)
    requires i < |w| && (w[i].value.Null? || w[i].value.Undefined?)
    ensures EvalWhere(row, SqlEntries(w)) != True
  {
    EvalIsAll(row, SqlEntries(w));
    assert EvalEntry(row, SqlEntries(w)[i]) == Unknown;
  }

  /** The row that has the values asked for is kept by the filter and not selected by the clause. */
  lemma NullDisagrees(w: seq<Entry>, i: nat)
    requires forall j, k :: 0 <= j < k < |w| ==> w[j].key != w[k].key
    requires i < |w| && (w[i].value.Null? || w[i].value.Undefined?)
    ensures Matches(RowOf(w), w) && !Selects(PrintWhere(w), RowOf(w))
  {
    forall j | 0 <= j < |w| ensures Column(RowOf(w), w[j].key) == w[j].value {
      RowHas(w, j);
    }
    PrintThenParse(w);
    NullUnknown(w, i, RowOf(w));
  }
}
