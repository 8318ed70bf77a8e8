/** Placeholders of client.js. */
module Placeholders {
  // `escapeSqlValue` and `substitutePlaceholders` of node/src/client.js. The lexer of `SqlTokens` decides when
  // substitution keeps the tokens of the template.

  import opened SqlText
  import opened SqlTokens
  import opened Wrappers

  /** A parameter; an object is printed through its JSON text, and `undefined` like `null`. */
  datatype Value = Null | Bool(b: bool) | Num(n: int) | Str(s: string) | Obj(json: string)

  function EscapeSqlValue(v: Value): (r: string)
    ensures r != [] && r[0] != '$'
  {
    match v
    case Null => "NULL"
    case Bool(b) => if b then "TRUE" else "FALSE"
    case Num(n) => ShowInt(n)
    case Str(s) => Quoted('\'', s)
    case Obj(json) => Quoted('\'', json)
  }

  /** How many characters the placeholder `$N` at the start of a text takes; 0 if there is none. */
  function HoleLength(t: string): (k: nat)
    ensures k <= |t| && k != 1 && (k > 0 ==> t[0] == '$')
  {
    if t != [] && t[0] == '$' && DigitRun(t[1..]) > 0 then 1 + DigitRun(t[1..]) else 0
  }

  /** The parameter number of a placeholder. */
  function HoleIndex(t: string): nat
    requires HoleLength(t) > 0
  {
    ReadNat(t[1..HoleLength(t)])
  }

  /** What a placeholder is replaced by; out of range, it stays. */
  function Replacement(t: string, ps: seq<Value>): string
    requires HoleLength(t) > 0
  {
    if 1 <= HoleIndex(t) <= |ps| then EscapeSqlValue(ps[HoleIndex(t) - 1]) else t[..HoleLength(t)]
  }

  /** The single pass of `replace`. */
  function Substitute(t: string, ps: seq<Value>): string {
    if t == [] then []
    else if HoleLength(t) > 0 then Replacement(t, ps) + Substitute(t[HoleLength(t)..], ps)
    else [t[0]] + Substitute(t[1..], ps)
  }

  function SubstitutePlaceholders(t: string, ps: seq<Value>): string {
    if ps == [] then t else Substitute(t, ps)
  }

  // ---------- templates ----------

  /** The text begins with a placeholder of one of `n` parameters. */
  predicate IsHole(t: string, n: nat) { HoleLength(t) > 0 && 1 <= HoleIndex(t) <= n }

  function Parameter(t: string, ps: seq<Value>): Value
    requires IsHole(t, |ps|)
  {
    ps[HoleIndex(t) - 1]
  }

  /** A template is lexed on its own: its placeholders outside literals, quoted identifiers and comments are parts. */
  datatype Part = Fixed(token: Token) | Hole(index: nat)

  function LexTemplate(t: string, n: nat): seq<Part>
    decreases |t|
  {
    if t == [] then []
    else if IsHole(t, n) then [Hole(HoleIndex(t))] + LexTemplate(t[HoleLength(t)..], n)
    else [Fixed(FirstToken(t))] + LexTemplate(t[|FirstToken(t).text|..], n)
  }

  /** The tokens a parameter stands for: one, or a sign and a number. */
  function ValueTokens(v: Value): (tokens: seq<Token>)
    ensures 1 <= |tokens| <= 2
  {
    match v
    case Null => [Token(Word, "NULL")]
    case Bool(b) => [Token(Word, if b then "TRUE" else "FALSE")]
    case Num(n) => if n < 0 then [Token(Symbol, "-"), Token(Number, ShowNat(-n))] else [Token(Number, ShowNat(n))]
    case Str(s) => [Token(Literal, Quoted('\'', s))]
    case Obj(json) => [Token(Literal, Quoted('\'', json))]
  }

  function AllTokens(ps: seq<Value>): seq<seq<Token>> {
    seq(|ps|, i requires 0 <= i < |ps| => ValueTokens(ps[i]))
  }

  function FillPart(p: Part, values: seq<seq<Token>>): seq<Token> {
    match p
    case Fixed(token) => [token]
    case Hole(index) => if 1 <= index <= |values| then values[index - 1] else []
  }

  /** The template with the tokens of the parameters in place of the holes. */
  function Fill(parts: seq<Part>, values: seq<seq<Token>>): seq<Token> {
    if parts == [] then [] else FillPart(parts[0], values) + Fill(parts[1..], values)
  }

  // ---------- where placeholders may stand ----------

  /** The first character of the substituted text, with the white space and comments before it: what decides whether
      a token reads on into the text. */
  function Ahead(t: string, ps: seq<Value>): string
    decreases |t|
  {
    if t == [] then []
    else if IsHole(t, |ps|) then EscapeSqlValue(Parameter(t, ps))[..1]
    else if SeparatorLength(t) == 0 then t[..1]
    else t[..SeparatorLength(t)] + Ahead(t[SeparatorLength(t)..], ps)
  }

  function LastToken(v: Value): Token { ValueTokens(v)[|ValueTokens(v)| - 1] }

  /** No placeholder of a parameter inside a literal, a quoted identifier or a comment, and no token reads on
      into what comes next: neither a parameter into its right neighbour nor its left neighbour into it. A literal
      reads on into a quote right after it, and into one after white space with a line break. */
  predicate WellPlaced(t: string, ps: seq<Value>)
    decreases |t|
  {
    if t == [] then true
    else if IsHole(t, |ps|) then
      var rest := t[HoleLength(t)..];
      !Joins(LastToken(Parameter(t, ps)), Ahead(rest, ps)) && WellPlaced(rest, ps)
    else
      var a := FirstToken(t);
      var rest := t[|a.text|..];
      NoHoles(t, |a.text|, |ps|) && !Joins(a, Ahead(rest, ps)) && WellPlaced(rest, ps)
  }

  /** None of the first `k` characters begins a placeholder of one of `n` parameters. */
  predicate NoHoles(t: string, k: nat, n: nat)
    requires k <= |t|
  {
    forall i :: 0 <= i < k ==> !IsHole(t[i..], n)
  }

  // ---------- lemmas about substitution ----------

  lemma Associates<T>(a: seq<T>, b: seq<T>, c: seq<T>)
    ensures (a + b) + c == a + (b + c)
  {}

  /** Taking one more from the front of a text. */
  lemma OneMore<T>(t: seq<T>, k: nat, rest: seq<T>)
    requires 0 < k <= |t|
    ensures t[..k] + rest == [t[0]] + (t[1..][..k - 1] + rest) && t[1..][k - 1..] == t[k..]
  {
    assert t[..k] == [t[0]] + t[1..][..k - 1];
    Associates([t[0]], t[1..][..k - 1], rest);
  }

  lemma {:induction false} SubstitutePlain(t: string, k: nat, ps: seq<Value>)
    requires k <= |t| && forall i :: 0 <= i < k ==> t[i] != '$'
    ensures Substitute(t, ps) == t[..k] + Substitute(t[k..], ps)
  {
    if k > 0 {
      SubstitutePlain(t[1..], k - 1, ps);
      OneMore(t, k, Substitute(t[k..], ps));
    } else {
      assert t[k..] == t;
    }
  }

  lemma HoleIsPlain(t: string)
    requires HoleLength(t) > 0
    ensures forall i :: 0 <= i < HoleLength(t) - 1 ==> t[1..][i] != '$'
  {}

  /** The pass goes from character to character, except at placeholders of parameters. */
  lemma SubstituteChar(t: string, ps: seq<Value>)
    requires t != [] && !IsHole(t, |ps|)
    ensures Substitute(t, ps) == [t[0]] + Substitute(t[1..], ps)
  {
    var k := HoleLength(t);
    if k > 0 {
      HoleIsPlain(t);
      SubstitutePlain(t[1..], k - 1, ps);
      OneMore(t, k, Substitute(t[k..], ps));
      assert Replacement(t, ps) == t[..k];
    }
  }

  /** Without placeholders the pass changes nothing. */
  lemma {:induction false} CleanStays(t: string, k: nat, ps: seq<Value>)
    requires k <= |t| && NoHoles(t, k, |ps|)
    ensures Substitute(t, ps) == t[..k] + Substitute(t[k..], ps)
  {
    if k > 0 {
      assert t[0..] == t;
      SubstituteChar(t, ps);
      assert forall i :: 0 <= i < k - 1 ==> t[1..][i..] == t[i + 1..];
      CleanStays(t[1..], k - 1, ps);
      OneMore(t, k, Substitute(t[k..], ps));
    } else {
      assert t[k..] == t;
    }
  }

  lemma NothingToDo(t: string)
    ensures Substitute(t, []) == t
  {
    CleanStays(t, |t|, []);
    assert t[..|t|] + [] == t && t[|t|..] == [];
  }

  lemma HoleDiffers(t: string, k: nat, ps: seq<Value>)
    requires IsHole(t, |ps|) && 0 < k <= |t|
    ensures !(t[..k] <= Substitute(t, ps))
  {
    var r := EscapeSqlValue(ps[HoleIndex(t) - 1]);
    assert Substitute(t, ps) == r + Substitute(t[HoleLength(t)..], ps);
    assert (r + Substitute(t[HoleLength(t)..], ps))[0] != t[..k][0];
  }

  /** With one, the text changes where the first of them begins. */
  lemma {:induction false} DirtyChanges(t: string, k: nat, i: nat, ps: seq<Value>)
    requires i < k <= |t| && IsHole(t[i..], |ps|)
    ensures !(t[..k] <= Substitute(t, ps))
  {
    if i == 0 {
      assert t[0..] == t;
      HoleDiffers(t, k, ps);
    } else if IsHole(t, |ps|) {
      HoleDiffers(t, k, ps);
    } else {
      SameDrop(t, i);
      DirtyChanges(t[1..], k - 1, i - 1, ps);
      SubstituteChar(t, ps);
      PrefixTail(t, k, Substitute(t[1..], ps));
    }
  }

  lemma SameDrop<T>(t: seq<T>, i: nat)
    requires 0 < i <= |t|
    ensures t[1..][i - 1..] == t[i..]
  {}

  lemma PrefixTail<T>(t: seq<T>, k: nat, s: seq<T>)
    requires 0 < k <= |t| && !(t[1..][..k - 1] <= s)
    ensures !(t[..k] <= [t[0]] + s)
  {
    var a := t[1..][..k - 1];
    assert t[..k] == [t[0]] + a;
    if |a| <= |s| {
      var i :| 0 <= i < |a| && a[i] != s[i];
      assert t[..k][i + 1] != ([t[0]] + s)[i + 1];
    }
  }

  // ---------- the tokens of a parameter ----------

  lemma ValueIsProper(v: Value)
    ensures IsProper(LastToken(v))
    ensures |ValueTokens(v)| == 1 ==> EscapeSqlValue(v) == LastToken(v).text
    ensures |ValueTokens(v)| == 2 ==> v.Num? && EscapeSqlValue(v) == "-" + LastToken(v).text
  {
    match v
    case Null => WordIsProper("NULL");
    case Bool(b) => WordIsProper(if b then "TRUE" else "FALSE");
    case Num(n) => NumberIsProper(if n < 0 then -n else n);
    case Str(s) => LiteralIsProper(s);
    case Obj(json) => LiteralIsProper(json);
  }

  lemma SignFirst(v: Value, z: string)
    requires |ValueTokens(v)| == 2
    ensures Lex(EscapeSqlValue(v) + z) == [Token(Symbol, "-")] + Lex(LastToken(v).text + z)
  {
    var digits := LastToken(v).text;
    ValueIsProper(v);
    Associates("-", digits, z);
    assert (digits + z)[0] == digits[0];
    SignStays(digits + z);
    LexFirst(Token(Symbol, "-"), digits + z);
  }

  lemma LexNegative(v: Value, z: string, tail: seq<Token>)
    requires |ValueTokens(v)| == 2
    ensures Lex(EscapeSqlValue(v) + z) == ValueTokens(v) + tail <==> Lex(LastToken(v).text + z) == [LastToken(v)] + tail
  {
    hide Lex, EscapeSqlValue;
    var a, sign := LastToken(v), Token(Symbol, "-");
    SignFirst(v, z);
    SameTail(sign, Lex(a.text + z), [a] + tail);
    Associates([sign], [a], tail);
    assert ValueTokens(v) == [sign] + [a];
  }

  /** A parameter in front of a text is read as its tokens if and only if it does not read on. */
  lemma LexValue(v: Value, z: string, tail: seq<Token>)
    ensures Lex(EscapeSqlValue(v) + z) == ValueTokens(v) + tail <==> !Joins(LastToken(v), z) && Lex(z) == tail
  {
    ValueIsProper(v);
    LexOne(LastToken(v), z, tail);
    if |ValueTokens(v)| == 2 {
      LexNegative(v, z, tail);
    } else {
      assert ValueTokens(v) == [LastToken(v)];
    }
  }

  // ---------- what decides whether a token reads on ----------

  lemma AheadStart(t: string, ps: seq<Value>)
    ensures SameStart(Substitute(t, ps), Ahead(t, ps))
  {
    if t != [] && !IsHole(t, |ps|) {
      SubstituteChar(t, ps);
    }
  }

  /** The token at the start of a template is still there after the substitution. */
  predicate FirstStays(t: string, ps: seq<Value>)
    requires t != []
  {
    var a := FirstToken(t);
    !IsHole(t, |ps|) && NoHoles(t, |a.text|, |ps|) && !Joins(a, Ahead(t[|a.text|..], ps))
  }

  lemma FirstRead(t: string, ps: seq<Value>)
    requires t != [] && FirstToken(t).kind != Literal && FirstStays(t, ps)
    ensures
      var a := FirstToken(t);
      var rest := t[|a.text|..];
      && Substitute(t, ps) == a.text + Substitute(rest, ps)
      && ReadsAs(a, Substitute(rest, ps)) && ReadsAs(a, Ahead(rest, ps))
  {
    var a := FirstToken(t);
    var rest := t[|a.text|..];
    CleanStays(t, |a.text|, ps);
    FirstProper(t);
    AheadStart(rest, ps);
    JoinsFirst(a, Substitute(rest, ps), Ahead(rest, ps));
    ReadsIff(a, Substitute(rest, ps));
    ReadsIff(a, Ahead(rest, ps));
  }

  lemma NoComment(t: string)
    requires t != [] && t[0] !in ['-', '/']
    ensures CommentAt(t) == 0
  {
    if CommentAt(t) > 0 {
      CommentStart(t);
    }
  }

  lemma DashIsNoComment(s: string)
    requires |s| > 1 && s[0] == '-' && s[1] != '-'
    ensures CommentAt(s) == 0
  {
    assert s[1] == s[..2][1];
  }

  /** A parameter does not begin like a separator. */
  lemma ValueStart(v: Value, z: string)
    ensures var s := EscapeSqlValue(v) + z; !IsBlank(s[0]) && CommentAt(s) == 0
  {
    var s := EscapeSqlValue(v) + z;
    assert s[0] == EscapeSqlValue(v)[0];
    if v.Num? && v.n < 0 {
      assert s[1] == ShowNat(-v.n)[0];
      DashIsNoComment(s);
    } else {
      NoComment(s);
    }
  }

  /** A comment stays one of the same length, and nothing else becomes one. */
  lemma CommentStays(t: string, ps: seq<Value>)
    requires t != [] && t[0] in ['-', '/'] && FirstStays(t, ps)
    ensures CommentAt(Substitute(t, ps)) == CommentAt(t)
    ensures
      CommentAt(t) > 0 ==>
        && FirstToken(t).text == t[..CommentAt(t)]
        && CommentAt(t[..CommentAt(t)] + Ahead(t[CommentAt(t)..], ps)) == CommentAt(t)
  {
    var a := FirstToken(t);
    var rest := t[|a.text|..];
    CommentIsFirst(t);
    FirstRead(t, ps);
    CommentIsFirst(Substitute(t, ps));
    CommentIsFirst(a.text + Ahead(rest, ps));
  }

  /** What begins with a separator still does, and nothing else comes to. */
  lemma SeparatorStays(t: string, ps: seq<Value>)
    requires t != [] && WellPlaced(t, ps) && !IsHole(t, |ps|)
    ensures Substitute(t, ps) != [] && SeparatorLength(Substitute(t, ps)) == SeparatorLength(t)
  {
    SubstituteChar(t, ps);
    if !IsBlank(t[0]) {
      if t[0] in ['-', '/'] {
        CommentStays(t, ps);
      } else {
        NoComment(t);
        NoComment(Substitute(t, ps));
      }
    }
  }

  lemma BlankFirst(t: string)
    requires t != [] && IsBlank(t[0])
    ensures FirstToken(t) == Token(Symbol, t[..1])
  {
    NoComment(t);
    assert |t| > 1 ==> t[..2][0] == t[0];
  }

  lemma BlankStays(t: string, ps: seq<Value>)
    requires t != [] && WellPlaced(t, ps) && !IsHole(t, |ps|) && IsBlank(t[0])
    ensures Substitute(t, ps) == t[..1] + Substitute(t[1..], ps) && WellPlaced(t[1..], ps)
  {
    BlankFirst(t);
    SubstituteChar(t, ps);
    assert t[..1] == [t[0]];
  }

  lemma SeparatorGoesOn(t: string, ps: seq<Value>)
    requires t != [] && WellPlaced(t, ps) && !IsHole(t, |ps|) && SeparatorLength(t) > 0
    ensures
      var k := SeparatorLength(t);
      && WellPlaced(t[k..], ps)
      && Substitute(t, ps) == t[..k] + Substitute(t[k..], ps)
      && SeparatorLength(Substitute(t, ps)) == k && SeparatorLength(Ahead(t, ps)) == k
  {
    SeparatorStays(t, ps);
    if IsBlank(t[0]) {
      BlankStays(t, ps);
    } else {
      CommentStart(t);
      CommentStays(t, ps);
      CleanStays(t, CommentAt(t), ps);
    }
  }

  lemma GapStep(x: string, z: string, newline: bool)
    requires x != [] && x[0] != '\'' && SeparatorLength(x + z) == |x|
    ensures Gap(x + z, newline) >= 0 <==> Gap(z, newline || '\n' in x) >= 0
  {
    assert (x + z)[..|x|] == x && (x + z)[|x|..] == z;
  }

  lemma GapNone(z: string, newline: bool)
    requires z != [] && SeparatorLength(z) == 0
    ensures Gap(z, newline) >= 0 <==> z[0] == '\'' && newline
  {}

  lemma GapAhead(t: string, ps: seq<Value>, newline: bool)
    requires WellPlaced(t, ps)
    ensures Gap(Substitute(t, ps), newline) >= 0 <==> Gap(Ahead(t, ps), newline) >= 0
    decreases |t|
  {
    if t != [] {
      AheadStart(t, ps);
      if IsHole(t, |ps|) {
        ValueStart(Parameter(t, ps), Substitute(t[HoleLength(t)..], ps));
        GapNone(Substitute(t, ps), newline);
        GapNone(Ahead(t, ps), newline);
      } else if SeparatorLength(t) == 0 {
        SeparatorStays(t, ps);
        GapNone(Substitute(t, ps), newline);
        GapNone(Ahead(t, ps), newline);
      } else {
        var k := SeparatorLength(t);
        NoQuote(t);
        SeparatorGoesOn(t, ps);
        GapStep(t[..k], Substitute(t[k..], ps), newline);
        GapStep(t[..k], Ahead(t[k..], ps), newline);
        GapAhead(t[k..], ps, newline || '\n' in t[..k]);
      }
    }
  }

  lemma NoQuote(t: string)
    requires t != [] && SeparatorLength(t) > 0
    ensures t[0] != '\''
  {
    if CommentAt(t) > 0 {
      CommentStart(t);
    }
  }

  /** Only what is ahead decides whether a token reads on. */
  lemma JoinsAhead(a: Token, t: string, ps: seq<Value>)
    requires WellPlaced(t, ps)
    ensures Joins(a, Substitute(t, ps)) == Joins(a, Ahead(t, ps))
  {
    hide Gap, Substitute, Ahead, WellPlaced;
    AheadStart(t, ps);
    if a.kind == Literal {
      GapAhead(t, ps, false);
    } else {
      JoinsFirst(a, Substitute(t, ps), Ahead(t, ps));
    }
  }

  // ---------- what the template becomes ----------

  lemma FillCons(p: Part, parts: seq<Part>, values: seq<seq<Token>>)
    ensures Fill([p] + parts, values) == FillPart(p, values) + Fill(parts, values)
  {
    assert ([p] + parts)[1..] == parts;
  }

  /** What the template should become. */
  function Filled(t: string, ps: seq<Value>): seq<Token> {
    Fill(LexTemplate(t, |ps|), AllTokens(ps))
  }

  predicate TokensKept(t: string, ps: seq<Value>) {
    Lex(Substitute(t, ps)) == Filled(t, ps)
  }

  lemma SubstituteHole(t: string, ps: seq<Value>)
    requires IsHole(t, |ps|)
    ensures Substitute(t, ps) == EscapeSqlValue(Parameter(t, ps)) + Substitute(t[HoleLength(t)..], ps)
  {}

  lemma PartsHole(t: string, n: nat)
    requires IsHole(t, n)
    ensures LexTemplate(t, n) == [Hole(HoleIndex(t))] + LexTemplate(t[HoleLength(t)..], n)
  {}

  lemma FillHole(index: nat, parts: seq<Part>, values: seq<seq<Token>>)
    requires 1 <= index <= |values|
    ensures Fill([Hole(index)] + parts, values) == values[index - 1] + Fill(parts, values)
  {
    FillCons(Hole(index), parts, values);
  }

  lemma AllTokensAt(ps: seq<Value>, i: nat)
    requires i < |ps|
    ensures |AllTokens(ps)| == |ps| && AllTokens(ps)[i] == ValueTokens(ps[i])
  {}

  lemma FilledHole(t: string, ps: seq<Value>)
    requires IsHole(t, |ps|)
    ensures Filled(t, ps) == ValueTokens(Parameter(t, ps)) + Filled(t[HoleLength(t)..], ps)
  {
    hide FirstToken, LexTemplate, Fill, ValueTokens, AllTokens;
    var index := HoleIndex(t);
    PartsHole(t, |ps|);
    AllTokensAt(ps, index - 1);
    FillHole(index, LexTemplate(t[HoleLength(t)..], |ps|), AllTokens(ps));
  }

  lemma FilledFixed(t: string, ps: seq<Value>)
    requires t != [] && !IsHole(t, |ps|)
    ensures Filled(t, ps) == [FirstToken(t)] + Filled(t[|FirstToken(t).text|..], ps)
  {
    FillCons(Fixed(FirstToken(t)), LexTemplate(t[|FirstToken(t).text|..], |ps|), AllTokens(ps));
  }

  lemma ValueStep(v: Value, s: string, z: string, filled: seq<Token>, tail: seq<Token>)
    requires s == EscapeSqlValue(v) + z && filled == ValueTokens(v) + tail
    ensures Lex(s) == filled <==> !Joins(LastToken(v), z) && Lex(z) == tail
  {
    LexValue(v, z, tail);
  }

  lemma HoleStep(t: string, ps: seq<Value>)
    requires IsHole(t, |ps|)
    ensures
      var rest := t[HoleLength(t)..];
      TokensKept(t, ps) <==> !Joins(LastToken(Parameter(t, ps)), Substitute(rest, ps)) && TokensKept(rest, ps)
  {
    var v, rest := Parameter(t, ps), t[HoleLength(t)..];
    SubstituteHole(t, ps);
    FilledHole(t, ps);
    ValueStep(v, Substitute(t, ps), Substitute(rest, ps), Filled(t, ps), Filled(rest, ps));
  }

  lemma FixedStep(t: string, ps: seq<Value>)
    requires t != [] && !IsHole(t, |ps|) && NoHoles(t, |FirstToken(t).text|, |ps|)
    ensures
      var a := FirstToken(t);
      var rest := t[|a.text|..];
      TokensKept(t, ps) <==> !Joins(a, Substitute(rest, ps)) && TokensKept(rest, ps)
  {
    var a := FirstToken(t);
    var rest := t[|a.text|..];
    FilledFixed(t, ps);
    CleanStays(t, |a.text|, ps);
    FirstProper(t);
    LexOne(a, Substitute(rest, ps), Filled(rest, ps));
  }

  /** A placeholder inside a literal, a quoted identifier or a comment changes that token. */
  lemma DirtyStep(t: string, ps: seq<Value>)
    requires t != [] && !IsHole(t, |ps|) && !NoHoles(t, |FirstToken(t).text|, |ps|)
    ensures !TokensKept(t, ps)
  {
    var a := FirstToken(t);
    var i :| 0 <= i < |a.text| && IsHole(t[i..], |ps|);
    DirtyChanges(t, |a.text|, i, ps);
    FilledFixed(t, ps);
    var s := Substitute(t, ps);
    if s != [] {
      assert FirstToken(s).text <= s;
      assert Lex(s)[0] == FirstToken(s) != a;
    }
  }

  lemma {:induction false} PlacedIff(t: string, ps: seq<Value>)
    ensures TokensKept(t, ps) <==> WellPlaced(t, ps)
    decreases |t|
  {
    if t == [] {
    } else if IsHole(t, |ps|) {
      var rest := t[HoleLength(t)..];
      HoleStep(t, ps);
      PlacedIff(rest, ps);
      if WellPlaced(rest, ps) {
        JoinsAhead(LastToken(Parameter(t, ps)), rest, ps);
      }
    } else if NoHoles(t, |FirstToken(t).text|, |ps|) {
      var rest := t[|FirstToken(t).text|..];
      FixedStep(t, ps);
      PlacedIff(rest, ps);
      if WellPlaced(rest, ps) {
        JoinsAhead(FirstToken(t), rest, ps);
      }
    } else {
      DirtyStep(t, ps);
    }
  }

  /** The main result, for all templates and all parameters: lexing the substituted text gives the tokens of
      the template with each placeholder replaced by the tokens of its parameter -- one word, one number
      after its sign, or one literal -- if and only if no such placeholder is inside a literal, a quoted
      identifier or a comment and none runs together with its neighbours. */
  lemma TokensKeptIff(t: string, ps: seq<Value>)
    ensures Lex(SubstitutePlaceholders(t, ps)) == Fill(LexTemplate(t, |ps|), AllTokens(ps)) <==> WellPlaced(t, ps)
  {
    PlacedIff(t, ps);
    if ps == [] {
      NothingToDo(t);
    }
  }

  /** The literal that stands for a string, read back, is that very string, dollar signs and quotes included. */
  lemma LiteralHoldsString(s: string)
    ensures Scan('\'', ValueTokens(Str(s))[0].text[1..]) == Some((s, []))
  {
    assert Quoted('\'', s)[1..] == Doubled('\'', s) + ['\''] + [];
    ScanDoubled('\'', s, []);
  }

  // ---------- which parameter a placeholder stands for ----------

  /** A dollar sign and the digits up to the next other character are one placeholder, whose number is their value. */
  lemma HoleReads(digits: string, rest: string)
    requires digits != [] && (forall i :: 0 <= i < |digits| ==> IsDigit(digits[i])) && (rest != [] ==> !IsDigit(rest[0]))
    ensures
      var t := ['$'] + (digits + rest);
      HoleLength(t) == 1 + |digits| && HoleIndex(t) == PlaceValue(digits)
  {
    hide ReadNat, DigitRun, PlaceValue;
    var t := ['$'] + (digits + rest);
    assert t[1..] == digits + rest;
    DigitRunAppend(digits, rest);
    assert t[1..1 + |digits|] == digits;
    ReadIsPlaceValue(digits);
  }

  lemma HoleEnds(digits: string, rest: string)
    ensures var t := ['$'] + (digits + rest); t[..1 + |digits|] == ['$'] + digits && t[1 + |digits|..] == rest
    ensures (['$'] + digits) + rest == ['$'] + (digits + rest)
  {}

  lemma NumberWritten(n: nat, zeros: nat)
    ensures
      var digits := Zeros(zeros) + ShowNat(n);
      digits != [] && (forall i :: 0 <= i < |digits| ==> IsDigit(digits[i])) && PlaceValue(digits) == n
  {
    hide PlaceValue;
    LeadingZeros(zeros, ShowNat(n));
    ShowsDecimal(n);
  }

  lemma SubstituteFirst(t: string, ps: seq<Value>)
    requires HoleLength(t) > 0
    ensures
      Substitute(t, ps) ==
        (if 1 <= HoleIndex(t) <= |ps| then EscapeSqlValue(ps[HoleIndex(t) - 1]) else t[..HoleLength(t)])
        + Substitute(t[HoleLength(t)..], ps)
  {
    hide HoleIndex, EscapeSqlValue;
  }

  /** For every number, also with leading zeros: `$n` in front of anything but a digit is replaced by the n-th parameter,
      the first being number 1, and stays as it is when there is none. */
  lemma PlaceholderPrintsItsParameter(n: nat, zeros: nat, rest: string, ps: seq<Value>)
    requires rest != [] ==> !IsDigit(rest[0])
    ensures
      var hole := ['$'] + (Zeros(zeros) + ShowNat(n));
      && HoleLength(hole + rest) == |hole|
      && Substitute(hole + rest, ps) ==
           (if 1 <= n <= |ps| then EscapeSqlValue(ps[n - 1]) else hole) + Substitute(rest, ps)
      && SubstitutePlaceholders(hole + rest, ps) ==
           (if 1 <= n <= |ps| then EscapeSqlValue(ps[n - 1]) else hole) + SubstitutePlaceholders(rest, ps)
  {
    hide PlaceValue, ShowNat, EscapeSqlValue, HoleLength, HoleIndex, Substitute;
    var digits := Zeros(zeros) + ShowNat(n);
    NumberWritten(n, zeros);
    HoleReads(digits, rest);
    HoleEnds(digits, rest);
    SubstituteFirst(['$'] + (digits + rest), ps);
  }

  // ---------- what a parameter is printed as ----------

  /** A literal, read as SQL: the value it stands for. */
  function ReadValue(text: string): Option<Value> {
    if text == "NULL" then Some(Null)
    else if text == "TRUE" then Some(Bool(true))
    else if text == "FALSE" then Some(Bool(false))
    else if StartsWith(text, '\'') then
      match Scan('\'', text[1..])
      case Some((content, rest)) => if rest == [] then Some(Str(content)) else None
      case None => None
    else if text != [] && forall i :: 0 <= i < |text| ==> IsDigit(text[i]) then Some(Num(PlaceValue(text)))
    else if |text| > 1 && text[0] == '-' && forall i :: 1 <= i < |text| ==> IsDigit(text[i]) then
      assert forall i :: 0 <= i < |text[1..]| ==> text[1..][i] == text[i + 1];
      Some(Num(-PlaceValue(text[1..])))
    else None
  }

  lemma NumberReadsBack(n: int)
    ensures ReadValue(ShowInt(n)) == Some(Num(n))
  {
    if n < 0 {
      ShowsDecimal(-n);
      var s := ShowInt(n);
      assert s[0] == '-' && s[1..] == ShowNat(-n);
      assert forall i :: 1 <= i < |s| ==> s[i] == s[1..][i - 1];
    } else {
      ShowsDecimal(n);
      assert IsDigit(ShowNat(n)[0]);
    }
  }

  lemma StringReadsBack(s: string)
    ensures ReadValue(Quoted('\'', s)) == Some(Str(s))
  {
    var text := Quoted('\'', s);
    assert text[0] == '\'' && text[1..] == Doubled('\'', s) + ['\''] + [];
    ScanDoubled('\'', s, []);
  }

  /** What is printed for a parameter is an SQL literal of its value; an object is printed as its JSON text. */
  lemma ValueReadsBack(v: Value)
    ensures ReadValue(EscapeSqlValue(v)) == Some(if v.Obj? then Str(v.json) else v)
  {
    match v
    case Null =>
    case Bool(b) =>
    case Num(n) => NumberReadsBack(n);
    case Str(s) => StringReadsBack(s);
    case Obj(json) => StringReadsBack(json);
  }

  // ---------- literals on several lines ----------

  lemma HoleIs(digit: char, rest: string)
    requires IsDigit(digit) && (rest != [] ==> !IsDigit(rest[0]))
    ensures var t := ['$', digit] + rest; HoleLength(t) == 2 && HoleIndex(t) == ReadNat([digit]) && t[2..] == rest
  {
    var t := ['$', digit] + rest;
    assert t[1..] == [digit] + rest && t[1..][1..] == rest;
    assert t[1..2] == [digit];
  }

  lemma OneHole(digit: char, rest: string, ps: seq<Value>)
    requires IsDigit(digit) && (rest != [] ==> !IsDigit(rest[0])) && 1 <= ReadNat([digit]) <= |ps|
    ensures Substitute(['$', digit] + rest, ps) == EscapeSqlValue(ps[ReadNat([digit]) - 1]) + Substitute(rest, ps)
  {
    hide Substitute, ReadNat, EscapeSqlValue;
    HoleIs(digit, rest);
    SubstituteHole(['$', digit] + rest, ps);
  }

  /** Two placeholders on two lines. */
  lemma TwoHoles(t: string, ps: seq<Value>)
    requires |ps| == 2 && t == "$1\n$2"
    ensures Substitute(t, ps) == EscapeSqlValue(ps[0]) + "\n" + EscapeSqlValue(ps[1])
  {
    Digits();
    SubstituteNone(ps);
    hide Substitute, HoleLength, ReadNat, EscapeSqlValue;
    var last := ['$', '2'] + [];
    var rest := ['\n'] + last;
    OneHole('2', [], ps);
    NoHole(rest);
    SubstituteChar(rest, ps);
    assert rest[1..] == last;
    OneHole('1', rest, ps);
    assert t == ['$', '1'] + rest;
  }

  lemma Digits()
    ensures ReadNat(['1']) == 1 && ReadNat(['2']) == 2
  {}

  lemma SubstituteNone(ps: seq<Value>)
    ensures Substitute([], ps) == []
  {}

  lemma NoHole(t: string)
    requires t != [] && t[0] != '$'
    ensures HoleLength(t) == 0
  {}

  /** A literal in front of a new line and another literal. */
  lemma LiteralsMerge(x: string, y: string)
    requires IsProper(Token(Literal, x)) && x[0] == '\'' && QuotedLength('\'', x) == |x|
    requires IsProper(Token(Literal, y)) && y[0] == '\''
    ensures IsProper(Token(Literal, x + "\n" + y)) && Joins(Token(Literal, x), "\n" + y)
  {
    var z := "\n" + y;
    assert z[..1] == "\n" && z[1..] == y;
    assert SeparatorLength(z) == 1 && Gap(z, false) == 1;
    QuotedAppend('\'', x, z);
    assert x + "\n" + y == x + z;
    assert (x + z)[|x|..] == z && (x + z)[|x| + 1..] == y;
    assert x + z != [] && (x + z)[0] == '\'';
    assert LiteralLength(x + z) == |x| + 1 + LiteralLength(y);
  }

  lemma TwoHolesFilled(t: string, ps: seq<Value>)
    requires |ps| == 2 && t == "$1\n$2"
    ensures |Filled(t, ps)| > 1
  {
    Digits();
    hide FirstToken, Fill, LexTemplate, AllTokens, ReadNat;
    var rest := ['\n'] + ['$', '2'];
    assert t == ['$', '1'] + rest;
    HoleIs('1', rest);
    FilledHole(t, ps);
    NoHole(rest);
    FilledFixed(rest, ps);
  }

  /** Two strings on two lines become a single literal. */
  lemma StringsOnTwoLinesMerge(s: string, r: string)
    ensures !WellPlaced("$1\n$2", [Str(s), Str(r)])
    ensures
      Lex(SubstitutePlaceholders("$1\n$2", [Str(s), Str(r)]))
      == [Token(Literal, Quoted('\'', s) + "\n" + Quoted('\'', r))]
  {
    var x, y := Quoted('\'', s), Quoted('\'', r);
    TwoHoles("$1\n$2", [Str(s), Str(r)]);
    LiteralIsProper(s);
    LiteralIsProper(r);
    WholeQuoted(s);
    LiteralsMerge(x, y);
    var whole := Token(Literal, x + "\n" + y);
    assert whole.text + "" == whole.text;
    LexFirst(whole, "");
    TwoHolesFilled("$1\n$2", [Str(s), Str(r)]);
    PlacedIff("$1\n$2", [Str(s), Str(r)]);
  }

  lemma WholeQuoted(content: string)
    ensures QuotedLength('\'', Quoted('\'', content)) == |Quoted('\'', content)|
  {
    assert Quoted('\'', content)[1..] == Doubled('\'', content) + ['\''] + [];
    ScanDoubled('\'', content, []);
  }
}
