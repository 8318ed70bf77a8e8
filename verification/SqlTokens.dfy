/** The tokens of SQL (sections 5.2 and 5.3 of ISO/IEC 9075-2, continued literals included): a lexer that loses nothing
    of a text and always takes the longest token, and when a token in front of more text is still read as itself. */
module SqlTokens {
  import opened SqlText

  /** A token is its kind and its text, so that nothing of a text is lost; `Symbol` is one character, white
      space included, and `Unclosed` a literal, a quoted identifier or a comment that never ends. */
  datatype Kind = Symbol | Number | Word | Literal | Identifier | Comment | Unclosed
  datatype Token = Token(kind: Kind, text: string)

  predicate IsLetter(c: char) { 'a' <= c <= 'z' || 'A' <= c <= 'Z' || c == '_' }

  predicate IsWordChar(c: char) { IsLetter(c) || IsDigit(c) }

  /** N'...', B'...', X'...' and _charset'...' are literals as a whole. */
  predicate IsIntroducer(word: string) {
    word in ["N", "n", "B", "b", "X", "x"] || StartsWith(word, '_')
  }

  /** Whether a token of the kind goes on with `c` after `prev`; a line comment ends before the new line. */
  predicate GoesOn(kind: Kind, prev: char, c: char) {
    match kind
    case Word => IsWordChar(c)
    case Number => IsWordChar(c) || c == '.' || (c in ['+', '-'] && prev in ['e', 'E'])
    case Comment => c != '\n'
    case _ => false
  }

  function Run(kind: Kind, prev: char, s: string): (k: nat)
    ensures k <= |s|
    decreases |s|
  {
    if s != [] && GoesOn(kind, prev, s[0]) then 1 + Run(kind, s[0], s[1..]) else 0
  }

  /** The length of quoted text from its opening quote to its closing one; 0 if it is never closed. */
  function QuotedLength(q: char, s: string): (k: nat)
    requires StartsWith(s, q)
    ensures k <= |s|
  {
    match Scan(q, s[1..])
    case None => 0
    case Some((_, rest)) =>
      ScanShape(q, s[1..]);
      |s| - |rest|
  }

  /** The length of what remains of a bracketed comment; comments nest. 0 if it is never closed. */
  function CommentLength(s: string, depth: nat): (k: nat)
    ensures k <= |s|
  {
    if |s| < 2 then 0
    else if s[..2] == "*/" && depth == 0 then 2
    else
      var step := if s[..2] in ["*/", "/*"] then 2 else 1;
      var inner := if s[..2] == "*/" then depth - 1 else if s[..2] == "/*" then depth + 1 else depth;
      var k := CommentLength(s[step..], inner);
      if k == 0 then 0 else step + k
  }

  /** The length of the comment at the start of a text; 0 if there is none, or none that is closed. */
  function CommentAt(s: string): (k: nat)
    ensures k <= |s|
  {
    if |s| < 2 then 0
    else if s[..2] == "--" then 1 + Run(Comment, s[0], s[1..])
    else if s[..2] == "/*" && CommentLength(s[2..], 0) > 0 then 2 + CommentLength(s[2..], 0)
    else 0
  }

  predicate IsBlank(c: char) { c in [' ', '\t', '\n', '\r', '\U{B}', '\U{C}'] }

  function Beyond(k: nat, gap: int): int { if gap < 0 then -1 else k + gap }

  /** The length of the white space character or the comment at the start of a text; 0 if there is none. */
  function SeparatorLength(t: string): (k: nat)
    requires t != []
    ensures k <= |t|
  {
    if IsBlank(t[0]) then 1 else CommentAt(t)
  }

  /** The length of white space and comments between a literal and a quote that continues it, -1 if none does:
      there must be a new line in between. */
  function Gap(z: string, newline: bool): (m: int)
    ensures m < 0 || (m < |z| && z[m] == '\'')
    decreases |z|
  {
    if z == [] then -1
    else if z[0] == '\'' then if newline then 0 else -1
    else if SeparatorLength(z) == 0 then -1
    else Beyond(SeparatorLength(z), Gap(z[SeparatorLength(z)..], newline || '\n' in z[..SeparatorLength(z)]))
  }

  /** The length of a literal with all its continuations; 0 if one of them is never closed. */
  function LiteralLength(s: string): (k: nat)
    requires StartsWith(s, '\'')
    ensures k <= |s|
    decreases |s|
  {
    var k := QuotedLength('\'', s);
    if k == 0 || Gap(s[k..], false) < 0 then k
    else
      var rest := s[k + Gap(s[k..], false)..];
      if LiteralLength(rest) == 0 then 0 else |s| - |rest| + LiteralLength(rest)
  }

  /** The kind and the length of a token; a length of 0 stands for one that is never closed. */
  function Closed(kind: Kind, start: nat, k: nat, s: string): (r: (Kind, nat))
    requires s != [] && start + k <= |s| && kind != Unclosed
    ensures 0 < r.1 <= |s| && (r.0 == Unclosed ==> r.1 == |s|)
  {
    if k == 0 then (Unclosed, |s|) else (kind, start + k)
  }

  /** The first token of a text, as long as possible (sections 5.2 and 5.3 of ISO/IEC 9075-2). */
  function First(s: string): (r: (Kind, nat))
    requires s != []
    ensures 0 < r.1 <= |s| && (r.0 == Unclosed ==> r.1 == |s|)
  {
    var c := s[0];
    if c == '\'' then Closed(Literal, 0, LiteralLength(s), s)
    else if c == '"' then Closed(Identifier, 0, QuotedLength('"', s), s)
    else if IsLetter(c) then
      var k := 1 + Run(Word, c, s[1..]);
      if IsIntroducer(s[..k]) && StartsWith(s[k..], '\'') then Closed(Literal, k, LiteralLength(s[k..]), s)
      else (Word, k)
    else if IsDigit(c) || (c == '.' && |s| > 1 && IsDigit(s[1])) then (Number, 1 + Run(Number, c, s[1..]))
    else if CommentAt(s) > 0 then (Comment, CommentAt(s))
    else if |s| > 1 && s[..2] == "/*" then (Unclosed, |s|)
    else (Symbol, 1)
  }

  function FirstToken(s: string): (token: Token)
    requires s != []
    ensures 0 < |token.text| <= |s|
  {
    Token(First(s).0, s[..First(s).1])
  }

  function Lex(s: string): seq<Token>
    decreases |s|
  {
    if s == [] then [] else [FirstToken(s)] + Lex(s[|FirstToken(s).text|..])
  }

  /** The token would read on into the text `z`. */
  predicate Joins(a: Token, z: string) {
    && z != []
    && match a.kind
       case Word => IsWordChar(z[0]) || (IsIntroducer(a.text) && z[0] == '\'')
       case Number => a.text != [] && GoesOn(Number, a.text[|a.text| - 1], z[0])
       case Literal => LiteralGoesOn(z)
       case Identifier => z[0] == '"'
       case Comment => StartsWith(a.text, '-') && z[0] != '\n'
       case Symbol => a.text + z[..1] in ["--", "/*"] || (a.text == "." && IsDigit(z[0]))
       case Unclosed => true
  }

  // ---------- lemmas about tokens ----------

  /** The texts agree on their first `n` characters. */
  predicate Share(s: string, t: string, n: nat) { n <= |s| && n <= |t| && s[..n] == t[..n] }

  lemma ShareDrop(s: string, t: string, k: nat, n: nat)
    requires Share(s, t, n) && k <= n
    ensures Share(s[k..], t[k..], n - k) && s[..k] == t[..k]
  {
    assert s[k..][..n - k] == s[..n][k..] && t[k..][..n - k] == t[..n][k..];
    assert s[..k] == s[..n][..k] && t[..k] == t[..n][..k];
  }

  lemma ShareAt(s: string, t: string, n: nat)
    requires Share(s, t, n)
    ensures forall i :: 0 <= i < n ==> s[i] == t[i]
  {
    assert forall i :: 0 <= i < n ==> s[i] == s[..n][i] && t[i] == t[..n][i];
  }

  lemma ShareAppend(x: string, z: string, n: nat)
    requires n <= |x|
    ensures Share(x, x + z, n) && (x + z)[n..] == x[n..] + z && (x + z)[..n] == x[..n]
  {}

  lemma ShareCut(s: string, r: nat, n: nat)
    requires n <= r <= |s|
    ensures Share(s, s[..r], n) && s[..r][n..] == s[n..][..r - n] && s[..r][..n] == s[..n]
  {}

  lemma {:induction false} RunAppend(kind: Kind, prev: char, x: string, z: string)
    requires Run(kind, prev, x) == |x|
    ensures Run(kind, prev, x + z) == |x| + Run(kind, if x == [] then prev else x[|x| - 1], z)
    decreases |x|
  {
    if x == [] {
      assert x + z == z;
    } else {
      assert (x + z)[1..] == x[1..] + z;
      RunAppend(kind, x[0], x[1..], z);
    }
  }

  lemma {:induction false} RunPrefix(kind: Kind, prev: char, s: string)
    ensures var k := Run(kind, prev, s); Run(kind, prev, s[..k]) == k
    decreases |s|
  {
    var k := Run(kind, prev, s);
    if k > 0 {
      RunPrefix(kind, s[0], s[1..]);
      assert s[..k][1..] == s[1..][..k - 1];
    }
  }

  lemma QuotedAppend(q: char, x: string, z: string)
    requires StartsWith(x, q) && QuotedLength(q, x) == |x|
    ensures QuotedLength(q, x + z) == |x| <==> !StartsWith(z, q)
  {
    var (content, rest) := Scan(q, x[1..]).value;
    ScanShape(q, x[1..]);
    assert x[1..] == Doubled(q, content) + [q];
    assert (x + z)[1..] == Doubled(q, content) + [q] + z;
    if !StartsWith(z, q) {
      ScanDoubled(q, content, z);
    } else {
      ScanMerges(q, content, z);
      QuotedSame(q, content, x, z);
    }
  }

  lemma QuotedSame(q: char, content: string, x: string, z: string)
    requires StartsWith(x, q) && x[1..] == Doubled(q, content) + [q]
    requires Scan(q, (x + z)[1..]).Some? ==> Scan(q, (x + z)[1..]).value.0 != content
    ensures QuotedLength(q, x + z) != |x|
  {
    if QuotedLength(q, x + z) == |x| {
      var (other, rest) := Scan(q, (x + z)[1..]).value;
      ScanShape(q, (x + z)[1..]);
      assert |rest| == |z|;
      var d := Doubled(q, other) + [q];
      assert (x + z)[1..] == x[1..] + z;
      assert d == (d + rest)[..|d|] == (x[1..] + z)[..|d|] == x[1..];
      assert d + [] == d;
      ScanDoubled(q, content, []);
      ScanDoubled(q, other, []);
    }
  }

  lemma QuotedPrefix(q: char, s: string)
    requires StartsWith(s, q) && QuotedLength(q, s) > 0
    ensures var x := s[..QuotedLength(q, s)]; StartsWith(x, q) && QuotedLength(q, x) == |x|
  {
    var (content, rest) := Scan(q, s[1..]).value;
    ScanShape(q, s[1..]);
    var d := Doubled(q, content) + [q];
    var x := s[..QuotedLength(q, s)];
    assert x[1..] == (d + rest)[..|d|] == d + [];
    ScanDoubled(q, content, []);
  }

  /** The comment ends inside the shared characters. */
  lemma {:induction false} CommentSame(s: string, t: string, depth: nat)
    requires CommentLength(s, depth) > 0 && Share(s, t, CommentLength(s, depth))
    ensures CommentLength(t, depth) == CommentLength(s, depth)
    decreases |s|
  {
    var k := CommentLength(s, depth);
    ShareDrop(s, t, 2, k);
    if !(s[..2] == "*/" && depth == 0) {
      var step := if s[..2] in ["*/", "/*"] then 2 else 1;
      var inner := if s[..2] == "*/" then depth - 1 else if s[..2] == "/*" then depth + 1 else depth;
      ShareDrop(s, t, step, k);
      CommentSame(s[step..], t[step..], inner);
    }
  }

  lemma CommentAppend(x: string, depth: nat, z: string)
    requires CommentLength(x, depth) == |x| > 0
    ensures CommentLength(x + z, depth) == |x|
  {
    ShareAppend(x, z, |x|);
    CommentSame(x, x + z, depth);
  }

  lemma CommentPrefix(s: string, depth: nat)
    requires CommentLength(s, depth) > 0
    ensures var k := CommentLength(s, depth); CommentLength(s[..k], depth) == k
  {
    var k := CommentLength(s, depth);
    ShareCut(s, k, k);
    CommentSame(s, s[..k], depth);
  }

  // ---------- lemmas about literals that go on ----------

  lemma QuotedStops(q: char, s: string)
    requires StartsWith(s, q) && QuotedLength(q, s) > 0
    ensures !StartsWith(s[QuotedLength(q, s)..], q)
  {
    var (content, rest) := Scan(q, s[1..]).value;
    ScanShape(q, s[1..]);
    assert s[QuotedLength(q, s)..] == rest by {
      assert s[1..] == Doubled(q, content) + [q] + rest;
    }
  }

  /** A further quote makes the quoted text longer, or leaves it open. */
  lemma QuotedLonger(q: char, x: string, z: string)
    requires StartsWith(x, q) && QuotedLength(q, x) == |x| && StartsWith(z, q)
    ensures QuotedLength(q, x + z) == 0 || QuotedLength(q, x + z) > |x|
  {
    QuotedAppend(q, x, z);
    var k := QuotedLength(q, x + z);
    if 0 < k <= |x| {
      QuotedPrefix(q, x + z);
      QuotedStops(q, x + z);
      assert (x + z)[..k] == x[..k];
      assert x[..k] + x[k..] == x;
      assert k < |x| ==> (x + z)[k..][0] == x[k..][0];
      QuotedAppend(q, x[..k], x[k..]);
    }
  }

  /** A run that ends inside the shared characters. */
  lemma {:induction false} RunSame(kind: Kind, prev: char, s: string, t: string)
    requires Share(s, t, Run(kind, prev, s) + 1)
    ensures Run(kind, prev, t) == Run(kind, prev, s)
    decreases |s|
  {
    var k := Run(kind, prev, s);
    ShareAt(s, t, k + 1);
    if k > 0 {
      ShareDrop(s, t, 1, k + 1);
      RunSame(kind, s[0], s[1..], t[1..]);
    }
  }

  lemma LineSame(s: string, t: string)
    requires |s| > 1 && s[..2] == "--" && Share(s, t, CommentAt(s) + 1)
    ensures CommentAt(t) == CommentAt(s)
  {
    assert s[1] == s[..2][1];
    assert CommentAt(s) >= 2;
    ShareDrop(s, t, 2, CommentAt(s) + 1);
    ShareDrop(s, t, 1, CommentAt(s) + 1);
    ShareAt(s, t, CommentAt(s) + 1);
    RunSame(Comment, s[0], s[1..], t[1..]);
  }

  lemma CommentAtSame(s: string, t: string)
    requires CommentAt(s) > 0 && Share(s, t, CommentAt(s) + 1)
    ensures CommentAt(t) == CommentAt(s)
  {
    if s[..2] == "--" {
      LineSame(s, t);
    } else {
      ShareDrop(s, t, 2, CommentAt(s) + 1);
      ShareDrop(s, t, 2, CommentAt(s));
      CommentSame(s[2..], t[2..], 0);
    }
  }

  lemma {:induction false} GapSame(s: string, t: string, newline: bool)
    requires Gap(s, newline) >= 0 && Share(s, t, Gap(s, newline) + 1)
    ensures Gap(t, newline) == Gap(s, newline)
    decreases |s|
  {
    hide CommentAt;
    var m := Gap(s, newline);
    ShareAt(s, t, m + 1);
    if s[0] != '\'' {
      var k := SeparatorLength(s);
      SeparatorSame(s, t, m + 1);
      ShareDrop(s, t, k, m + 1);
      GapSame(s[k..], t[k..], newline || '\n' in s[..k]);
    }
  }

  lemma SeparatorSame(s: string, t: string, n: nat)
    requires s != [] && 0 < SeparatorLength(s) < n && Share(s, t, n)
    ensures t != [] && SeparatorLength(t) == SeparatorLength(s)
  {
    var k := SeparatorLength(s);
    ShareAt(s, t, n);
    if !IsBlank(s[0]) {
      assert s[..k + 1] == s[..n][..k + 1] && t[..k + 1] == t[..n][..k + 1];
      CommentAtSame(s, t);
    }
  }

  /** A literal goes on after a quote, and after a gap. */
  predicate LiteralGoesOn(z: string) { StartsWith(z, '\'') || Gap(z, false) >= 0 }

  lemma LiteralLongEnough(s: string)
    requires StartsWith(s, '\'')
    ensures LiteralLength(s) == 0 || LiteralLength(s) >= QuotedLength('\'', s) > 0
  {}

  lemma LiteralLast(x: string, z: string)
    requires StartsWith(x, '\'') && QuotedLength('\'', x) == |x|
    ensures LiteralLength(x + z) == |x| <==> !LiteralGoesOn(z)
  {
    QuotedAppend('\'', x, z);
    assert (x + z)[|x|..] == z;
    if StartsWith(z, '\'') {
      QuotedLonger('\'', x, z);
      LiteralLongEnough(x + z);
    }
  }

  /** The first part of a literal is not changed by what follows. */
  lemma FirstPart(s: string, t: string)
    requires StartsWith(s, '\'') && QuotedLength('\'', s) > 0 && Share(s, t, QuotedLength('\'', s) + 1)
    ensures StartsWith(t, '\'') && QuotedLength('\'', t) == QuotedLength('\'', s)
  {
    var k := QuotedLength('\'', s);
    ShareAt(s, t, k + 1);
    ShareDrop(s, t, k, k + 1);
    QuotedPrefix('\'', s);
    QuotedStops('\'', s);
    assert t[k..][0] == s[k..][0];
    assert t[..k] + t[k..] == t;
    QuotedAppend('\'', t[..k], t[k..]);
  }

  /** Where a literal goes on, if it does. */
  function NextPart(s: string): (i: int)
    requires StartsWith(s, '\'')
    ensures i < 0 || (0 < i < |s| && s[i] == '\'')
  {
    var k := QuotedLength('\'', s);
    if k == 0 then -1 else
      assert Gap(s[k..], false) >= 0 ==> s[k..][Gap(s[k..], false)] == s[k + Gap(s[k..], false)];
      Beyond(k, Gap(s[k..], false))
  }

  lemma LiteralStep(s: string)
    requires StartsWith(s, '\'')
    ensures
      var i := NextPart(s);
      LiteralLength(s) ==
        if i < 0 then QuotedLength('\'', s) else if LiteralLength(s[i..]) == 0 then 0 else i + LiteralLength(s[i..])
  {}

  lemma NextPartAt(t: string, k: nat, gap: nat)
    requires StartsWith(t, '\'') && QuotedLength('\'', t) == k > 0 && Gap(t[k..], false) == gap
    ensures NextPart(t) == k + gap
  {}

  lemma NextPartSame(s: string, t: string)
    requires StartsWith(s, '\'') && NextPart(s) >= 0 && Share(s, t, NextPart(s) + 1)
    ensures StartsWith(t, '\'') && NextPart(t) == NextPart(s)
  {
    hide CommentAt, Run, QuotedLength;
    var k, i := QuotedLength('\'', s), NextPart(s);
    ShareDrop(s, t, k + 1, i + 1);
    FirstPart(s, t);
    ShareDrop(s, t, k, i + 1);
    GapSame(s[k..], t[k..], false);
    NextPartAt(t, k, i - k);
  }

  lemma {:induction false} LiteralAppend(x: string, z: string)
    requires StartsWith(x, '\'') && LiteralLength(x) == |x|
    ensures LiteralLength(x + z) == |x| <==> !LiteralGoesOn(z)
    decreases |x|
  {
    var i := NextPart(x);
    LiteralStep(x);
    if i < 0 {
      LiteralLast(x, z);
    } else {
      ShareAppend(x, z, i + 1);
      NextPartSame(x, x + z);
      LiteralStep(x + z);
      ShareAppend(x, z, i);
      LiteralAppend(x[i..], z);
    }
  }

  lemma LiteralCutLast(s: string)
    requires StartsWith(s, '\'') && NextPart(s) < 0 && LiteralLength(s) > 0
    ensures var x := s[..LiteralLength(s)]; StartsWith(x, '\'') && LiteralLength(x) == |x|
  {
    QuotedPrefix('\'', s);
    LiteralStep(s);
    var x := s[..LiteralLength(s)];
    assert x[|x|..] == [];
  }

  lemma NextPartCut(s: string, r: nat)
    requires StartsWith(s, '\'') && 0 <= NextPart(s) < r <= |s|
    ensures
      var i := NextPart(s);
      StartsWith(s[..r], '\'') && NextPart(s[..r]) == i && s[..r][i..] == s[i..][..r - i]
  {
    ShareCut(s, r, NextPart(s) + 1);
    NextPartSame(s, s[..r]);
    ShareCut(s, r, NextPart(s));
  }

  /** One step over the first part, for a text of which the rest is `tail`. */
  lemma LiteralFrom(x: string, i: nat, tail: string)
    requires StartsWith(x, '\'') && NextPart(x) == i && x[i..] == tail
    requires StartsWith(tail, '\'') && LiteralLength(tail) == |tail|
    ensures LiteralLength(x) == |x|
  {
    LiteralStep(x);
  }

  lemma {:induction false} LiteralCut(s: string)
    requires StartsWith(s, '\'') && LiteralLength(s) > 0
    ensures var x := s[..LiteralLength(s)]; StartsWith(x, '\'') && LiteralLength(x) == |x|
    decreases |s|
  {
    hide LiteralLength, NextPart;
    var i, r := NextPart(s), LiteralLength(s);
    if i < 0 {
      LiteralCutLast(s);
    } else {
      LiteralStep(s);
      var rest := s[i..];
      LiteralCut(rest);
      NextPartCut(s, r);
      LiteralFrom(s[..r], i, rest[..r - i]);
    }
  }

  /** A token that reads as itself when nothing follows. */
  predicate IsProper(a: Token) { a.text != [] && First(a.text) == (a.kind, |a.text|) }

  /** In front of `z` the token is still read as itself. */
  predicate ReadsAs(a: Token, z: string)
    requires a.text != []
  {
    First(a.text + z) == (a.kind, |a.text|)
  }

  lemma IdentifierReads(a: Token, z: string)
    requires IsProper(a) && a.kind == Identifier
    ensures ReadsAs(a, z) <==> !Joins(a, z)
  {
    QuotedAppend('"', a.text, z);
  }

  lemma LiteralReads(a: Token, z: string)
    requires IsProper(a) && a.text[0] == '\'' && a.kind == Literal
    ensures ReadsAs(a, z) <==> !Joins(a, z)
  {
    LiteralAppend(a.text, z);
  }

  /** A text that begins with an introducer and a quote. */
  predicate IsIntroduced(s: string, k: nat) {
    && s != [] && IsLetter(s[0]) && k == 1 + Run(Word, s[0], s[1..]) && k < |s|
    && IsIntroducer(s[..k]) && s[k] == '\''
  }

  lemma IntroducedFirst(s: string, k: nat)
    requires IsIntroduced(s, k)
    ensures StartsWith(s[k..], '\'') && First(s) == Closed(Literal, k, LiteralLength(s[k..]), s)
  {}

  lemma IntroducedSame(s: string, k: nat, t: string)
    requires IsIntroduced(s, k) && Share(s, t, k + 1)
    ensures IsIntroduced(t, k)
  {
    ShareAt(s, t, k + 1);
    ShareDrop(s, t, k, k + 1);
    ShareDrop(s, t, 1, k + 1);
    RunSame(Word, s[0], s[1..], t[1..]);
  }

  lemma IntroducedLiteral(s: string) returns (k: nat)
    requires s != [] && IsLetter(s[0]) && First(s).0 == Literal
    ensures IsIntroduced(s, k)
  {
    k := 1 + Run(Word, s[0], s[1..]);
    assert s[k..][0] == s[k];
  }

  lemma IntroducedAppend(x: string, k: nat, z: string)
    requires IsIntroduced(x, k) && StartsWith(x[k..], '\'') && LiteralLength(x[k..]) == |x| - k
    ensures IsIntroduced(x + z, k) && (x + z)[k..] == x[k..] + z
    ensures LiteralLength(x[k..] + z) == |x| - k <==> !LiteralGoesOn(z)
  {
    ShareAppend(x, z, k + 1);
    IntroducedSame(x, k, x + z);
    ShareAppend(x, z, k);
    LiteralAppend(x[k..], z);
  }

  /** A literal with an introducer. */
  lemma IntroducedReads(a: Token, z: string)
    requires IsProper(a) && IsLetter(a.text[0]) && a.kind == Literal
    ensures ReadsAs(a, z) <==> !Joins(a, z)
  {
    hide First, LiteralLength;
    var k := IntroducedLiteral(a.text);
    IntroducedFirst(a.text, k);
    IntroducedAppend(a.text, k, z);
    IntroducedFirst(a.text + z, k);
  }

  lemma WordReads(a: Token, z: string)
    requires IsProper(a) && IsLetter(a.text[0]) && a.kind == Word
    ensures ReadsAs(a, z) <==> !Joins(a, z)
  {
    var x := a.text;
    assert (x + z)[1..] == x[1..] + z;
    RunAppend(Word, x[0], x[1..], z);
    if z != [] && !IsWordChar(z[0]) {
      assert x[..|x|] == x && (x + z)[..|x|] == x && (x + z)[|x|..] == z;
    }
  }

  lemma NumberReads(a: Token, z: string)
    requires IsProper(a) && a.kind == Number
    ensures ReadsAs(a, z) <==> !Joins(a, z)
  {
    var x := a.text;
    RunFrom(Number, x, z);
    if x[0] == '.' {
      assert (x + z)[1] == x[1];
    }
  }

  /** A run from the first character of a token on. */
  lemma RunFrom(kind: Kind, x: string, z: string)
    requires x != [] && Run(kind, x[0], x[1..]) == |x| - 1
    ensures Run(kind, x[0], (x + z)[1..]) == |x| - 1 + Run(kind, x[|x| - 1], z)
  {
    assert (x + z)[1..] == x[1..] + z;
    RunAppend(kind, x[0], x[1..], z);
    assert x[|x| - 1] == if x[1..] == [] then x[0] else x[1..][|x| - 2];
  }

  lemma CommentReads(a: Token, z: string)
    requires IsProper(a) && a.kind == Comment
    ensures ReadsAs(a, z) <==> !Joins(a, z)
  {
    var x := a.text;
    assert (x + z)[..2] == x[..2];
    if x[0] == '-' {
      assert (x + z)[1..] == x[1..] + z;
      RunAppend(Comment, x[0], x[1..], z);
    } else {
      assert (x + z)[2..] == x[2..] + z;
      CommentAppend(x[2..], 0, z);
    }
  }

  lemma SymbolReads(a: Token, z: string)
    requires IsProper(a) && a.kind == Symbol
    ensures ReadsAs(a, z) <==> !Joins(a, z)
  {
    var x := a.text;
    if z != [] {
      assert (x + z)[..2] == x + z[..1];
    }
  }

  /** A token stays the first token of a longer text if and only if it does not join it. */
  lemma ReadsIff(a: Token, z: string)
    requires IsProper(a)
    ensures ReadsAs(a, z) <==> !Joins(a, z)
  {
    assert a.text + [] == a.text;
    match a.kind
    case Unclosed =>
    case Symbol => SymbolReads(a, z);
    case Number => NumberReads(a, z);
    case Word => WordReads(a, z);
    case Comment => CommentReads(a, z);
    case Identifier => IdentifierReads(a, z);
    case Literal => if IsLetter(a.text[0]) { IntroducedReads(a, z); } else { LiteralReads(a, z); }
  }

  // ---------- the tokens of a text are proper ----------

  lemma IdentifierProper(s: string)
    requires s != [] && First(s).0 == Identifier
    ensures IsProper(FirstToken(s))
  {
    QuotedPrefix('"', s);
  }

  lemma LiteralProper(s: string)
    requires StartsWith(s, '\'') && LiteralLength(s) > 0
    ensures IsProper(FirstToken(s))
  {
    LiteralCut(s);
  }

  lemma WordProper(s: string)
    requires s != [] && IsLetter(s[0]) && First(s).0 == Word
    ensures IsProper(FirstToken(s))
  {
    var k := 1 + Run(Word, s[0], s[1..]);
    RunPrefix(Word, s[0], s[1..]);
    assert s[..k][1..] == s[1..][..k - 1];
    assert s[..k][..k] == s[..k] && s[..k][k..] == [];
  }

  lemma IntroducedProper(s: string)
    requires s != [] && IsLetter(s[0]) && First(s).0 == Literal
    ensures IsProper(FirstToken(s))
  {
    var k := IntroducedLiteral(s);
    var r := First(s).1;
    IntroducedFirst(s, k);
    ShareCut(s, r, k + 1);
    IntroducedSame(s, k, s[..r]);
    IntroducedFirst(s[..r], k);
    ShareCut(s, r, k);
    LiteralCut(s[k..]);
  }

  lemma NumberProper(s: string)
    requires s != [] && First(s).0 == Number
    ensures IsProper(FirstToken(s))
  {
    var k := First(s).1;
    RunPrefix(Number, s[0], s[1..]);
    assert s[..k][1..] == s[1..][..k - 1];
    if s[0] == '.' {
      assert s[..k][1] == s[1];
    }
  }

  lemma LineIs(x: string)
    requires |x| > 1 && x[0] == '-' && x[1] == '-' && Run(Comment, x[0], x[1..]) == |x| - 1
    ensures First(x) == (Comment, |x|)
  {
    assert x[..2] == "--";
  }

  lemma LineProper(s: string)
    requires |s| > 1 && s[..2] == "--"
    ensures IsProper(FirstToken(s))
  {
    var k := 1 + Run(Comment, s[0], s[1..]);
    assert s[0] == s[..2][0] && s[1] == s[..2][1];
    RunPrefix(Comment, s[0], s[1..]);
    assert s[..k][1..] == s[1..][..k - 1];
    LineIs(s[..k]);
  }

  lemma BracketedProper(s: string)
    requires |s| > 1 && s[..2] == "/*" && CommentLength(s[2..], 0) > 0
    ensures IsProper(FirstToken(s))
  {
    var k := CommentLength(s[2..], 0);
    var x := s[..2 + k];
    CommentPrefix(s[2..], 0);
    assert x[2..] == s[2..][..k];
    assert x[..2] == s[..2];
    assert s[0] == s[..2][0];
  }

  /** Read on its own, the first token of a text is the same token. */
  lemma FirstProper(s: string)
    requires s != []
    ensures IsProper(FirstToken(s))
  {
    match First(s).0
    case Symbol =>
    case Unclosed => assert s[..|s|] == s;
    case Number => NumberProper(s);
    case Word => WordProper(s);
    case Comment => if s[..2] == "--" { LineProper(s); } else { BracketedProper(s); }
    case Identifier => IdentifierProper(s);
    case Literal => if IsLetter(s[0]) { IntroducedProper(s); } else { LiteralProper(s); }
  }

  lemma {:induction false} DigitsRun(prev: char, s: string)
    requires forall i :: 0 <= i < |s| ==> IsDigit(s[i])
    ensures Run(Number, prev, s) == |s|
    decreases |s|
  {
    if s != [] {
      DigitsRun(s[0], s[1..]);
    }
  }

  lemma NumberIsProper(n: nat)
    ensures IsProper(Token(Number, ShowNat(n)))
  {
    DigitsRun(ShowNat(n)[0], ShowNat(n)[1..]);
  }

  lemma LiteralIsProper(content: string)
    ensures IsProper(Token(Literal, Quoted('\'', content)))
  {
    var x := Quoted('\'', content);
    assert x[1..] == Doubled('\'', content) + ['\''] + [];
    ScanDoubled('\'', content, []);
  }

  lemma {:induction false} LettersRun(prev: char, s: string)
    requires forall i :: 0 <= i < |s| ==> IsLetter(s[i])
    ensures Run(Word, prev, s) == |s|
    decreases |s|
  {
    if s != [] {
      LettersRun(s[0], s[1..]);
    }
  }

  lemma WordIsProper(word: string)
    requires word != [] && forall i :: 0 <= i < |word| ==> IsLetter(word[i])
    ensures IsProper(Token(Word, word))
  {
    LettersRun(word[0], word[1..]);
    assert word[..|word|] == word && word[|word|..] == [];
  }

  // ---------- the tokens after a token ----------

  lemma LexFirst(a: Token, z: string)
    requires IsProper(a)
    ensures !Joins(a, z) ==> Lex(a.text + z) == [a] + Lex(z)
    ensures Joins(a, z) ==> Lex(a.text + z)[0] != a
  {
    ReadsIff(a, z);
    assert (a.text + z)[..|a.text|] == a.text && (a.text + z)[|a.text|..] == z;
  }

  lemma SignStays(digits: string)
    requires digits != [] && IsDigit(digits[0])
    ensures IsProper(Token(Symbol, "-")) && !Joins(Token(Symbol, "-"), digits)
  {
    var two := "-" + digits[..1];
    assert two[1] != '-' && two[0] != '/';
  }

  lemma LexOne(a: Token, z: string, tail: seq<Token>)
    requires IsProper(a)
    ensures Lex(a.text + z) == [a] + tail <==> !Joins(a, z) && Lex(z) == tail
  {
    LexFirst(a, z);
    SameTail(a, Lex(z), tail);
  }

  lemma SameTail<T>(c: T, a: seq<T>, b: seq<T>)
    ensures [c] + a == [c] + b <==> a == b
  {
    assert ([c] + a)[1..] == a && ([c] + b)[1..] == b;
  }

  /** The texts are both empty, or begin with the same character. */
  predicate SameStart(z: string, y: string) { (z == [] <==> y == []) && (z != [] ==> z[0] == y[0]) }

  /** Except for literals only the first character of what follows matters. */
  lemma JoinsFirst(a: Token, z: string, y: string)
    requires a.kind != Literal && SameStart(z, y)
    ensures Joins(a, z) == Joins(a, y)
  {
    if z != [] {
      assert z[..1] == [z[0]] == y[..1];
    }
  }

  /** Only a comment and a symbol begin like a comment, unless it is never closed. */
  lemma CommentIsFirst(s: string)
    requires s != [] && s[0] in ['-', '/']
    ensures First(s).0 in [Comment, Symbol, Unclosed]
    ensures First(s).0 == Comment <==> CommentAt(s) > 0
    ensures First(s).0 == Comment ==> First(s).1 == CommentAt(s)
  {}

  lemma CommentStart(s: string)
    requires CommentAt(s) > 0
    ensures s[0] in ['-', '/']
  {
    assert s[0] == s[..2][0];
  }
}
