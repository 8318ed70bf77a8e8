/** Quoted text and decimal numbers of SQL: how the drivers print them, and how a reader of SQL takes them
    apart (sections 5.2 and 5.3 of ISO/IEC 9075-2: a quote inside quotes is written twice). */
module SqlText {
  import opened Wrappers

  /** Every occurrence of the quote character doubled. */
  function Doubled(q: char, s: string): string {
    if s == [] then [] else (if s[0] == q then [q, q] else [s[0]]) + Doubled(q, s[1..])
  }

  function Quoted(q: char, s: string): string {
    [q] + Doubled(q, s) + [q]
  }

  predicate StartsWith(s: string, c: char) { s != [] && s[0] == c }

  /** Reads quoted text after its opening quote: the content and what follows the closing quote. */
  function Scan(q: char, s: string): Option<(string, string)> {
    if s == [] then None
    else if s[0] != q then
      match Scan(q, s[1..])
      case None => None
      case Some((content, rest)) => Some(([s[0]] + content, rest))
    else if StartsWith(s[1..], q) then
      match Scan(q, s[2..])
      case None => None
      case Some((content, rest)) => Some(([q] + content, rest))
    else Some(([], s[1..]))
  }

  /** Reading printed text gives it back, provided that no further quote follows. */
  lemma {:induction false} ScanDoubled(q: char, s: string, rest: string)
    requires !StartsWith(rest, q)
    ensures Scan(q, Doubled(q, s) + [q] + rest) == Some((s, rest))
  {
    var text := Doubled(q, s) + [q] + rest;
    if s == [] {
      assert text == [q] + rest && text[1..] == rest;
    } else {
      ScanDoubled(q, s[1..], rest);
      var tail := Doubled(q, s[1..]) + [q] + rest;
      if s[0] == q {
        assert text == [q, q] + tail && text[2..] == tail && text[1..][0] == q;
      } else {
        assert text == [s[0]] + tail && text[1..] == tail;
      }
      assert [s[0]] + s[1..] == s;
    }
  }

  /** If a further quote follows, the two quotes are read as part of the content. */
  lemma {:induction false} ScanMerges(q: char, s: string, rest: string)
    requires StartsWith(rest, q)
    ensures
      var r := Scan(q, Doubled(q, s) + [q] + rest);
      r.Some? ==> |r.value.0| > |s|
  {
    var text := Doubled(q, s) + [q] + rest;
    if s == [] {
      assert text == [q] + rest && text[1..] == rest && text[2..] == rest[1..];
    } else {
      ScanMerges(q, s[1..], rest);
      var tail := Doubled(q, s[1..]) + [q] + rest;
      if s[0] == q {
        assert text == [q, q] + tail && text[2..] == tail && text[1..][0] == q;
      } else {
        assert text == [s[0]] + tail && text[1..] == tail;
      }
    }
  }

  /** What `Scan` accepts is the doubled content, a quote, and a rest that does not begin with a quote. */
  lemma {:induction false} ScanShape(q: char, s: string)
    requires Scan(q, s).Some?
    ensures
      var (content, rest) := Scan(q, s).value;
      s == Doubled(q, content) + [q] + rest && !StartsWith(rest, q) && |rest| < |s|
  {
    var (content, rest) := Scan(q, s).value;
    if s[0] != q {
      ScanShape(q, s[1..]);
      assert content[1..] == Scan(q, s[1..]).value.0;
      assert s == [s[0]] + s[1..];
    } else if StartsWith(s[1..], q) {
      ScanShape(q, s[2..]);
      assert content[1..] == Scan(q, s[2..]).value.0;
      assert s == [q, q] + s[2..];
    } else {
      assert s == [q] + s[1..];
    }
  }

  // ---------- decimal numbers ----------

  predicate IsDigit(c: char) { '0' <= c <= '9' }

  function DigitChar(d: nat): (c: char)
    requires d < 10
    ensures IsDigit(c) && DigitValue(c) == d
  {
    ('0' as int + d) as char
  }

  function DigitValue(c: char): (d: nat)
    requires IsDigit(c)
    ensures d < 10
  {
    c as int - '0' as int
  }

  function ShowNat(n: nat): (s: string)
    ensures s != [] && forall i :: 0 <= i < |s| ==> IsDigit(s[i])
  {
    if n < 10 then [DigitChar(n)] else ShowNat(n / 10) + [DigitChar(n % 10)]
  }

  function ShowInt(n: int): string {
    if n < 0 then "-" + ShowNat(-n) else ShowNat(n)
  }

  function ReadNat(s: string): nat
    requires forall i :: 0 <= i < |s| ==> IsDigit(s[i])
  {
    if s == [] then 0 else 10 * ReadNat(s[..|s| - 1]) + DigitValue(s[|s| - 1])
  }

  lemma {:induction false} ReadShow(n: nat)
    ensures ReadNat(ShowNat(n)) == n
  {
    var s := ShowNat(n);
    if n < 10 {
      assert s[..0] == [];
    } else {
      ReadShow(n / 10);
      assert s[..|s| - 1] == ShowNat(n / 10);
    }
  }

  function PowerOfTen(n: nat): nat { if n == 0 then 1 else 10 * PowerOfTen(n - 1) }

  /** Each digit counts by its place. */
  function PlaceValue(s: string): int
    requires forall i :: 0 <= i < |s| ==> IsDigit(s[i])
  {
    if s == [] then 0 else (s[0] as int - '0' as int) * PowerOfTen(|s| - 1) + PlaceValue(s[1..])
  }

  lemma TimesTen(d: int, p: int)
    ensures d * (10 * p) == 10 * (d * p)
  {}

  lemma PlaceValueCons(c: char, s: string)
    requires IsDigit(c) && forall i :: 0 <= i < |s| ==> IsDigit(s[i])
    ensures PlaceValue([c] + s) == (c as int - '0' as int) * PowerOfTen(|s|) + PlaceValue(s)
  {
    assert ([c] + s)[1..] == s;
  }

  lemma {:induction false} PlaceValueSnoc(s: string, c: char)
    requires IsDigit(c) && forall i :: 0 <= i < |s| ==> IsDigit(s[i])
    ensures PlaceValue(s + [c]) == 10 * PlaceValue(s) + (c as int - '0' as int)
  {
    if s == [] {
      assert s + [c] == [c] + [];
      PlaceValueCons(c, []);
      assert PowerOfTen(0) == 1;
    } else {
      var d, tail := s[0], s[1..];
      assert s + [c] == [d] + (tail + [c]) && s == [d] + tail;
      PlaceValueSnoc(tail, c);
      PlaceValueCons(d, tail + [c]);
      PlaceValueCons(d, tail);
      TimesTen(d as int - '0' as int, PowerOfTen(|tail|));
      assert PowerOfTen(|tail| + 1) == 10 * PowerOfTen(|tail|);
    }
  }

  lemma {:induction false} ReadIsPlaceValue(s: string)
    requires forall i :: 0 <= i < |s| ==> IsDigit(s[i])
    ensures ReadNat(s) == PlaceValue(s)
    decreases |s|
  {
    if s != [] {
      var n := |s| - 1;
      ReadIsPlaceValue(s[..n]);
      PlaceValueSnoc(s[..n], s[n]);
      assert s == s[..n] + [s[n]];
    }
  }

  /** Numbers are printed in decimal notation, without leading zeros. */
  lemma {:induction false} ShowsDecimal(n: nat)
    ensures PlaceValue(ShowNat(n)) == n && (n > 0 ==> ShowNat(n)[0] != '0') && (n == 0 ==> ShowNat(n) == "0")
  {
    ReadShow(n);
    ReadIsPlaceValue(ShowNat(n));
    if n >= 10 {
      ShowsDecimal(n / 10);
      assert ShowNat(n)[0] == ShowNat(n / 10)[0];
    }
  }

  function Zeros(n: nat): (s: string)
    ensures |s| == n && forall i :: 0 <= i < n ==> s[i] == '0'
  {
    seq(n, _ => '0')
  }

  lemma {:induction false} LeadingZeros(zeros: nat, digits: string)
    requires forall i :: 0 <= i < |digits| ==> IsDigit(digits[i])
    ensures PlaceValue(Zeros(zeros) + digits) == PlaceValue(digits)
  {
    if zeros == 0 {
      assert Zeros(0) + digits == digits;
    } else {
      var s := Zeros(zeros) + digits;
      LeadingZeros(zeros - 1, digits);
      assert s[0] == '0' && s[1..] == Zeros(zeros - 1) + digits;
    }
  }

  /** The length of the digits a text begins with. */
  function DigitRun(s: string): (k: nat)
    ensures k <= |s| && (forall i :: 0 <= i < k ==> IsDigit(s[i])) && (k < |s| ==> !IsDigit(s[k]))
  {
    if s != [] && IsDigit(s[0]) then
      var k := DigitRun(s[1..]);
      assert forall i :: 0 < i < k + 1 ==> s[i] == s[1..][i - 1];
      k + 1
    else 0
  }

  lemma {:induction false} DigitRunAppend(digits: string, rest: string)
    requires forall i :: 0 <= i < |digits| ==> IsDigit(digits[i])
    requires rest == [] || !IsDigit(rest[0])
    ensures DigitRun(digits + rest) == |digits|
  {
    if digits == [] {
      assert digits + rest == rest;
    } else {
      assert (digits + rest)[1..] == digits[1..] + rest;
      DigitRunAppend(digits[1..], rest);
    }
  }
}
