/** The strict parser and the printer against independent notations: ASCII characters, positional decimals, UTF-16
    code points, and the layout of a canonical text. */
module StrictJsonNotation {
  import opened JobState
  import opened StrictJson
  import opened StrictJsonTheorems
  import opened StrictJsonCanonical

  // ---------------------------------------------------------------- characters

  /** The grammar's character classes and marks (sections 2, 6 and 7 of RFC 8259). */
  lemma TerminalsAreAscii(u: Unit)
    ensures IsSpace(u) <==> u == ' ' as int || u == '\t' as int || u == '\n' as int || u == '\r' as int
    ensures IsDigit(u) <==> '0' as int <= u <= '9' as int
    ensures IsExponent(u) <==> u == 'e' as int || u == 'E' as int
    ensures IsHexDigit(u) <==> IsDigit(u) || 'a' as int <= u <= 'f' as int || 'A' as int <= u <= 'F' as int
    ensures IsShort(u) <==>
      || u == '"' as int || u == '\\' as int || u == '/' as int || u == 'b' as int || u == 'f' as int
      || u == 'n' as int || u == 'r' as int || u == 't' as int
    ensures PartOk(Raw(u)) <==> u >= ' ' as int && u != '"' as int && u != '\\' as int
    ensures QUOTE == '"' as int && BACKSLASH == '\\' as int && MINUS == '-' as int && PLUS == '+' as int && DOT == '.' as int
    ensures COMMA == ',' as int && COLON == ':' as int && ZERO == '0' as int
    ensures OPEN_BRACKET == '[' as int && CLOSE_BRACKET == ']' as int && OPEN_BRACE == '{' as int && CLOSE_BRACE == '}' as int
    ensures TRUE == ['t' as int, 'r' as int, 'u' as int, 'e' as int] && NULL == ['n' as int, 'u' as int, 'l' as int, 'l' as int]
    ensures FALSE == ['f' as int, 'a' as int, 'l' as int, 's' as int, 'e' as int]
  {}

  /** What the two-character escapes stand for: backspace, form feed, line feed, return and tab, or themselves. */
  lemma ShortEscapes(u: Unit)
    ensures ShortMeaning('b' as int) == 8 && ShortMeaning('f' as int) == 12
    ensures ShortMeaning('n' as int) == '\n' as int && ShortMeaning('r' as int) == '\r' as int && ShortMeaning('t' as int) == '\t' as int
    ensures u == '"' as int || u == '\\' as int || u == '/' as int ==> PartMeaning(Short(u)) == u
    ensures PartMeaning(Raw(u)) == u
  {}

  function HexDigit(n: nat, upper: bool): Unit
    requires n < 16
  {
    if upper then "0123456789ABCDEF"[n] as int else "0123456789abcdef"[n] as int
  }

  lemma HexDigitCounts(n: nat, upper: bool)
    requires n < 16
    ensures IsHexDigit(HexDigit(n, upper)) && HexValue(HexDigit(n, upper)) == n
  {}

  /** Four hexadecimal digits, in either case, name their code unit. */
  lemma HexEscapes(a: nat, b: nat, c: nat, d: nat, upper: (bool, bool, bool, bool))
    requires a < 16 && b < 16 && c < 16 && d < 16
    ensures var part := Hex(HexDigit(a, upper.0), HexDigit(b, upper.1), HexDigit(c, upper.2), HexDigit(d, upper.3));
      PartOk(part) && PartMeaning(part) == 4096 * a + 256 * b + 16 * c + d
  {
    hide HexDigit, HexValue, IsHexDigit;
    HexDigitCounts(a, upper.0);
    HexDigitCounts(b, upper.1);
    HexDigitCounts(c, upper.2);
    HexDigitCounts(d, upper.3);
  }

  /** The printer escapes only what may not stand for itself, by the short form where there is one, else by four
      lower case hexadecimal digits. */
  lemma EscapesExactly(u: Unit)
    ensures PartOk(Raw(u)) ==> EscapeOf(u) == [u]
    ensures !PartOk(Raw(u)) ==> forall c :: IsShort(c) && ShortMeaning(c) == u ==> EscapeOf(u) == [BACKSLASH, c]
    ensures !PartOk(Raw(u)) && (forall c :: IsShort(c) ==> ShortMeaning(c) != u) ==>
      u < 32 && EscapeOf(u) == [BACKSLASH, 'u' as int, ZERO, ZERO, HexDigit(u / 16, false), HexDigit(u % 16, false)]
  {
    if u < 32 {
      var high: nat, low: nat := u / 16, u % 16;
      LowerHex(high);
      LowerHex(low);
    }
    assert IsShort('b' as int) && IsShort('f' as int) && IsShort('n' as int) && IsShort('r' as int) && IsShort('t' as int);
    assert IsShort(QUOTE) && IsShort(BACKSLASH);
    ShortEscapes(u);
  }

  lemma LowerHex(n: nat)
    requires n < 16
    ensures HexUnitOf(n) == HexDigit(n, false)
  {}

  // ---------------------------------------------------------------- numbers

  function Ten(n: nat): nat { if n == 0 then 1 else 10 * Ten(n - 1) }

  /** The number a row of digits writes, each digit by its place. */
  function Numeral(t: Text): nat
    requires AllDigits(t)
  {
    if t == [] then 0 else (t[0] - '0' as int) * Ten(|t| - 1) + Numeral(t[1..])
  }

  /** The digits after a decimal point. */
  function FractionValue(t: Text): real
    requires AllDigits(t)
  {
    if t == [] then 0.0 else ((t[0] - '0' as int) as real + FractionValue(t[1..])) / 10.0
  }

  function TenTo(e: int): real
    decreases if e < 0 then -e else e
  {
    if e == 0 then 1.0 else if e > 0 then 10.0 * TenTo(e - 1) else TenTo(e + 1) / 10.0
  }

  /** The written exponent. */
  function Power(l: Lexeme): int
    requires LexemeOk(l)
  {
    match l.exponent
    case None => 0
    case Some(e) => if e.sign == MinusSign then -(Numeral(e.digits) as int) else Numeral(e.digits)
  }

  function FractionOf(l: Lexeme): Text { if l.fraction.Some? then l.fraction.value else [] }

  /** The number a lexeme writes: sign, whole digits and fraction, times ten to the exponent. */
  function Written(l: Lexeme): real
    requires LexemeOk(l)
  {
    var magnitude := (Numeral(l.whole) as real + FractionValue(FractionOf(l))) * TenTo(Power(l));
    if l.negative then -magnitude else magnitude
  }

  lemma {:induction false} NumeralJoins(a: Text, b: Text)
    requires AllDigits(a) && AllDigits(b)
    ensures AllDigits(a + b) && Numeral(a + b) == Numeral(a) * Ten(|b|) + Numeral(b)
  {
    if a == [] {
      assert a + b == b;
    } else {
      NumeralJoins(a[1..], b);
      assert (a + b)[1..] == a[1..] + b && (a + b)[0] == a[0];
      TenJoins(|a| - 1, |b|);
      var x: nat := a[0] - '0' as int;
      Distributes(x, Ten(|a| - 1), Numeral(a[1..]), Ten(|b|));
    }
  }

  lemma Distributes(x: nat, t: nat, m: nat, u: nat)
    ensures (x * t + m) * u == x * (t * u) + m * u
  {}

  lemma TenTimes(a: nat, b: nat)
    ensures (10 * a) * b == 10 * (a * b)
  {}

  lemma {:induction false} TenJoins(m: nat, n: nat)
    ensures Ten(m + n) == Ten(m) * Ten(n)
  {
    if m > 0 {
      TenJoins(m - 1, n);
      TenTimes(Ten(m - 1), Ten(n));
      assert Ten(m + n) == 10 * Ten(m - 1 + n);
    }
  }

  lemma {:induction false} DigitsAreNumeral(t: Text)
    requires AllDigits(t)
    ensures DigitsValue(t) == Numeral(t)
  {
    if t != [] {
      var init, last := t[..|t| - 1], [t[|t| - 1]];
      DigitsAreNumeral(init);
      NumeralJoins(init, last);
      assert t == init + last && last[1..] == [];
      assert Ten(1) == 10 && Ten(0) == 1;
    }
  }

  lemma {:induction false} PowersAgree(n: nat)
    ensures Pow10(n) == Ten(n) as real == TenTo(n) && Pow10(n) > 0.0 && TenTo(-(n as int)) == 1.0 / Pow10(n)
  {
    if n > 0 {
      PowersAgree(n - 1);
      Reciprocal(Pow10(n - 1));
    }
  }

  lemma Reciprocal(x: real)
    requires x > 0.0
    ensures (1.0 / x) / 10.0 == 1.0 / (10.0 * x)
  {
    var y := 1.0 / x;
    assert y * x == 1.0;
    assert (y / 10.0) * (10.0 * x) == y * x;
  }

  function Product(a: real, b: real): real { a * b }

  lemma {:induction false} FractionIsNumeral(t: Text)
    requires AllDigits(t)
    ensures Product(FractionValue(t), Pow10(|t|)) == Numeral(t) as real
  {
    if t != [] {
      FractionIsNumeral(t[1..]);
      FirstPlace(t);
    }
  }

  /** One more digit in front of a fraction. */
  lemma FirstPlace(t: Text)
    requires AllDigits(t) && t != [] && Product(FractionValue(t[1..]), Pow10(|t| - 1)) == Numeral(t[1..]) as real
    ensures Product(FractionValue(t), Pow10(|t|)) == Numeral(t) as real
  {
    hide Product, Ten;
    Pow10IsTen(|t| - 1);
    PlaceBefore(t[0] - '0' as int, FractionValue(t[1..]), Pow10(|t| - 1), Ten(|t| - 1), Numeral(t[1..]));
  }

  lemma {:induction false} Pow10IsTen(n: nat)
    ensures Pow10(n) == Ten(n) as real
  {
    if n > 0 { Pow10IsTen(n - 1); }
  }

  lemma PlaceBefore(x: nat, f: real, p: real, ten: nat, m: nat)
    requires p == ten as real && Product(f, p) == m as real
    ensures Product((x as real + f) / 10.0, 10.0 * p) == (x * ten + m) as real
  {
    TenthTimes(x as real, f, p);
    RealProduct(x, ten);
  }

  lemma TenthTimes(x: real, f: real, p: real)
    ensures ((x + f) / 10.0) * (10.0 * p) == x * p + f * p
  {
    assert ((x + f) / 10.0) * 10.0 == x + f;
  }

  lemma RealProduct(a: nat, b: nat)
    ensures (a * b) as real == a as real * b as real
  {}

  /** Moving the point by `n` places. */
  lemma {:induction false} TenToShifts(e: int, n: nat)
    ensures TenTo(e) == TenTo(e - n) * Pow10(n)
  {
    if n > 0 {
      TenToShifts(e, n - 1);
      var t, p := TenTo(e - n), Pow10(n - 1);
      TenToStep(e - n);
      assert (10.0 * t) * p == t * (10.0 * p);
    }
  }

  /** One more in the exponent multiplies by ten, whatever its sign. */
  lemma TenToStep(e: int)
    ensures TenTo(e + 1) == 10.0 * TenTo(e)
  {}

  /** One more digit in a fraction of `|f|` digits adds its value by its place. */
  lemma {:induction false} FractionDigit(f: Text, u: Unit)
    requires AllDigits(f) && IsDigit(u)
    ensures Pow10(|f| + 1) > 0.0 && FractionValue(f + [u]) == FractionValue(f) + (u - '0' as int) as real / Pow10(|f| + 1)
  {
    var x := (u - '0' as int) as real;
    if f == [] {
      assert f + [u] == [u] && [u][1..] == [];
      assert Pow10(1) == 10.0 * Pow10(0);
    } else {
      FractionDigit(f[1..], u);
      assert (f + [u])[1..] == f[1..] + [u];
      PowersAgree(|f|);
      TenthOf(x, Pow10(|f|));
    }
  }

  lemma TenthOf(x: real, p: real)
    requires p > 0.0
    ensures (x / p) / 10.0 == x / (10.0 * p)
  {
    var y := x / p;
    assert y * p == x;
    assert (y / 10.0) * (10.0 * p) == y * p;
  }

  lemma ExactByPower(l: Lexeme)
    requires LexemeOk(l)
    ensures AllDigits(l.whole + FractionOf(l))
    ensures var magnitude := Numeral(l.whole + FractionOf(l)) as real * TenTo(Power(l) - |FractionOf(l)|);
      Exact(l) == if l.negative then -magnitude else magnitude
  {
    hide DigitsValue, Numeral, Pow10, TenTo;
    var digits := l.whole + FractionOf(l);
    DigitsAreNumeral(digits);
    if l.exponent.Some? { DigitsAreNumeral(l.exponent.value.digits); }
    var power := Power(l) - |FractionOf(l)|;
    var n: nat := if power < 0 then -power else power;
    PowersAgree(n);
    Quotient(Numeral(digits) as real, Pow10(n));
  }

  /** The exact decimal of a lexeme is the number it writes. */
  lemma ExactIsWritten(l: Lexeme)
    requires LexemeOk(l)
    ensures Exact(l) == Written(l)
  {
    hide Exact, Numeral, FractionValue, Pow10, TenTo, Power;
    var f := FractionOf(l);
    ExactByPower(l);
    NumeralJoins(l.whole, f);
    FractionIsNumeral(f);
    PowersAgree(|f|);
    TenToShifts(Power(l), |f|);
    RealProduct(Numeral(l.whole), Ten(|f|));
    Regroups(Numeral(l.whole) as real, Numeral(f) as real, FractionValue(f), TenTo(Power(l) - |f|), Pow10(|f|));
  }

  lemma Regroups(w: real, m: real, f: real, t: real, p: real)
    requires f * p == m
    ensures (w + f) * (t * p) == (w * p + m) * t
  {
    assert (w + f) * p == w * p + f * p;
    assert (w + f) * (t * p) == ((w + f) * p) * t;
  }

  lemma Quotient(m: real, p: real)
    requires p > 0.0
    ensures m / p == m * (1.0 / p)
  {
    assert (m * (1.0 / p)) * p == m * ((1.0 / p) * p);
  }

  /** The text of a number is parsed to the rounding of what it writes, and refused exactly where that is not finite. */
  lemma NumberTextMeans(d: Doubles, l: Lexeme)
    requires LexemeOk(l)
    ensures ParseStrict(d, LexemeText(l)) ==
      var x := d.round(Written(l));
      if x.Some? then Some(Num(x.value)) else None
  {
    hide Exact, Written, ParseText, LexemeText, LexemeOk;
    ExactIsWritten(l);
    NumberTextAccepted(d, l);
    if d.round(Exact(l)).Some? {
      var none: Text := [];
      assert LexemeText(l) == none + (TextOf(CNum(l)) + none) && AllSpace(none);
      AcceptsExactlyGrammar(d, LexemeText(l), CNum(l));
    }
  }

  /** For example `-1.50e+2`. */
  lemma MinusHundredFifty(d: Doubles)
    ensures ParseStrict(d, ['-' as int, '1' as int, '.' as int, '5' as int, '0' as int, 'e' as int, '+' as int, '2' as int]) ==
      var x := d.round(-150.0);
      if x.Some? then Some(Num(x.value)) else None
  {
    var l := Lexeme(true, ['1' as int], Some(['5' as int, '0' as int]), Some(Exponent('e' as int, PlusSign, ['2' as int])));
    MinusHundredFiftyText(l);
    NumberTextMeans(d, l);
    MinusHundredFiftyValue(l);
  }

  lemma MinusHundredFiftyText(l: Lexeme)
    requires l == Lexeme(true, ['1' as int], Some(['5' as int, '0' as int]), Some(Exponent('e' as int, PlusSign, ['2' as int])))
    ensures LexemeOk(l)
    ensures LexemeText(l) == ['-' as int, '1' as int, '.' as int, '5' as int, '0' as int, 'e' as int, '+' as int, '2' as int]
  {}

  lemma MinusHundredFiftyValue(l: Lexeme)
    requires l == Lexeme(true, ['1' as int], Some(['5' as int, '0' as int]), Some(Exponent('e' as int, PlusSign, ['2' as int])))
    requires LexemeOk(l)
    ensures Written(l) == -150.0
  {
    var f: Text := ['5' as int, '0' as int];
    assert f[1..] == ['0' as int] && f[1..][1..] == [];
    assert FractionValue(f[1..]) == 0.0;
    assert FractionValue(f) == 0.5;
    assert l.whole[1..] == [] && Numeral(l.whole) == 1 by { assert Ten(0) == 1; }
    assert Power(l) == 2 by { assert Ten(0) == 1 && l.exponent.value.digits[1..] == []; }
    assert TenTo(1) == 10.0 && TenTo(2) == 100.0;
  }

  // ---------------------------------------------------------------- UTF-16

  predicate Scalar(p: int) { 0 <= p <= 0x10_FFFF && !(0xD800 <= p <= 0xDFFF) }

  /** The code units of one code point. */
  function Utf16Of(p: int): Text
    requires Scalar(p)
  {
    if p < 0x1_0000 then [p] else
    var high: int, low: int := 0xD800 + (p - 0x1_0000) / 0x400, 0xDC00 + (p - 0x1_0000) % 0x400;
    [high, low]
  }

  function Utf16(points: seq<int>): Text
    requires forall p :: p in points ==> Scalar(p)
  {
    if points == [] then [] else Utf16Of(points[0]) + Utf16(points[1..])
  }

  /** A text without lone surrogates is exactly one that encodes code points. */
  lemma PairedIsUtf16(t: Text)
    ensures Paired(t) <==> exists points :: Encodes(t, points)
  {
    if Paired(t) { var _ := PointsOf(t); }
    if points :| Encodes(t, points) { EncodedIsPaired(points); }
  }

  ghost predicate Encodes(t: Text, points: seq<int>) {
    (forall p :: p in points ==> Scalar(p)) && t == Utf16(points)
  }

  lemma {:induction false} PointsOf(t: Text) returns (points: seq<int>)
    requires Paired(t)
    ensures Encodes(t, points)
  {
    if t == [] {
      points := [];
    } else {
      hide Paired, Scalar, Utf16Of;
      var p, size := FirstPoint(t);
      TailPairs(t, size);
      var rest := PointsOf(t[size..]);
      points := [p] + rest;
      assert points[1..] == rest && t == t[..size] + t[size..];
    }
  }

  /** The code point a paired text begins with, and how many units encode it. */
  lemma FirstPoint(t: Text) returns (p: int, size: nat)
    requires Paired(t) && t != []
    ensures Scalar(p) && size == (if IsHigh(t[0]) then 2 else 1) && size <= |t| && Utf16Of(p) == t[..size]
  {
    size := if IsHigh(t[0]) then 2 else 1;
    p := t[0];
    if size == 2 {
      var low: int := t[1];
      p := 0x1_0000 + (p - 0xD800) * 0x400 + (low - 0xDC00);
    }
  }

  lemma TailPairs(t: Text, size: nat)
    requires Paired(t) && t != [] && size == (if IsHigh(t[0]) then 2 else 1) && size <= |t|
    ensures Paired(t[size..])
  {
    var tail := t[size..];
    assert !IsHigh(t[size - 1]);
    forall i | 0 <= i < |tail| && IsHigh(tail[i]) ensures i + 1 < |tail| && IsLow(tail[i + 1]) {
      assert tail[i] == t[i + size];
    }
    forall i | 0 <= i < |tail| && IsLow(tail[i]) ensures 0 < i && IsHigh(tail[i - 1]) {
      assert tail[i] == t[i + size] && IsHigh(t[i + size - 1]);
    }
  }

  lemma {:induction false} EncodedIsPaired(points: seq<int>)
    requires forall p :: p in points ==> Scalar(p)
    ensures Paired(Utf16(points))
  {
    if points != [] {
      hide Paired, Utf16Of;
      EncodedIsPaired(points[1..]);
      assert Scalar(points[0]);
      OnePointPairs(points[0], Utf16(points[1..]));
    }
  }

  /** A code point put before a paired text leaves it paired. */
  lemma OnePointPairs(p: int, rest: Text)
    requires Scalar(p) && Paired(rest)
    ensures Paired(Utf16Of(p) + rest)
  {
    var first := Utf16Of(p);
    assert |first| == 1 ==> !IsHigh(first[0]) && !IsLow(first[0]);
    assert |first| == 2 ==> IsHigh(first[0]) && IsLow(first[1]);
    hide Utf16Of;
    var t := first + rest;
    forall i | 0 <= i < |t| && IsHigh(t[i]) ensures i + 1 < |t| && IsLow(t[i + 1]) {
      if i >= |first| { assert t[i] == rest[i - |first|]; }
    }
    forall i | 0 <= i < |t| && IsLow(t[i]) ensures 0 < i && IsHigh(t[i - 1]) {
      if i >= |first| { assert t[i] == rest[i - |first|]; }
    }
  }

  // ---------------------------------------------------------------- arrays and objects

  function NthItem(items: Items, n: nat): Option<Cst> {
    if n == 0 then Some(items.value) else if items.MoreItems? then NthItem(items.rest, n - 1) else None
  }

  /** An array means its items in the order of the text. */
  lemma {:induction false} ItemsInOrder(d: Doubles, items: Items, n: nat)
    requires ItemsOk(d, items)
    ensures NthItem(items, n).Some? <==> n < |ItemsMeaning(d, items)|
    ensures NthItem(items, n).Some? ==>
      WellFormed(d, NthItem(items, n).value) && ItemsMeaning(d, items)[n] == Meaning(d, NthItem(items, n).value)
  {
    hide Meaning, WellFormed;
    if n > 0 && items.MoreItems? { ItemsInOrder(d, items.rest, n - 1); }
  }

  /** The value that stands under a key. */
  function ValueUnder(members: Members, key: Text): Option<Cst> {
    if Decoded(members.member.key) == key then Some(members.value)
    else if members.MoreMembers? then ValueUnder(members.rest, key) else None
  }

  /** An object means, under each decoded key of the text, the value that stands under it. */
  lemma {:induction false} MembersByKey(d: Doubles, members: Members, keys: set<Text>, key: Text)
    requires MembersOk(d, members, keys)
    ensures key in MembersMeaning(d, members, keys) <==> ValueUnder(members, key).Some?
    ensures ValueUnder(members, key).Some? ==>
      && WellFormed(d, ValueUnder(members, key).value)
      && MembersMeaning(d, members, keys)[key] == Meaning(d, ValueUnder(members, key).value)
  {
    hide Meaning, WellFormed, Decoded;
    if members.MoreMembers? { MembersByKey(d, members.rest, keys + {Decoded(members.member.key)}, key); }
  }

  // ---------------------------------------------------------------- the layout of a canonical text

  /** At the first unit where two keys differ, the one with the smaller unit comes first; a beginning comes first. */
  lemma {:induction false} BeforeExactly(a: Text, b: Text)
    ensures Before(a, b) <==> exists k :: SplitsAt(a, b, k)
  {
    forall k | SplitsAt(a, b, k) && k > 0 ensures a != [] && b != [] && a[0] == b[0] { SplitStart(a, b, k); }
    if a != [] && b != [] && a[0] == b[0] {
      BeforeExactly(a[1..], b[1..]);
      if k :| SplitsAt(a[1..], b[1..], k) {
        assert a[..k + 1] == [a[0]] + a[1..][..k] && b[..k + 1] == [b[0]] + b[1..][..k];
        assert SplitsAt(a, b, k + 1);
      }
      if k :| SplitsAt(a, b, k) {
        assert k > 0;
        assert a[1..][..k - 1] == a[..k][1..] && b[1..][..k - 1] == b[..k][1..];
        assert SplitsAt(a[1..], b[1..], k - 1);
      }
    } else if a == [] && b != [] {
      assert SplitsAt(a, b, 0);
    } else if a != [] && b != [] {
      if a[0] < b[0] { assert SplitsAt(a, b, 0); }
    }
  }

  lemma SplitStart(a: Text, b: Text, k: int)
    requires SplitsAt(a, b, k) && k > 0
    ensures a != [] && b != [] && a[0] == b[0]
  {
    assert a[..k][0] == a[0] && b[..k][0] == b[0];
  }

  predicate SplitsAt(a: Text, b: Text, k: int) {
    0 <= k <= |a| && k < |b| && a[..k] == b[..k] && (k == |a| || a[k] < b[k])
  }

  /** No space outside strings, no escape that is not needed, and members in ascending order of their keys. */
  ghost predicate Compact(c: Cst) {
    match c
    case CNull | CTrue | CFalse | CNum(_) => true
    case CStr(parts) => parts == PartsOf(Decoded(parts))
    case CEmptyArr(space) => space == []
    case CEmptyObj(space) => space == []
    case CArr(open, items) => open == [] && CompactItems(items)
    case CObj(open, members) => open == [] && CompactMembers(members)
  }

  ghost predicate CompactItems(items: Items) {
    && Compact(items.value) && items.after == []
    && (items.MoreItems? ==> items.next == [] && CompactItems(items.rest))
  }

  ghost predicate CompactMembers(members: Members) {
    var m := members.member;
    && m.key == PartsOf(Decoded(m.key)) && m.beforeColon == [] && m.afterColon == []
    && Compact(members.value) && members.after == []
    && (members.MoreMembers? ==>
          members.next == [] && Before(Decoded(m.key), Decoded(members.rest.member.key)) && CompactMembers(members.rest))
  }

  /** The canonical text is laid out compactly: with `TreeIsPrinted`, this fixes it but for the numbers. */
  lemma {:induction false} CanonicalIsCompact(show: real -> Lexeme, v: Value)
    ensures Compact(TreeOf(show, v))
    decreases v
  {
    hide PartsOf, Decoded, ItemsOf, MembersOf, CompactItems, CompactMembers;
    match v
    case Null | Bool(_) | Num(_) =>
    case Str(t) => PartsOfText(t);
    case Arr(items) => if items != [] { ItemsCompact(show, v, 0); }
    case Obj(fields) =>
      var keys := SortedKeys(fields.Keys);
      forall k ensures k in keys <==> k in fields { assert k in keys <==> k in Elements(keys); }
      if keys != [] { MembersCompact(show, v, keys); }
  }

  lemma {:induction false} ItemsCompact(show: real -> Lexeme, v: Value, n: nat)
    requires v.Arr? && n < |v.items|
    ensures CompactItems(ItemsOf(show, v, n))
    decreases v, |v.items| - n
  {
    hide Compact, TreeOf;
    CanonicalIsCompact(show, v.items[n]);
    if n + 1 < |v.items| { ItemsCompact(show, v, n + 1); }
  }

  lemma {:induction false} MembersCompact(show: real -> Lexeme, v: Value, keys: seq<Text>)
    requires v.Obj? && keys != [] && Sorted(keys) && forall k :: k in keys ==> k in v.fields
    ensures CompactMembers(MembersOf(show, v, keys))
    decreases v, |keys|
  {
    hide Compact, TreeOf, PartsOf, Decoded, Before;
    CanonicalIsCompact(show, v.fields[keys[0]]);
    PartsOfText(keys[0]);
    if |keys| > 1 {
      MembersCompact(show, v, keys[1..]);
      PartsOfText(keys[1]);
      assert Before(keys[0], keys[1]);
    }
  }
}
