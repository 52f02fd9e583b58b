/** Strict JSON: texts as sequences of UTF-16 code units, a concrete syntax that is the grammar of
    RFC 8259 (sections 2 to 7), the value it denotes, the strict parser, and the canonical printer. */
module StrictJson {
  import opened JobState

  type Unit = u: int | 0 <= u < 0x1_0000
  type Text = seq<Unit>

  /** Numbers are exact decimals; `Doubles` rounds them. Objects are maps. */
  datatype Value =
    | Null
    | Bool(value: bool)
    | Num(number: real)
    | Str(text: Text)
    | Arr(items: seq<Value>)
    | Obj(fields: map<Text, Value>)

  /** The nearest double of an exact decimal; None where it is not finite. `Ieee` says when that is. */
  datatype Doubles = Doubles(round: real -> Option<real>)

  // ---------------------------------------------------------------- code units

  const QUOTE: Unit := 0x22
  const BACKSLASH: Unit := 0x5C
  const MINUS: Unit := 0x2D
  const PLUS: Unit := 0x2B
  const DOT: Unit := 0x2E
  const COMMA: Unit := 0x2C
  const COLON: Unit := 0x3A
  const OPEN_BRACKET: Unit := 0x5B
  const CLOSE_BRACKET: Unit := 0x5D
  const OPEN_BRACE: Unit := 0x7B
  const CLOSE_BRACE: Unit := 0x7D
  const ZERO: Unit := 0x30
  const TRUE: Text := [0x74, 0x72, 0x75, 0x65]
  const FALSE: Text := [0x66, 0x61, 0x6C, 0x73, 0x65]
  const NULL: Text := [0x6E, 0x75, 0x6C, 0x6C]

  predicate IsDigit(u: Unit) { 0x30 <= u <= 0x39 }

  predicate IsSpace(u: Unit) { u == 0x20 || u == 0x0A || u == 0x0D || u == 0x09 }

  predicate IsExponent(u: Unit) { u == 0x65 || u == 0x45 }

  predicate IsHigh(u: Unit) { 0xD800 <= u <= 0xDBFF }

  predicate IsLow(u: Unit) { 0xDC00 <= u <= 0xDFFF }

  predicate IsHexDigit(u: Unit) { IsDigit(u) || 0x61 <= u <= 0x66 || 0x41 <= u <= 0x46 }

  function HexValue(u: Unit): int
    requires IsHexDigit(u)
    ensures 0 <= HexValue(u) < 16
  {
    if IsDigit(u) then u - 0x30 else if u >= 0x61 then u - 0x57 else u - 0x37
  }

  predicate AllDigits(t: Text) { forall i :: 0 <= i < |t| ==> IsDigit(t[i]) }

  predicate AllSpace(t: Text) { forall i :: 0 <= i < |t| ==> IsSpace(t[i]) }

  /** No lone surrogate: every high unit is followed by a low one and every low one preceded by a high one. */
  predicate Paired(t: Text) {
    && (forall i :: 0 <= i < |t| && IsHigh(t[i]) ==> i + 1 < |t| && IsLow(t[i + 1]))
    && (forall i :: 0 <= i < |t| && IsLow(t[i]) ==> 0 < i && IsHigh(t[i - 1]))
  }

  // ---------------------------------------------------------------- concrete syntax

  datatype Sign = NoSign | PlusSign | MinusSign

  datatype Exponent = Exponent(letter: Unit, sign: Sign, digits: Text)

  datatype Lexeme = Lexeme(negative: bool, whole: Text, fraction: Option<Text>, exponent: Option<Exponent>)

  datatype Part = Raw(unit: Unit) | Short(letter: Unit) | Hex(h0: Unit, h1: Unit, h2: Unit, h3: Unit)

  datatype Cst =
    | CNull | CTrue | CFalse
    | CNum(lexeme: Lexeme)
    | CStr(parts: seq<Part>)
    | CEmptyArr(space: Text)
    | CArr(open: Text, items: Items)
    | CEmptyObj(space: Text)
    | CObj(open: Text, members: Members)

  datatype Items =
    | LastItem(value: Cst, after: Text)
    | MoreItems(value: Cst, after: Text, next: Text, rest: Items)

  datatype Member = Member(key: seq<Part>, beforeColon: Text, afterColon: Text)

  datatype Members =
    | LastMember(member: Member, value: Cst, after: Text)
    | MoreMembers(member: Member, value: Cst, after: Text, next: Text, rest: Members)

  // the text of a concrete syntax tree

  function SignText(s: Sign): Text {
    match s case NoSign => [] case PlusSign => [PLUS] case MinusSign => [MINUS]
  }

  function FractionText(f: Option<Text>): Text { if f.Some? then [DOT] + f.value else [] }

  function ExponentText(e: Option<Exponent>): Text {
    if e.Some? then [e.value.letter] + SignText(e.value.sign) + e.value.digits else []
  }

  function LexemeText(l: Lexeme): Text {
    (if l.negative then [MINUS] else []) + (l.whole + (FractionText(l.fraction) + ExponentText(l.exponent)))
  }

  function PartText(p: Part): Text {
    match p
    case Raw(u) => [u]
    case Short(c) => [BACKSLASH, c]
    case Hex(a, b, c, d) => [BACKSLASH, 0x75, a, b, c, d]
  }

  function PartsText(parts: seq<Part>): Text {
    if parts == [] then [] else PartText(parts[0]) + PartsText(parts[1..])
  }

  function StringText(parts: seq<Part>): Text { [QUOTE] + (PartsText(parts) + [QUOTE]) }

  function MemberText(m: Member): Text {
    StringText(m.key) + (m.beforeColon + ([COLON] + m.afterColon))
  }

  function TextOf(c: Cst): Text {
    match c
    case CNull => NULL
    case CTrue => TRUE
    case CFalse => FALSE
    case CNum(l) => LexemeText(l)
    case CStr(parts) => StringText(parts)
    case CEmptyArr(space) => [OPEN_BRACKET] + (space + [CLOSE_BRACKET])
    case CArr(open, items) => [OPEN_BRACKET] + (open + ItemsText(items))
    case CEmptyObj(space) => [OPEN_BRACE] + (space + [CLOSE_BRACE])
    case CObj(open, members) => [OPEN_BRACE] + (open + MembersText(members))
  }

  /** The items with their closing bracket. */
  function ItemsText(items: Items): Text {
    match items
    case LastItem(v, after) => TextOf(v) + (after + [CLOSE_BRACKET])
    case MoreItems(v, after, next, rest) => TextOf(v) + (after + ([COMMA] + (next + ItemsText(rest))))
  }

  function MembersText(members: Members): Text {
    match members
    case LastMember(m, v, after) => MemberText(m) + (TextOf(v) + (after + [CLOSE_BRACE]))
    case MoreMembers(m, v, after, next, rest) =>
      MemberText(m) + (TextOf(v) + (after + ([COMMA] + (next + MembersText(rest)))))
  }

  // the grammar's side conditions, and strictness: finite numbers, no lone surrogate, no duplicate key

  predicate LexemeOk(l: Lexeme) {
    && |l.whole| > 0 && AllDigits(l.whole) && (l.whole[0] == ZERO ==> |l.whole| == 1)
    && (l.fraction.Some? ==> |l.fraction.value| > 0 && AllDigits(l.fraction.value))
    && (l.exponent.Some? ==>
          && IsExponent(l.exponent.value.letter)
          && |l.exponent.value.digits| > 0 && AllDigits(l.exponent.value.digits))
  }

  predicate IsShort(c: Unit) {
    c == 0x22 || c == 0x5C || c == 0x2F || c == 0x62 || c == 0x66 || c == 0x6E || c == 0x72 || c == 0x74
  }

  predicate PartOk(p: Part) {
    match p
    case Raw(u) => 0x20 <= u && u != QUOTE && u != BACKSLASH
    case Short(c) => IsShort(c)
    case Hex(a, b, c, d) => IsHexDigit(a) && IsHexDigit(b) && IsHexDigit(c) && IsHexDigit(d)
  }

  function ShortMeaning(c: Unit): Unit {
    if c == 0x62 then 0x08 else if c == 0x66 then 0x0C else if c == 0x6E then 0x0A
    else if c == 0x72 then 0x0D else if c == 0x74 then 0x09 else c
  }

  function PartMeaning(p: Part): Unit {
    match p
    case Raw(u) => u
    case Short(c) => ShortMeaning(c)
    case Hex(a, b, c, d) =>
      if PartOk(p) then HexUnit(HexValue(a), HexValue(b), HexValue(c), HexValue(d)) else 0
  }

  function HexUnit(a: int, b: int, c: int, d: int): Unit
    requires 0 <= a < 16 && 0 <= b < 16 && 0 <= c < 16 && 0 <= d < 16
  {
    ((a * 16 + b) * 16 + c) * 16 + d
  }

  function Decoded(parts: seq<Part>): Text {
    if parts == [] then [] else [PartMeaning(parts[0])] + Decoded(parts[1..])
  }

  predicate PartsOk(parts: seq<Part>) { forall i :: 0 <= i < |parts| ==> PartOk(parts[i]) }

  predicate StringOk(parts: seq<Part>) { PartsOk(parts) && Paired(Decoded(parts)) }

  predicate MemberOk(m: Member) { StringOk(m.key) && AllSpace(m.beforeColon) && AllSpace(m.afterColon) }

  predicate WellFormed(d: Doubles, c: Cst) {
    match c
    case CNull | CTrue | CFalse => true
    case CNum(l) => LexemeOk(l) && d.round(Exact(l)).Some?
    case CStr(parts) => StringOk(parts)
    case CEmptyArr(space) => AllSpace(space)
    case CArr(open, items) => AllSpace(open) && ItemsOk(d, items)
    case CEmptyObj(space) => AllSpace(space)
    case CObj(open, members) => AllSpace(open) && MembersOk(d, members, {})
  }

  predicate ItemsOk(d: Doubles, items: Items) {
    match items
    case LastItem(v, after) => WellFormed(d, v) && AllSpace(after)
    case MoreItems(v, after, next, rest) => WellFormed(d, v) && AllSpace(after) && AllSpace(next) && ItemsOk(d, rest)
  }

  /** `keys` are the decoded keys of the members before. */
  predicate MembersOk(d: Doubles, members: Members, keys: set<Text>) {
    && MemberOk(members.member) && Decoded(members.member.key) !in keys
    && WellFormed(d, members.value) && AllSpace(members.after)
    && (members.MoreMembers? ==>
          AllSpace(members.next) && MembersOk(d, members.rest, keys + {Decoded(members.member.key)}))
  }

  // the value it denotes

  function Pow10(n: nat): real {
    if n == 0 then 1.0 else 10.0 * Pow10(n - 1)
  }

  function DigitValue(u: Unit): nat
    requires IsDigit(u)
  {
    var value: int := u - 0x30;
    value
  }

  function DigitsValue(t: Text): nat
    requires AllDigits(t)
  {
    if t == [] then 0 else DigitsValue(t[..|t| - 1]) * 10 + DigitValue(t[|t| - 1])
  }

  /** The exact decimal a lexeme denotes. */
  function Exact(l: Lexeme): real
    requires LexemeOk(l)
  {
    var fraction := if l.fraction.Some? then l.fraction.value else [];
    assert AllDigits(l.whole + fraction);
    var mantissa := DigitsValue(l.whole + fraction) as real;
    var written: int := if l.exponent.None? then 0 else DigitsValue(l.exponent.value.digits);
    var power := (if l.exponent.Some? && l.exponent.value.sign == MinusSign then -written else written) - |fraction|;
    Pow10Positive(if power < 0 then -power else power);
    var magnitude := if power >= 0 then mantissa * Pow10(power) else mantissa / Pow10(-power);
    if l.negative then -magnitude else magnitude
  }

  lemma Pow10Positive(n: nat)
    ensures Pow10(n) > 0.0
  {}

  function Meaning(d: Doubles, c: Cst): Value
    requires WellFormed(d, c)
  {
    match c
    case CNull => Null
    case CTrue => Bool(true)
    case CFalse => Bool(false)
    case CNum(l) => Num(d.round(Exact(l)).value)
    case CStr(parts) => Str(Decoded(parts))
    case CEmptyArr(_) => Arr([])
    case CArr(_, items) => Arr(ItemsMeaning(d, items))
    case CEmptyObj(_) => Obj(map[])
    case CObj(_, members) => Obj(MembersMeaning(d, members, {}))
  }

  function ItemsMeaning(d: Doubles, items: Items): seq<Value>
    requires ItemsOk(d, items)
  {
    match items
    case LastItem(v, _) => [Meaning(d, v)]
    case MoreItems(v, _, _, rest) => [Meaning(d, v)] + ItemsMeaning(d, rest)
  }

  function MembersMeaning(d: Doubles, members: Members, keys: set<Text>): (m: map<Text, Value>)
    requires MembersOk(d, members, keys)
    ensures m.Keys !! keys
  {
    var key := Decoded(members.member.key);
    match members
    case LastMember(_, v, _) => map[key := Meaning(d, v)]
    case MoreMembers(_, v, _, _, rest) => MembersMeaning(d, rest, keys + {key})[key := Meaning(d, v)]
  }

  // ---------------------------------------------------------------- the parser as a function of the rest of the input

  datatype Parsed<+T> = Parsed(node: T, rest: Text)

  function TakeSpace(s: Text): (r: Parsed<Text>)
    ensures s == r.node + r.rest && AllSpace(r.node)
    ensures r.rest == [] || !IsSpace(r.rest[0])
  {
    if s == [] || !IsSpace(s[0]) then Parsed([], s)
    else
      var tail := TakeSpace(s[1..]);
      Parsed([s[0]] + tail.node, tail.rest)
  }

  function TakeDigits(s: Text): (r: Parsed<Text>)
    ensures s == r.node + r.rest && AllDigits(r.node)
    ensures r.rest == [] || !IsDigit(r.rest[0])
  {
    if s == [] || !IsDigit(s[0]) then Parsed([], s)
    else
      var tail := TakeDigits(s[1..]);
      Parsed([s[0]] + tail.node, tail.rest)
  }

  predicate StartsWith(s: Text, u: Unit) { s != [] && s[0] == u }

  /** `consume("0")`, or the required digits. */
  function ParseWhole(s: Text): Option<Parsed<Text>> {
    if StartsWith(s, ZERO) then Some(Parsed([ZERO], s[1..]))
    else if TakeDigits(s).node == [] then None else Some(TakeDigits(s))
  }

  function ParseFraction(s: Text): Option<Parsed<Option<Text>>> {
    if !StartsWith(s, DOT) then Some(Parsed(None, s))
    else
      var digits := TakeDigits(s[1..]);
      if digits.node == [] then None else Some(Parsed(Some(digits.node), digits.rest))
  }

  function TakeSign(s: Text): Parsed<Sign> {
    if StartsWith(s, PLUS) then Parsed(PlusSign, s[1..])
    else if StartsWith(s, MINUS) then Parsed(MinusSign, s[1..])
    else Parsed(NoSign, s)
  }

  function ParseExponent(s: Text): Option<Parsed<Option<Exponent>>> {
    if s == [] || !IsExponent(s[0]) then Some(Parsed(None, s))
    else
      var sign := TakeSign(s[1..]);
      var digits := TakeDigits(sign.rest);
      if digits.node == [] then None else Some(Parsed(Some(Exponent(s[0], sign.node, digits.node)), digits.rest))
  }

  function ParseLexeme(s: Text): Option<Parsed<Lexeme>> {
    var negative := StartsWith(s, MINUS);
    var whole := ParseWhole(if negative then s[1..] else s);
    if whole.None? then None else
    var fraction := ParseFraction(whole.value.rest);
    if fraction.None? then None else
    var exponent := ParseExponent(fraction.value.rest);
    if exponent.None? then None else
    Some(Parsed(Lexeme(negative, whole.value.node, fraction.value.node, exponent.value.node), exponent.value.rest))
  }

  /** One character of a string after the opening quote: a raw unit or an escape. */
  function ParsePart(s: Text): (r: Option<Parsed<Part>>)
    requires s != [] && s[0] != QUOTE
    ensures r.Some? ==> s == PartText(r.value.node) + r.value.rest && PartOk(r.value.node) && |r.value.rest| < |s|
  {
    if s[0] != BACKSLASH then (if s[0] < 0x20 then None else Some(Parsed(Raw(s[0]), s[1..])))
    else if |s| < 2 then None
    else if IsShort(s[1]) then Some(Parsed(Short(s[1]), s[2..]))
    else if s[1] != 0x75 || |s| < 6 then None
    else
      var part := Hex(s[2], s[3], s[4], s[5]);
      if PartOk(part) then Some(Parsed(part, s[6..])) else None
  }

  /** The rest of a string up to its closing quote. */
  function ParseParts(s: Text): (r: Option<Parsed<seq<Part>>>)
    ensures r.Some? ==> PartsOk(r.value.node) && |r.value.rest| < |s|
  {
    if s == [] then None
    else if s[0] == QUOTE then Some(Parsed([], s[1..]))
    else
      var part := ParsePart(s);
      if part.None? then None else
      var tail := ParseParts(part.value.rest);
      if tail.None? then None else
      Some(Parsed([part.value.node] + tail.value.node, tail.value.rest))
  }

  function ParseString(s: Text): (r: Option<Parsed<seq<Part>>>)
    ensures r.Some? ==> StringOk(r.value.node) && |r.value.rest| < |s|
  {
    if !StartsWith(s, QUOTE) then None else
    var parts := ParseParts(s[1..]);
    if parts.None? || !Paired(Decoded(parts.value.node)) then None else Some(parts.value)
  }

  /** A key, the colon and the space around it. */
  function ParseMember(s: Text): (r: Option<Parsed<Member>>)
    ensures r.Some? ==> MemberOk(r.value.node) && |r.value.rest| < |s|
  {
    var key := ParseString(s);
    if key.None? then None else
    var before := TakeSpace(key.value.rest);
    if !StartsWith(before.rest, COLON) then None else
    var after := TakeSpace(before.rest[1..]);
    Some(Parsed(Member(key.value.node, before.node, after.node), after.rest))
  }

  function ParseValue(d: Doubles, s: Text): (r: Option<Parsed<Cst>>)
    ensures r.Some? ==> |r.value.rest| < |s|
    decreases |s|, 0
  {
    if s == [] then None
    else if s[0] == OPEN_BRACE then
      var space := TakeSpace(s[1..]);
      if StartsWith(space.rest, CLOSE_BRACE) then Some(Parsed(CEmptyObj(space.node), space.rest[1..]))
      else
        var members := ParseMembers(d, space.rest, {});
        if members.None? then None else Some(Parsed(CObj(space.node, members.value.node), members.value.rest))
    else if s[0] == OPEN_BRACKET then
      var space := TakeSpace(s[1..]);
      if StartsWith(space.rest, CLOSE_BRACKET) then Some(Parsed(CEmptyArr(space.node), space.rest[1..]))
      else
        var items := ParseItems(d, space.rest);
        if items.None? then None else Some(Parsed(CArr(space.node, items.value.node), items.value.rest))
    else if s[0] == QUOTE then
      var parts := ParseString(s);
      if parts.None? then None else Some(Parsed(CStr(parts.value.node), parts.value.rest))
    else if s[0] == TRUE[0] then (if TRUE <= s then Some(Parsed(CTrue, s[|TRUE|..])) else None)
    else if s[0] == FALSE[0] then (if FALSE <= s then Some(Parsed(CFalse, s[|FALSE|..])) else None)
    else if s[0] == NULL[0] then (if NULL <= s then Some(Parsed(CNull, s[|NULL|..])) else None)
    else if s[0] == MINUS || IsDigit(s[0]) then
      var lexeme := ParseLexeme(s);
      // a lexeme is always well formed and never empty: `LexemeSound`
      if lexeme.None? || !LexemeOk(lexeme.value.node) || d.round(Exact(lexeme.value.node)).None?
         || |lexeme.value.rest| >= |s| then None
      else Some(Parsed(CNum(lexeme.value.node), lexeme.value.rest))
    else None
  }

  function ParseItems(d: Doubles, s: Text): (r: Option<Parsed<Items>>)
    ensures r.Some? ==> |r.value.rest| < |s|
    decreases |s|, 1
  {
    var value := ParseValue(d, s);
    if value.None? then None else
    var after := TakeSpace(value.value.rest);
    if StartsWith(after.rest, CLOSE_BRACKET) then Some(Parsed(LastItem(value.value.node, after.node), after.rest[1..]))
    else if !StartsWith(after.rest, COMMA) then None else
    var next := TakeSpace(after.rest[1..]);
    var rest := ParseItems(d, next.rest);
    if rest.None? then None
    else Some(Parsed(MoreItems(value.value.node, after.node, next.node, rest.value.node), rest.value.rest))
  }

  function ParseMembers(d: Doubles, s: Text, keys: set<Text>): (r: Option<Parsed<Members>>)
    ensures r.Some? ==> |r.value.rest| < |s|
    decreases |s|, 1
  {
    var member := ParseMember(s);
    if member.None? then None else
    var key := Decoded(member.value.node.key);
    if key in keys then None else
    var value := ParseValue(d, member.value.rest);
    if value.None? then None else
    var after := TakeSpace(value.value.rest);
    if StartsWith(after.rest, CLOSE_BRACE) then
      Some(Parsed(LastMember(member.value.node, value.value.node, after.node), after.rest[1..]))
    else if !StartsWith(after.rest, COMMA) then None else
    var next := TakeSpace(after.rest[1..]);
    var rest := ParseMembers(d, next.rest, keys + {key});
    if rest.None? then None
    else Some(Parsed(MoreMembers(member.value.node, value.value.node, after.node, next.node, rest.value.node), rest.value.rest))
  }

  /** A whole text: space, one value, space, nothing else. */
  function ParseText(d: Doubles, s: Text): Option<Cst> {
    var value := ParseValue(d, TakeSpace(s).rest);
    if value.None? || TakeSpace(value.value.rest).rest != [] then None else Some(value.value.node)
  }
}
