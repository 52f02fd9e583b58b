/** The canonical printer, and the two directions between it and the strict parser. */
module StrictJsonCanonical {
  import opened JobState
  import opened StrictJson
  import opened StrictJsonTheorems

  // ---------------------------------------------------------------- keys in the order of their UTF-16 units

  /** Lexicographic order of code units (section 3.2.3 of RFC 8785). */
  predicate Before(a: Text, b: Text) {
    b != [] && (a == [] || a[0] < b[0] || (a[0] == b[0] && Before(a[1..], b[1..])))
  }

  lemma {:induction false} BeforeIsTotal(a: Text, b: Text)
    ensures a != b ==> Before(a, b) || Before(b, a)
    ensures !(Before(a, b) && Before(b, a)) && !Before(a, a)
  {
    if a != [] && b != [] {
      BeforeIsTotal(a[1..], b[1..]);
      BeforeIsTotal(a[1..], a[1..]);
      assert a == [a[0]] + a[1..] && b == [b[0]] + b[1..];
    } else if a != [] {
      BeforeIsTotal(a[1..], a[1..]);
    }
  }

  lemma {:induction false} BeforeIsTransitive(a: Text, b: Text, c: Text)
    requires Before(a, b) && Before(b, c)
    ensures Before(a, c)
  {
    if a != [] && a[0] == b[0] == c[0] { BeforeIsTransitive(a[1..], b[1..], c[1..]); }
  }

  ghost predicate IsLeast(m: Text, keys: set<Text>) {
    m in keys && forall k :: k in keys && k != m ==> Before(m, k)
  }

  lemma {:induction false} LeastExists(keys: set<Text>)
    requires keys != {}
    ensures exists m :: IsLeast(m, keys)
  {
    var k :| k in keys;
    if keys == {k} {
      assert IsLeast(k, keys);
    } else {
      LeastExists(keys - {k});
      var m :| IsLeast(m, keys - {k});
      BeforeIsTotal(k, m);
      if Before(m, k) {
        assert IsLeast(m, keys);
      } else {
        forall other | other in keys && other != k ensures Before(k, other) {
          if other != m { BeforeIsTransitive(k, m, other); }
        }
        assert IsLeast(k, keys);
      }
    }
  }

  ghost predicate Sorted(keys: seq<Text>) { forall i, j :: 0 <= i < j < |keys| ==> Before(keys[i], keys[j]) }

  ghost function Elements(keys: seq<Text>): set<Text> { set k | k in keys }

  ghost function SortedKeys(keys: set<Text>): (s: seq<Text>)
    ensures Sorted(s) && Elements(s) == keys
  {
    if keys == {} then []
    else
      LeastExists(keys);
      var m :| IsLeast(m, keys);
      var rest := SortedKeys(keys - {m});
      assert forall k :: k in rest ==> k in Elements(rest);
      assert Elements([m] + rest) == {m} + Elements(rest);
      [m] + rest
  }

  /** Sorting the key set leaves no choice: the order of insertion into the object cannot show. */
  lemma {:induction false} SortedIsUnique(a: seq<Text>, b: seq<Text>)
    requires Sorted(a) && Sorted(b) && Elements(a) == Elements(b)
    ensures a == b
  {
    assert a != [] ==> a[0] in Elements(b);
    assert b != [] ==> b[0] in Elements(a);
    if a != [] && b != [] {
      BeforeIsTotal(a[0], b[0]);
      assert a[0] == b[0];
      BeforeIsTotal(a[0], a[0]);
      assert Elements(a[1..]) == Elements(a) - {a[0]};
      assert Elements(b[1..]) == Elements(b) - {b[0]};
      SortedIsUnique(a[1..], b[1..]);
      assert a == [a[0]] + a[1..] && b == [b[0]] + b[1..];
    }
  }

  // ---------------------------------------------------------------- the printer

  function HexUnitOf(n: int): Unit
    requires 0 <= n < 16
  {
    if n < 10 then 0x30 + n else 0x57 + n
  }

  /** `JSON.stringify` of one code unit inside a string. */
  function EscapeOf(u: Unit): Text {
    if u == QUOTE || u == BACKSLASH then [BACKSLASH, u]
    else if u == 0x08 then [BACKSLASH, 0x62]
    else if u == 0x0C then [BACKSLASH, 0x66]
    else if u == 0x0A then [BACKSLASH, 0x6E]
    else if u == 0x0D then [BACKSLASH, 0x72]
    else if u == 0x09 then [BACKSLASH, 0x74]
    else if u < 0x20 then [BACKSLASH, 0x75, ZERO, ZERO, HexUnitOf(u / 16), HexUnitOf(u % 16)]
    else [u]
  }

  function Escaped(t: Text): Text {
    if t == [] then [] else EscapeOf(t[0]) + Escaped(t[1..])
  }

  function Quoted(t: Text): Text { [QUOTE] + (Escaped(t) + [QUOTE]) }

  /** `show` writes a finite number, as `JSON.stringify` does. None: a lone surrogate was refused. */
  ghost function Canonicalize(show: real -> Lexeme, v: Value): Option<Text>
    decreases v
  {
    match v
    case Null => Some(NULL)
    case Bool(b) => Some(if b then TRUE else FALSE)
    case Num(n) => Some(LexemeText(show(n)))
    case Str(t) => if Paired(t) then Some(Quoted(t)) else None
    case Arr(items) =>
      var inner := CanonicalItems(show, v, 0);
      if inner.None? then None else Some([OPEN_BRACKET] + (inner.value + [CLOSE_BRACKET]))
    case Obj(fields) =>
      var inner := CanonicalFields(show, v, SortedKeys(fields.Keys));
      if inner.None? then None else Some([OPEN_BRACE] + (inner.value + [CLOSE_BRACE]))
  }

  /** The printed items from the `n`th on, joined by commas. */
  ghost function CanonicalItems(show: real -> Lexeme, v: Value, n: nat): Option<Text>
    requires v.Arr? && n <= |v.items|
    decreases v, |v.items| - n
  {
    if n == |v.items| then Some([])
    else
      var first := Canonicalize(show, v.items[n]);
      var rest := CanonicalItems(show, v, n + 1);
      if first.None? || rest.None? then None
      else if n + 1 == |v.items| then first
      else Some(first.value + ([COMMA] + rest.value))
  }

  /** The printed fields under `keys`, in that order, joined by commas. */
  ghost function CanonicalFields(show: real -> Lexeme, v: Value, keys: seq<Text>): Option<Text>
    requires v.Obj? && forall k :: k in keys ==> k in v.fields
    decreases v, |keys|
  {
    if keys == [] then Some([])
    else
      var first := Canonicalize(show, v.fields[keys[0]]);
      var rest := CanonicalFields(show, v, keys[1..]);
      if !Paired(keys[0]) || first.None? || rest.None? then None
      else
        var text := Quoted(keys[0]) + ([COLON] + first.value);
        Some(if |keys| == 1 then text else text + ([COMMA] + rest.value))
  }

  /** Every string and key in the value is free of lone surrogates. */
  ghost predicate AllPaired(v: Value) {
    match v
    case Null | Bool(_) | Num(_) => true
    case Str(t) => Paired(t)
    case Arr(items) => forall i :: 0 <= i < |items| ==> AllPaired(items[i])
    case Obj(fields) => forall k :: k in fields ==> Paired(k) && AllPaired(fields[k])
  }

  /** `show` writes every number of the value as a JSON number that rounds back to it. */
  ghost predicate Shows(d: Doubles, show: real -> Lexeme, v: Value) {
    match v
    case Null | Bool(_) | Str(_) => true
    case Num(n) => LexemeOk(show(n)) && d.round(Exact(show(n))) == Some(n)
    case Arr(items) => forall i :: 0 <= i < |items| ==> Shows(d, show, items[i])
    case Obj(fields) => forall k :: k in fields ==> Shows(d, show, fields[k])
  }

  // ---------------------------------------------------------------- the tree of a canonical text

  function PartOf(u: Unit): Part {
    var e := EscapeOf(u);
    if |e| == 1 then Raw(u) else if |e| == 2 then Short(e[1]) else Hex(e[2], e[3], e[4], e[5])
  }

  function PartsOf(t: Text): seq<Part> {
    if t == [] then [] else [PartOf(t[0])] + PartsOf(t[1..])
  }

  lemma PartOfUnit(u: Unit)
    ensures PartOk(PartOf(u)) && PartText(PartOf(u)) == EscapeOf(u) && PartMeaning(PartOf(u)) == u
  {
    if u < 0x20 {
      var a: int, b: int := u / 16, u % 16;
      assert u == a * 16 + b;
      assert HexValue(HexUnitOf(a)) == a && HexValue(HexUnitOf(b)) == b;
      assert HexUnit(0, 0, a, b) == u;
    }
  }

  lemma {:induction false} PartsOfText(t: Text)
    ensures PartsOk(PartsOf(t)) && PartsText(PartsOf(t)) == Escaped(t) && Decoded(PartsOf(t)) == t
  {
    if t != [] {
      hide PartOf, PartOk, PartText, PartMeaning, EscapeOf;
      PartOfUnit(t[0]);
      PartsOfText(t[1..]);
      assert PartsOf(t)[1..] == PartsOf(t[1..]);
      assert t == [t[0]] + t[1..];
    }
  }

  ghost function TreeOf(show: real -> Lexeme, v: Value): Cst
    decreases v
  {
    match v
    case Null => CNull
    case Bool(b) => if b then CTrue else CFalse
    case Num(n) => CNum(show(n))
    case Str(t) => CStr(PartsOf(t))
    case Arr(items) => if items == [] then CEmptyArr([]) else CArr([], ItemsOf(show, v, 0))
    case Obj(fields) =>
      var keys := SortedKeys(fields.Keys);
      if keys == [] then CEmptyObj([]) else CObj([], MembersOf(show, v, keys))
  }

  ghost function ItemsOf(show: real -> Lexeme, v: Value, n: nat): Items
    requires v.Arr? && n < |v.items|
    decreases v, |v.items| - n
  {
    var first := TreeOf(show, v.items[n]);
    if n + 1 == |v.items| then LastItem(first, []) else MoreItems(first, [], [], ItemsOf(show, v, n + 1))
  }

  ghost function MembersOf(show: real -> Lexeme, v: Value, keys: seq<Text>): Members
    requires v.Obj? && keys != [] && forall k :: k in keys ==> k in v.fields
    decreases v, |keys|
  {
    var member := Member(PartsOf(keys[0]), [], []);
    var first := TreeOf(show, v.fields[keys[0]]);
    if |keys| == 1 then LastMember(member, first, []) else MoreMembers(member, first, [], [], MembersOf(show, v, keys[1..]))
  }

  // ---------------------------------------------------------------- the printed text is the text of the tree

  lemma QuotedIsString(t: Text)
    ensures Quoted(t) == StringText(PartsOf(t)) && PartsOk(PartsOf(t)) && Decoded(PartsOf(t)) == t
  {
    PartsOfText(t);
  }

  lemma {:induction false} TreeIsPrinted(d: Doubles, show: real -> Lexeme, v: Value)
    requires Shows(d, show, v) && AllPaired(v)
    ensures WellFormed(d, TreeOf(show, v)) && Meaning(d, TreeOf(show, v)) == v
    ensures Canonicalize(show, v) == Some(TextOf(TreeOf(show, v)))
    decreases v
  {
    hide ItemsOf, MembersOf, CanonicalItems, CanonicalFields, Paired, Quoted, StringText, Decoded, PartsOf, PartsOk,
         MembersOk, ItemsOk, MembersText, ItemsText, LexemeText, LexemeOk, Exact, ItemsMeaning, MembersMeaning;
    match v
    case Null | Bool(_) | Num(_) =>
    case Str(t) => QuotedIsString(t);
    case Arr(items) => ArrayIsPrinted(d, show, v);
    case Obj(fields) => ObjectIsPrinted(d, show, v);
  }

  lemma ArrayIsPrinted(d: Doubles, show: real -> Lexeme, v: Value)
    requires Shows(d, show, v) && AllPaired(v) && v.Arr?
    ensures WellFormed(d, TreeOf(show, v)) && Meaning(d, TreeOf(show, v)) == v
    ensures Canonicalize(show, v) == Some(TextOf(TreeOf(show, v)))
    decreases v, |v.items| + 1
  {
    hide ItemsOf, MembersOf, CanonicalFields, Shows, AllPaired, ItemsOk, ItemsMeaning, ItemsText;
    var items := v.items;
    if items != [] {
      ItemsArePrinted(d, show, v, 0);
      assert items[0..] == items;
      assert [] + ItemsText(ItemsOf(show, v, 0)) == ItemsText(ItemsOf(show, v, 0));
    } else {
      assert TextOf(TreeOf(show, v)) == [OPEN_BRACKET] + ([] + [CLOSE_BRACKET]);
    }
  }

  lemma ObjectIsPrinted(d: Doubles, show: real -> Lexeme, v: Value)
    requires Shows(d, show, v) && AllPaired(v) && v.Obj?
    ensures WellFormed(d, TreeOf(show, v)) && Meaning(d, TreeOf(show, v)) == v
    ensures Canonicalize(show, v) == Some(TextOf(TreeOf(show, v)))
    decreases v, |SortedKeys(v.fields.Keys)| + 1
  {
    hide ItemsOf, MembersOf, Shows, AllPaired, Sorted, MembersOk, MembersMeaning, MembersText;
    var fields := v.fields;
    var keys := SortedKeys(fields.Keys);
    forall k ensures k in keys <==> k in fields { assert k in keys <==> k in Elements(keys); }
    if keys != [] {
      MembersArePrinted(d, show, v, keys, {});
      assert Restricted(fields, keys) == fields;
      assert [] + MembersText(MembersOf(show, v, keys)) == MembersText(MembersOf(show, v, keys));
    } else {
      assert fields.Keys == {} && fields == map[];
      assert TextOf(TreeOf(show, v)) == [OPEN_BRACE] + ([] + [CLOSE_BRACE]);
    }
  }

  lemma {:induction false} ItemsArePrinted(d: Doubles, show: real -> Lexeme, v: Value, n: nat)
    requires Shows(d, show, v) && AllPaired(v) && v.Arr? && n < |v.items|
    ensures var items := ItemsOf(show, v, n);
      && ItemsOk(d, items) && ItemsMeaning(d, items) == v.items[n..]
      && CanonicalItems(show, v, n).Some?
      && ItemsText(items) == CanonicalItems(show, v, n).value + [CLOSE_BRACKET]
    decreases v, |v.items| - n
  {
    hide TextOf, Meaning, WellFormed, TreeOf, Canonicalize;
    TreeIsPrinted(d, show, v.items[n]);
    var t := TextOf(TreeOf(show, v.items[n]));
    if n + 1 == |v.items| {
      assert t + ([] + [CLOSE_BRACKET]) == t + [CLOSE_BRACKET];
      assert CanonicalItems(show, v, n + 1) == Some([]);
    } else {
      ItemsArePrinted(d, show, v, n + 1);
      var rest := CanonicalItems(show, v, n + 1).value;
      assert t + ([] + ([COMMA] + ([] + (rest + [CLOSE_BRACKET])))) == t + ([COMMA] + rest) + [CLOSE_BRACKET];
    }
  }

  /** The fields under the given keys. */
  ghost function Restricted(fields: map<Text, Value>, keys: seq<Text>): map<Text, Value> {
    map k | k in fields && k in keys :: fields[k]
  }

  lemma {:induction false} MembersArePrinted(d: Doubles, show: real -> Lexeme, v: Value, keys: seq<Text>, seen: set<Text>)
    requires Shows(d, show, v) && AllPaired(v) && v.Obj? && keys != [] && forall k :: k in keys ==> k in v.fields
    requires Sorted(keys) && Elements(keys) !! seen
    ensures var members := MembersOf(show, v, keys);
      && MembersOk(d, members, seen) && MembersMeaning(d, members, seen) == Restricted(v.fields, keys)
      && CanonicalFields(show, v, keys).Some?
      && MembersText(members) == CanonicalFields(show, v, keys).value + [CLOSE_BRACE]
    decreases v, |keys|
  {
    hide TextOf, Meaning, WellFormed, TreeOf, Canonicalize, Paired, Quoted, StringText, Decoded, PartsOf, PartsOk,
         Sorted, Before, Shows;
    var k := keys[0];
    assert k in Elements(keys);
    FieldShows(d, show, v, k);
    TreeIsPrinted(d, show, v.fields[k]);
    QuotedIsString(k);
    var key, t := Quoted(k), TextOf(TreeOf(show, v.fields[k]));
    if |keys| == 1 {
      LastFieldText(key, t);
      assert CanonicalFields(show, v, keys[1..]) == Some([]);
    } else {
      SortedTail(keys, seen);
      MembersArePrinted(d, show, v, keys[1..], seen + {k});
      var rest := CanonicalFields(show, v, keys[1..]).value;
      FieldText(key, t, rest);
    }
  }

  lemma FieldShows(d: Doubles, show: real -> Lexeme, v: Value, k: Text)
    requires Shows(d, show, v) && v.Obj? && k in v.fields
    ensures Shows(d, show, v.fields[k])
  {}

  lemma LastFieldText(key: Text, t: Text)
    ensures key + ([] + ([COLON] + [])) + (t + ([] + [CLOSE_BRACE])) == key + ([COLON] + t) + [CLOSE_BRACE]
  {
    assert [] + ([COLON] + []) == [COLON] && [] + [CLOSE_BRACE] == [CLOSE_BRACE];
  }

  lemma FieldText(key: Text, t: Text, rest: Text)
    ensures key + ([] + ([COLON] + [])) + (t + ([] + ([COMMA] + ([] + (rest + [CLOSE_BRACE])))))
      == key + ([COLON] + t) + ([COMMA] + rest) + [CLOSE_BRACE]
  {
    assert [] + (rest + [CLOSE_BRACE]) == rest + [CLOSE_BRACE];
    assert [] + ([COLON] + []) == [COLON];
  }

  lemma SortedTail(keys: seq<Text>, seen: set<Text>)
    requires Sorted(keys) && keys != [] && Elements(keys) !! seen
    ensures Sorted(keys[1..]) && Elements(keys[1..]) !! seen + {keys[0]}
  {
    if keys[0] in Elements(keys[1..]) {
      BeforeIsTotal(keys[0], keys[0]);
    }
    assert Elements(keys[1..]) <= Elements(keys);
  }

  // ---------------------------------------------------------------- refusals

  /** The printer refuses exactly the values that hold a lone surrogate somewhere, in a string or a key. */
  lemma {:induction false} RefusesExactlyLoneSurrogates(show: real -> Lexeme, v: Value)
    ensures Canonicalize(show, v).Some? <==> AllPaired(v)
    decreases v
  {
    match v
    case Null | Bool(_) | Num(_) | Str(_) =>
    case Arr(items) => ItemsRefused(show, v, 0);
    case Obj(fields) =>
      var keys := SortedKeys(fields.Keys);
      forall k ensures k in keys <==> k in fields { assert k in keys <==> k in Elements(keys); }
      FieldsRefused(show, v, keys);
  }

  lemma {:induction false} ItemsRefused(show: real -> Lexeme, v: Value, n: nat)
    requires v.Arr? && n <= |v.items|
    ensures CanonicalItems(show, v, n).Some? <==> forall i :: n <= i < |v.items| ==> AllPaired(v.items[i])
    decreases v, |v.items| - n
  {
    hide Canonicalize, AllPaired;
    if n < |v.items| {
      RefusesExactlyLoneSurrogates(show, v.items[n]);
      ItemsRefused(show, v, n + 1);
    }
  }

  lemma {:induction false} FieldsRefused(show: real -> Lexeme, v: Value, keys: seq<Text>)
    requires v.Obj? && forall k :: k in keys ==> k in v.fields
    ensures CanonicalFields(show, v, keys).Some? <==> forall k :: k in keys ==> Paired(k) && AllPaired(v.fields[k])
    decreases v, |keys|
  {
    hide Canonicalize, AllPaired, Paired, Quoted;
    if keys != [] {
      RefusesExactlyLoneSurrogates(show, v.fields[keys[0]]);
      FieldsRefused(show, v, keys[1..]);
      assert keys == [keys[0]] + keys[1..];
    }
  }

  // ---------------------------------------------------------------- parser and printer undo each other

  /** The parser reads back every value the printer accepts, from its canonical text. */
  lemma ParseInvertsCanonical(d: Doubles, show: real -> Lexeme, v: Value)
    requires Shows(d, show, v) && AllPaired(v)
    ensures Canonicalize(show, v).Some? && ParseStrict(d, Canonicalize(show, v).value) == Some(v)
  {
    hide TextOf, WellFormed, Canonicalize, ParseText, TreeOf, Meaning, Shows, AllPaired;
    TreeIsPrinted(d, show, v);
    var c := TreeOf(show, v);
    var none: Text := [];
    assert AllSpace(none) && TextOf(c) == none + (TextOf(c) + none);
    AcceptsExactlyGrammar(d, TextOf(c), c);
  }

  /** Canonical texts are equal exactly when the values are. */
  lemma CanonicalTextIdentifiesValue(d: Doubles, show: real -> Lexeme, v: Value, w: Value)
    requires Shows(d, show, v) && AllPaired(v) && Shows(d, show, w) && AllPaired(w)
    ensures Canonicalize(show, v) == Canonicalize(show, w) <==> v == w
  {
    hide Canonicalize, Shows, AllPaired, ParseStrict;
    ParseInvertsCanonical(d, show, v);
    ParseInvertsCanonical(d, show, w);
  }

  /** What the parser returns, the printer accepts. */
  lemma {:induction false} ParsedIsPaired(d: Doubles, c: Cst)
    requires WellFormed(d, c)
    ensures AllPaired(Meaning(d, c))
    decreases c, 1
  {
    match c
    case CNull | CTrue | CFalse | CNum(_) | CStr(_) | CEmptyArr(_) | CEmptyObj(_) =>
    case CArr(_, items) =>
      ItemsPaired(d, items);
      assert Meaning(d, c) == Arr(ItemsMeaning(d, items));
    case CObj(_, members) => MembersPaired(d, members, {});
  }

  lemma {:induction false} ItemsPaired(d: Doubles, items: Items)
    requires ItemsOk(d, items)
    ensures forall v :: v in ItemsMeaning(d, items) ==> AllPaired(v)
    decreases items, 1
  {
    hide AllPaired;
    ParsedIsPaired(d, items.value);
    if items.MoreItems? {
      ItemsPaired(d, items.rest);
    }
  }

  lemma {:induction false} MembersPaired(d: Doubles, members: Members, keys: set<Text>)
    requires MembersOk(d, members, keys)
    ensures var m := MembersMeaning(d, members, keys); forall k :: k in m ==> Paired(k) && AllPaired(m[k])
    decreases members, 1
  {
    hide AllPaired, Meaning, WellFormed, Paired;
    ParsedIsPaired(d, members.value);
    if members.MoreMembers? { MembersPaired(d, members.rest, keys + {Decoded(members.member.key)}); }
  }

  /** Parsing, printing and parsing again changes nothing, for any accepted text. */
  lemma CanonicalTextKeepsMeaning(d: Doubles, show: real -> Lexeme, t: Text)
    requires ParseStrict(d, t).Some? && Shows(d, show, ParseStrict(d, t).value)
    ensures var canonical := Canonicalize(show, ParseStrict(d, t).value);
      canonical.Some? && ParseStrict(d, canonical.value) == ParseStrict(d, t)
  {
    hide Canonicalize, Shows, AllPaired, ParseText, WellFormed, Meaning;
    AcceptsExactlyGrammar(d, t, ParseText(d, t).value);
    ParsedIsPaired(d, ParseText(d, t).value);
    ParseInvertsCanonical(d, show, ParseStrict(d, t).value);
  }

  // ---------------------------------------------------------------- safe integers

  const MAX_SAFE_INTEGER := 0x1F_FFFF_FFFF_FFFF

  function Decimal(n: nat): Text {
    var last: int := 0x30 + n % 10;
    if n < 10 then [last] else Decimal(n / 10) + [last]
  }

  /** How `JSON.stringify` writes an integer. */
  function DecimalLexeme(x: real): Lexeme {
    var n := x.Floor;
    Lexeme(n < 0, Decimal(if n < 0 then -n else n), None, None)
  }

  lemma {:induction false} DecimalDigits(n: nat)
    ensures |Decimal(n)| > 0 && AllDigits(Decimal(n)) && DigitsValue(Decimal(n)) == n
    ensures Decimal(n)[0] == ZERO ==> n == 0 && |Decimal(n)| == 1
  {
    if n >= 10 {
      DecimalDigits(n / 10);
      assert Decimal(n)[..|Decimal(n)| - 1] == Decimal(n / 10);
      assert Decimal(n)[0] == Decimal(n / 10)[0];
    } else {
      assert Decimal(n)[..0] == [];
    }
  }

  ghost predicate SafeInteger(x: real) {
    x == x.Floor as real && -MAX_SAFE_INTEGER <= x.Floor <= MAX_SAFE_INTEGER
  }

  /** Rounding keeps safe integers, so decimal digits show them faithfully. */
  lemma DecimalShowsSafeIntegers(d: Doubles, x: real)
    requires SafeInteger(x) && d.round(x) == Some(x)
    ensures Shows(d, DecimalLexeme, Num(x))
  {
    hide Decimal, DigitsValue;
    var n := x.Floor;
    DecimalDigits(if n < 0 then -n else n);
    ExactInteger(DecimalLexeme(x));
  }

  lemma ExactInteger(l: Lexeme)
    requires LexemeOk(l) && l.fraction.None? && l.exponent.None?
    ensures Exact(l) == if l.negative then -(DigitsValue(l.whole) as real) else DigitsValue(l.whole) as real
  {
    hide DigitsValue;
    assert l.whole + [] == l.whole;
    assert Pow10(0) == 1.0;
  }

  /** Every number in the value is a safe integer. */
  ghost predicate SafeNumbers(v: Value) {
    match v
    case Null | Bool(_) | Str(_) => true
    case Num(n) => SafeInteger(n)
    case Arr(items) => forall i :: 0 <= i < |items| ==> SafeNumbers(items[i])
    case Obj(fields) => forall k :: k in fields ==> SafeNumbers(fields[k])
  }

  /** Rounding leaves safe integers alone, as it does in every IEEE 754 binary64 format. */
  ghost predicate KeepsSafeIntegers(d: Doubles) { forall x :: SafeInteger(x) ==> d.round(x) == Some(x) }

  lemma {:induction false} DecimalShowsSafeNumbers(d: Doubles, v: Value)
    requires KeepsSafeIntegers(d) && SafeNumbers(v)
    ensures Shows(d, DecimalLexeme, v)
  {
    match v
    case Null | Bool(_) | Str(_) =>
    case Num(n) => DecimalShowsSafeIntegers(d, n);
    case Arr(items) =>
      forall i | 0 <= i < |items| ensures Shows(d, DecimalLexeme, items[i]) { DecimalShowsSafeNumbers(d, items[i]); }
    case Obj(fields) =>
      forall k | k in fields ensures Shows(d, DecimalLexeme, fields[k]) { DecimalShowsSafeNumbers(d, fields[k]); }
  }

  /** Any value whose numbers are safe integers and whose strings are paired is printed and read back. */
  lemma SafeValuesRoundTrip(d: Doubles, v: Value)
    requires KeepsSafeIntegers(d) && SafeNumbers(v) && AllPaired(v)
    ensures Canonicalize(DecimalLexeme, v).Some? && ParseStrict(d, Canonicalize(DecimalLexeme, v).value) == Some(v)
  {
    hide Canonicalize, ParseStrict, Shows, SafeNumbers, AllPaired, KeepsSafeIntegers;
    DecimalShowsSafeNumbers(d, v);
    ParseInvertsCanonical(d, DecimalLexeme, v);
  }

  /** Two such values have the same canonical text exactly when they are the same value. */
  lemma SafeTextIdentifiesValue(d: Doubles, v: Value, w: Value)
    requires KeepsSafeIntegers(d) && SafeNumbers(v) && AllPaired(v) && SafeNumbers(w) && AllPaired(w)
    ensures Canonicalize(DecimalLexeme, v) == Canonicalize(DecimalLexeme, w) <==> v == w
  {
    hide Canonicalize, ParseStrict, Shows, SafeNumbers, AllPaired, KeepsSafeIntegers;
    SafeValuesRoundTrip(d, v);
    SafeValuesRoundTrip(d, w);
  }

  /** Any accepted text whose numbers are safe integers, printed canonically and parsed again, means the same. */
  lemma SafeTextKeepsMeaning(d: Doubles, t: Text)
    requires KeepsSafeIntegers(d) && ParseStrict(d, t).Some? && SafeNumbers(ParseStrict(d, t).value)
    ensures var canonical := Canonicalize(DecimalLexeme, ParseStrict(d, t).value);
      canonical.Some? && ParseStrict(d, canonical.value) == ParseStrict(d, t)
  {
    hide Canonicalize, ParseStrict, Shows, SafeNumbers, AllPaired, KeepsSafeIntegers;
    DecimalShowsSafeNumbers(d, ParseStrict(d, t).value);
    CanonicalTextKeepsMeaning(d, DecimalLexeme, t);
  }

  // ---------------------------------------------------------------- the scan for lone surrogates

  /** The index loop of the canonical writer and of the parser's strings. */
  method RejectLoneSurrogate(text: Text) returns (ok: bool)
    ensures ok <==> Paired(text)
  {
    var index := 0;
    while index < |text|
      invariant 0 <= index <= |text|
      invariant Paired(text[..index])
      invariant 0 < index ==> !IsHigh(text[index - 1])
    {
      var code := text[index];
      if IsHigh(code) {
        if index + 1 >= |text| || !IsLow(text[index + 1]) { return false; }
        index := index + 1;
      } else if IsLow(code) {
        assert index == 0 || !IsHigh(text[index - 1]);
        return false;
      }
      index := index + 1;
    }
    assert text[..index] == text;
    return true;
  }
}
