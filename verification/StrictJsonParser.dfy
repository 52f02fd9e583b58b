/** The parser as it is written: an object that advances an index over its source. Every method is proved to
    consume exactly what the functions of `StrictJson` consume and to build the value they denote. */
module StrictJsonParser {
  import opened JobState
  import opened StrictJson
  import opened StrictJsonTheorems
  import opened StrictJsonCanonical

  // ---------------------------------------------------------------- what is read at the head of a text, as values

  ghost function ValueAt(d: Doubles, s: Text): Option<Parsed<Value>> {
    var r := ParseValue(d, s);
    if r.None? then None else (ValueSound(d, s); Some(Parsed(Meaning(d, r.value.node), r.value.rest)))
  }

  ghost function ItemsAt(d: Doubles, s: Text): Option<Parsed<seq<Value>>> {
    var r := ParseItems(d, s);
    if r.None? then None else (ItemsSound(d, s); Some(Parsed(ItemsMeaning(d, r.value.node), r.value.rest)))
  }

  ghost function MembersAt(d: Doubles, s: Text, keys: set<Text>): (m: Option<Parsed<map<Text, Value>>>)
    ensures m.Some? ==> m.value.node.Keys !! keys
  {
    var r := ParseMembers(d, s, keys);
    if r.None? then None else (MembersSound(d, s, keys); Some(Parsed(MembersMeaning(d, r.value.node, keys), r.value.rest)))
  }

  function StringAt(s: Text): Option<Parsed<Text>> {
    var r := ParseString(s);
    if r.None? then None else Some(Parsed(Decoded(r.value.node), r.value.rest))
  }

  /** `Number(text)` and the finiteness test, on the text of a JSON number. */
  function NumberOf(d: Doubles, text: Text): Option<real> {
    var r := ParseLexeme(text);
    if r.None? || r.value.rest != [] || !LexemeOk(r.value.node) then None else d.round(Exact(r.value.node))
  }

  ghost function NumberAt(d: Doubles, s: Text): (x: Option<Parsed<real>>)
    ensures x.Some? ==> |x.value.rest| < |s|
  {
    var r := ParseLexeme(s);
    if r.None? then None
    else
      LexemeSound(s);
      var x := d.round(Exact(r.value.node));
      if x.None? then None else Some(Parsed(x.value, r.value.rest))
  }

  /** Where the parser continues after an element: None at a syntax error, else whether the list is closed. */
  function Separator(s: Text, close: Unit): Option<Parsed<bool>> {
    var after := TakeSpace(s).rest;
    if StartsWith(after, close) then Some(Parsed(true, after[1..]))
    else if StartsWith(after, COMMA) then Some(Parsed(false, TakeSpace(after[1..]).rest))
    else None
  }

  lemma ItemsAtStep(d: Doubles, s: Text)
    ensures ItemsAt(d, s) ==
      var v := ValueAt(d, s);
      if v.None? then None else
      var separator := Separator(v.value.rest, CLOSE_BRACKET);
      if separator.None? then None else
      if separator.value.node then Some(Parsed([v.value.node], separator.value.rest)) else
      var rest := ItemsAt(d, separator.value.rest);
      if rest.None? then None else Some(Parsed([v.value.node] + rest.value.node, rest.value.rest))
  {
    hide ParseValue, Meaning, WellFormed, TakeSpace;
    if ParseItems(d, s).Some? { ItemsSound(d, s); }
  }

  /** A key that is not among `keys`, its colon and its value. */
  ghost function FieldAt(d: Doubles, s: Text, keys: set<Text>): Option<Parsed<(Text, Value)>> {
    var m := ParseMember(s);
    if m.None? || Decoded(m.value.node.key) in keys then None
    else
      var v := ValueAt(d, m.value.rest);
      if v.None? then None else Some(Parsed((Decoded(m.value.node.key), v.value.node), v.value.rest))
  }

  lemma MembersAtStep(d: Doubles, s: Text, keys: set<Text>)
    ensures MembersAt(d, s, keys) ==
      var f := FieldAt(d, s, keys);
      if f.None? then None else
      var (key, value) := f.value.node;
      var separator := Separator(f.value.rest, CLOSE_BRACE);
      if separator.None? then None else
      if separator.value.node then Some(Parsed(map[key := value], separator.value.rest)) else
      var rest := MembersAt(d, separator.value.rest, keys + {key});
      if rest.None? then None else Some(Parsed(rest.value.node[key := value], rest.value.rest))
  {
    hide ParseValue, Meaning, WellFormed, TakeSpace, Decoded, ParseMember, MemberOk;
    if ParseMembers(d, s, keys).Some? { MembersSound(d, s, keys); }
  }

  /** `result` holds the fields of the object at `s` that were read before `now`. */
  ghost predicate FieldsRead(d: Doubles, s: Text, result: map<Text, Value>, keys: set<Text>, now: Text) {
    && result.Keys == keys
    && var whole, later := MembersAt(d, s, {}), MembersAt(d, now, keys);
      && (whole.Some? <==> later.Some?)
      && (whole.Some? ==> whole.value.rest == later.value.rest && whole.value.node == result + later.value.node)
  }

  lemma FieldsReadStep(d: Doubles, s: Text, result: map<Text, Value>, keys: set<Text>, now: Text)
    requires FieldsRead(d, s, result, keys, now)
    ensures FieldAt(d, now, keys).None? ==> MembersAt(d, s, {}).None?
    ensures FieldAt(d, now, keys).Some? ==>
      var ((key, value), rest) := (FieldAt(d, now, keys).value.node, FieldAt(d, now, keys).value.rest);
      var separator := Separator(rest, CLOSE_BRACE);
      && (separator.None? ==> MembersAt(d, s, {}).None?)
      && (separator.Some? && separator.value.node ==>
            MembersAt(d, s, {}) == Some(Parsed(result[key := value], separator.value.rest)))
      && (separator.Some? && !separator.value.node ==>
            FieldsRead(d, s, result[key := value], keys + {key}, separator.value.rest))
  {
    hide Separator, FieldAt, MembersAt;
    MembersAtStep(d, now, keys);
    if FieldAt(d, now, keys).Some? {
      var ((key, value), rest) := (FieldAt(d, now, keys).value.node, FieldAt(d, now, keys).value.rest);
      assert result + map[key := value] == result[key := value];
      var separator := Separator(rest, CLOSE_BRACE);
      if separator.Some? && !separator.value.node {
        var later := MembersAt(d, separator.value.rest, keys + {key});
        if later.Some? {
          assert result + later.value.node[key := value] == result[key := value] + later.value.node;
        }
      }
    }
  }

  // ---------------------------------------------------------------- the object

  class Parser {
    const source: Text
    const doubles: Doubles
    var index: nat

    ghost predicate Valid()
      reads this
    {
      index <= |source|
    }

    /** What is still to be read. */
    ghost function Rest(): Text
      requires Valid()
      reads this
    {
      source[index..]
    }

    constructor (source: Text, doubles: Doubles)
      ensures Valid() && this.source == source && this.doubles == doubles && Rest() == source
    {
      this.source := source;
      this.doubles := doubles;
      this.index := 0;
    }

    method SkipWhitespace()
      requires Valid()
      modifies this`index
      ensures Valid() && old(index) <= index && Rest() == TakeSpace(old(Rest())).rest
    {
      while index < |source| && IsSpace(source[index])
        invariant Valid() && old(index) <= index
        invariant TakeSpace(Rest()).rest == TakeSpace(old(Rest())).rest
      {
        assert Rest()[1..] == source[index + 1..];
        index := index + 1;
      }
    }

    method Consume(value: Text) returns (ok: bool)
      requires Valid()
      modifies this`index
      ensures Valid() && (ok <==> value <= old(Rest()))
      ensures index == old(index) + if ok then |value| else 0
      ensures Rest() == old(Rest())[index - old(index)..]
    {
      ok := index + |value| <= |source| && source[index..index + |value|] == value;
      assert ok ==> Rest()[..|value|] == value;
      assert value <= Rest() ==> source[index..index + |value|] == Rest()[..|value|];
      if ok { index := index + |value|; }
    }

    method ConsumeDigits() returns (ok: bool)
      requires Valid()
      modifies this`index
      ensures Valid() && old(index) <= index
      ensures Rest() == TakeDigits(old(Rest())).rest
      ensures ok <==> TakeDigits(old(Rest())).node != []
    {
      var start := index;
      ghost var s := Rest();
      while index < |source| && IsDigit(source[index])
        invariant Valid() && start <= index
        invariant TakeDigits(Rest()).rest == TakeDigits(s).rest
        invariant |TakeDigits(s).node| == index - start + |TakeDigits(Rest()).node|
      {
        assert Rest()[1..] == source[index + 1..];
        index := index + 1;
      }
      ok := start != index;
    }

    method ParseNumber() returns (value: Option<real>)
      requires Valid()
      modifies this`index
      ensures Valid() && old(index) <= index
      ensures value.Some? <==> NumberAt(doubles, old(Rest())).Some?
      ensures value.Some? ==> NumberAt(doubles, old(Rest())).value == Parsed(value.value, Rest())
    {
      hide ParseLexeme, ParseWhole, ParseFraction, ParseExponent, TakeDigits, NumberOf, NumberAt;
      var start := index;
      ghost var s := Rest();
      var negative := Consume([MINUS]);
      assert negative == StartsWith(s, MINUS);
      ghost var afterSign := if negative then s[1..] else s;
      assert Rest() == afterSign;
      LexemeStages(s);
      NumberStage(doubles, s);
      var ok := ParseWholePart();
      if !ok { return None; }
      ok := ParseFractionPart();
      if !ok { return None; }
      ok := ParseExponentPart();
      if !ok { return None; }
      assert source[start..index] + Rest() == s;
      SliceIsNumber(doubles, s, source[start..index]);
      value := NumberOf(doubles, source[start..index]);
    }

    method ParseWholePart() returns (ok: bool)
      requires Valid()
      modifies this`index
      ensures Valid() && old(index) <= index
      ensures ok <==> ParseWhole(old(Rest())).Some?
      ensures ok ==> ParseWhole(old(Rest())).value.rest == Rest()
    {
      ok := Consume([ZERO]);
      if !ok { ok := ConsumeDigits(); }
    }

    method ParseFractionPart() returns (ok: bool)
      requires Valid()
      modifies this`index
      ensures Valid() && old(index) <= index
      ensures ok <==> ParseFraction(old(Rest())).Some?
      ensures ok ==> ParseFraction(old(Rest())).value.rest == Rest()
    {
      ok := true;
      var point := Consume([DOT]);
      if point { ok := ConsumeDigits(); }
    }

    method ParseExponentPart() returns (ok: bool)
      requires Valid()
      modifies this`index
      ensures Valid() && old(index) <= index
      ensures ok <==> ParseExponent(old(Rest())).Some?
      ensures ok ==> ParseExponent(old(Rest())).value.rest == Rest()
    {
      ok := true;
      if index < |source| && IsExponent(source[index]) {
        ghost var s := Rest();
        index := index + 1;
        assert Rest() == s[1..];
        ghost var t := Rest();
        if index < |source| && (source[index] == PLUS || source[index] == MINUS) {
          index := index + 1;
          assert Rest() == t[1..];
        }
        ok := ConsumeDigits();
      }
    }

    /** After a backslash. */
    method ParseEscape() returns (unit: Option<Unit>)
      requires Valid() && 0 < index && source[index - 1] == BACKSLASH
      modifies this`index
      ensures Valid() && old(index) <= index
      ensures var part := ParsePart(source[old(index) - 1..]);
        (unit.Some? <==> part.Some?) && (unit.Some? ==> part.value.rest == Rest() && unit.value == PartMeaning(part.value.node))
    {
      ghost var s := source[index - 1..];
      if index >= |source| { return None; }
      var escape := source[index];
      assert escape == s[1];
      index := index + 1;
      assert Rest() == s[2..];
      if IsShort(escape) { return Some(ShortMeaning(escape)); }
      if escape != 0x75 || index + 4 > |source| { return None; }
      var hex := source[index..index + 4];
      assert hex[0] == s[2] && hex[1] == s[3] && hex[2] == s[4] && hex[3] == s[5];
      if !IsHexDigit(hex[0]) || !IsHexDigit(hex[1]) || !IsHexDigit(hex[2]) || !IsHexDigit(hex[3]) { return None; }
      index := index + 4;
      assert Rest() == s[6..];
      unit := Some(HexUnit(HexValue(hex[0]), HexValue(hex[1]), HexValue(hex[2]), HexValue(hex[3])));
    }

    method ParseString() returns (value: Option<Text>)
      requires Valid()
      modifies this`index
      ensures Valid() && old(index) <= index
      ensures value.Some? <==> StringAt(old(Rest())).Some?
      ensures value.Some? ==> StringAt(old(Rest())).value == Parsed(value.value, Rest()) && old(index) < index
    {
      hide ParseParts, ParsePart, PartMeaning, Decoded, Paired, PartsRead, StringAt;
      var quoted := Consume([QUOTE]);
      if !quoted {
        StringQuote(old(Rest()));
        return None;
      }
      ghost var s := Rest();
      assert s == old(Rest())[1..];
      StringStages(old(Rest()));
      var result: Text := [];
      while true
        invariant Valid() && old(index) < index
        invariant PartsRead(s, result, Rest())
        decreases |source| - index
      {
        ghost var now := Rest();
        if index >= |source| {
          PartsStep(s, result, now);
          return None;
        }
        var character := source[index];
        index := index + 1;
        assert Rest() == now[1..];
        if character == QUOTE {
          QuoteStep(s, result, now);
          var ok := RejectLoneSurrogate(result);
          if !ok { return None; }
          return Some(result);
        }
        if character == BACKSLASH {
          var unit := ParseEscape();
          PartsStep(s, result, now);
          if unit.None? { return None; }
          result := result + [unit.value];
        } else {
          RawPart(now);
          PartsStep(s, result, now);
          if character < 0x20 { return None; }
          result := result + [character];
        }
      }
      return None;
    }

    /** A literal word: `expect("true")` and its siblings. */
    method ParseWord(word: Text, meaning: Value) returns (value: Option<Value>)
      requires Valid()
      modifies this`index
      ensures Valid() && old(index) <= index
      ensures value == if word <= old(Rest()) then Some(meaning) else None
      ensures value.Some? ==> Rest() == old(Rest())[|word|..] && index == old(index) + |word|
    {
      var ok := Consume(word);
      value := if ok then Some(meaning) else None;
    }

    /** After an element: Some(true) when the list is closed, Some(false) before the next element. */
    method NextElement(close: Unit) returns (closed: Option<bool>)
      requires Valid()
      modifies this`index
      ensures Valid() && old(index) <= index
      ensures closed.Some? <==> Separator(old(Rest()), close).Some?
      ensures closed.Some? ==> Separator(old(Rest()), close).value == Parsed(closed.value, Rest())
    {
      hide TakeSpace, StartsWith;
      SkipWhitespace();
      StartsWithOne(Rest(), close);
      StartsWithOne(Rest(), COMMA);
      ghost var after := Rest();
      var ok := Consume([close]);
      if ok { return Some(true); }
      assert Rest() == after;
      ok := Consume([COMMA]);
      if !ok { return None; }
      assert Rest() == after[1..];
      SkipWhitespace();
      closed := Some(false);
    }

    method ParseArray() returns (value: Option<Value>)
      requires Valid() && index < |source| && source[index] == OPEN_BRACKET
      modifies this`index
      ensures Valid() && old(index) <= index
      ensures value.Some? <==> ValueAt(doubles, old(Rest())).Some?
      ensures value.Some? ==> ValueAt(doubles, old(Rest())).value == Parsed(value.value, Rest()) && old(index) < index
      decreases |source| - index, 0
    {
      hide ValueAt, ItemsAt, TakeSpace, Separator;
      ArrayAt(doubles, Rest());
      index := index + 1;
      assert Rest() == old(Rest())[1..];
      SkipWhitespace();
      ghost var s := Rest();
      var empty := Consume([CLOSE_BRACKET]);
      if empty { return Some(Arr([])); }
      assert Rest() == s;
      var result: seq<Value> := [];
      while true
        invariant Valid() && old(index) < index
        invariant ItemsAt(doubles, s).Some? <==> ItemsAt(doubles, Rest()).Some?
        invariant ItemsAt(doubles, s).Some? ==>
          && ItemsAt(doubles, s).value.rest == ItemsAt(doubles, Rest()).value.rest
          && ItemsAt(doubles, s).value.node == result + ItemsAt(doubles, Rest()).value.node
        decreases |source| - index
      {
        ItemsAtStep(doubles, Rest());
        var item := ParseValueAt();
        if item.None? { return None; }
        result := result + [item.value];
        var closed := NextElement(CLOSE_BRACKET);
        if closed.None? { return None; }
        if closed.value { return Some(Arr(result)); }
      }
      return None;
    }

    method ParseObject() returns (value: Option<Value>)
      requires Valid() && index < |source| && source[index] == OPEN_BRACE
      modifies this`index
      ensures Valid() && old(index) <= index
      ensures value.Some? <==> ValueAt(doubles, old(Rest())).Some?
      ensures value.Some? ==> ValueAt(doubles, old(Rest())).value == Parsed(value.value, Rest()) && old(index) < index
      decreases |source| - index, 0
    {
      hide ValueAt, MembersAt, TakeSpace, Separator, FieldAt, FieldsRead;
      ObjectAt(doubles, Rest());
      var result: map<Text, Value> := map[];
      var keys: set<Text> := {};
      index := index + 1;
      assert Rest() == old(Rest())[1..];
      SkipWhitespace();
      ghost var s := Rest();
      var empty := Consume([CLOSE_BRACE]);
      if empty { return Some(Obj(result)); }
      assert Rest() == s;
      NothingRead(doubles, s);
      while true
        invariant Valid() && old(index) < index
        invariant FieldsRead(doubles, s, result, keys, Rest())
        decreases |source| - index
      {
        FieldsReadStep(doubles, s, result, keys, Rest());
        var field := ParseField(keys);
        if field.None? { return None; }
        var (key, value) := field.value;
        result := result[key := value];
        keys := keys + {key};
        var closed := NextElement(CLOSE_BRACE);
        if closed.None? { return None; }
        if closed.value { return Some(Obj(result)); }
      }
      return None;
    }

    /** One turn of the object loop: a fresh key, the colon and the value. */
    method ParseField(keys: set<Text>) returns (field: Option<(Text, Value)>)
      requires Valid()
      modifies this`index
      ensures Valid() && old(index) <= index
      ensures field.Some? <==> FieldAt(doubles, old(Rest()), keys).Some?
      ensures field.Some? ==> FieldAt(doubles, old(Rest()), keys).value == Parsed(field.value, Rest()) && old(index) < index
      decreases |source| - index, 2
    {
      hide ValueAt, TakeSpace, ParseMember, StringAt, Decoded;
      MemberStages(Rest());
      if index >= |source| || source[index] != QUOTE {
        StringQuote(Rest());
        return None;
      }
      var key := ParseString();
      if key.None? || key.value in keys { return None; }
      SkipWhitespace();
      var ok := Consume([COLON]);
      if !ok { return None; }
      SkipWhitespace();
      var value := ParseValueAt();
      field := if value.None? then None else Some((key.value, value.value));
    }

    method ParseValueAt() returns (value: Option<Value>)
      requires Valid()
      modifies this`index
      ensures Valid() && old(index) <= index
      ensures value.Some? <==> ValueAt(doubles, old(Rest())).Some?
      ensures value.Some? ==> ValueAt(doubles, old(Rest())).value == Parsed(value.value, Rest()) && old(index) < index
      decreases |source| - index, 1
    {
      hide ValueAt, StringAt, NumberAt;
      ValueIsScalar(doubles, Rest());
      if index >= |source| { return None; }
      var character := source[index];
      assert character == Rest()[0];
      if character == OPEN_BRACE { value := ParseObject(); return; }
      if character == OPEN_BRACKET { value := ParseArray(); return; }
      if character == QUOTE {
        var text := ParseString();
        return if text.Some? then Some(Str(text.value)) else None;
      }
      if character == TRUE[0] { value := ParseWord(TRUE, Bool(true)); return; }
      if character == FALSE[0] { value := ParseWord(FALSE, Bool(false)); return; }
      if character == NULL[0] { value := ParseWord(NULL, Null); return; }
      if character == MINUS || IsDigit(character) {
        ghost var s := Rest();
        var number := ParseNumber();
        return if number.Some? then Some(Num(number.value)) else None;
      }
      return None;
    }

    /** The whole source: exactly the texts of the strict grammar are accepted, and their value is returned. */
    method Parse() returns (value: Option<Value>)
      requires Valid() && index == 0
      modifies this`index
      ensures value == ParseStrict(doubles, source)
    {
      hide ParseValue, TakeSpace, WellFormed, Meaning;
      assert Rest() == source;
      SkipWhitespace();
      ghost var s := Rest();
      value := ParseValueAt();
      if value.None? { return; }
      SkipWhitespace();
      if index != |source| {
        assert Rest() != [];
        return None;
      }
      assert Rest() == [];
    }
  }

  lemma StartsWithOne(s: Text, u: Unit)
    ensures [u] <= s <==> StartsWith(s, u)
  {}

  lemma LexemeStages(s: Text)
    ensures ParseLexeme(s).Some? <==>
      var whole := ParseWhole(if StartsWith(s, MINUS) then s[1..] else s);
      whole.Some? && ParseFraction(whole.value.rest).Some?
      && ParseExponent(ParseFraction(whole.value.rest).value.rest).Some?
    ensures ParseLexeme(s).Some? ==>
      var whole := ParseWhole(if StartsWith(s, MINUS) then s[1..] else s).value;
      ParseLexeme(s).value.rest == ParseExponent(ParseFraction(whole.rest).value.rest).value.rest
  {}

  lemma NumberStage(d: Doubles, s: Text)
    ensures NumberAt(d, s).Some? ==> ParseLexeme(s).Some?
  {}

  /** `Number` of the consumed slice is the number at the head of the text. */
  lemma SliceIsNumber(d: Doubles, s: Text, slice: Text)
    requires ParseLexeme(s).Some? && slice + ParseLexeme(s).value.rest == s
    ensures NumberAt(d, s) ==
      if NumberOf(d, slice).None? then None else Some(Parsed(NumberOf(d, slice).value, ParseLexeme(s).value.rest))
  {
    hide ParseLexeme, Exact, LexemeOk, LexemeText;
    LexemeSound(s);
    var l, rest := ParseLexeme(s).value.node, ParseLexeme(s).value.rest;
    assert slice == (slice + rest)[..|slice|] && LexemeText(l) == (LexemeText(l) + rest)[..|slice|];
    assert slice + [] == slice;
    LexemeExact(l, []);
  }

  lemma RawPart(s: Text)
    requires s != [] && s[0] != QUOTE && s[0] != BACKSLASH
    ensures ParsePart(s) == if s[0] < 0x20 then None else Some(Parsed(Raw(s[0]), s[1..]))
    ensures PartMeaning(Raw(s[0])) == s[0]
  {}

  /** `result` holds the characters of the string at `s` that were read before `now`. */
  ghost predicate PartsRead(s: Text, result: Text, now: Text) {
    && (ParseParts(s).Some? <==> ParseParts(now).Some?)
    && (ParseParts(s).Some? ==>
          && ParseParts(s).value.rest == ParseParts(now).value.rest
          && Decoded(ParseParts(s).value.node) == result + Decoded(ParseParts(now).value.node))
  }

  lemma StringStages(s: Text)
    requires StartsWith(s, QUOTE)
    ensures PartsRead(s[1..], [], s[1..])
    ensures StringAt(s) ==
      var parts := ParseParts(s[1..]);
      if parts.None? || !Paired(Decoded(parts.value.node)) then None
      else Some(Parsed(Decoded(parts.value.node), parts.value.rest))
  {
    hide ParseParts, Decoded, Paired;
  }

  lemma PartsStep(s: Text, result: Text, now: Text)
    requires PartsRead(s, result, now)
    ensures now == [] ==> ParseParts(s).None?
    ensures now != [] && now[0] != QUOTE ==>
      && (ParsePart(now).None? ==> ParseParts(s).None?)
      && (ParsePart(now).Some? ==>
            PartsRead(s, result + [PartMeaning(ParsePart(now).value.node)], ParsePart(now).value.rest))
  {
    hide ParsePart, PartMeaning, PartOk;
    if now != [] && now[0] != QUOTE && ParseParts(now).Some? {
      var part := ParsePart(now).value;
      var tail := ParseParts(part.rest).value;
      assert ([part.node] + tail.node)[1..] == tail.node;
    }
  }

  lemma QuoteStep(s: Text, result: Text, now: Text)
    requires PartsRead(s, result, now) && now != [] && now[0] == QUOTE
    ensures ParseParts(s).Some? && ParseParts(s).value.rest == now[1..] && Decoded(ParseParts(s).value.node) == result
  {
    assert Decoded([]) == [] && result + [] == result;
  }

  lemma NothingRead(d: Doubles, s: Text)
    ensures FieldsRead(d, s, map[], {}, s)
  {
    hide MembersAt;
    if MembersAt(d, s, {}).Some? {
      var m := MembersAt(d, s, {}).value.node;
      assert map[] + m == m;
    }
  }

  lemma StringQuote(s: Text)
    requires !StartsWith(s, QUOTE)
    ensures StringAt(s).None?
  {}

  lemma MemberStages(s: Text)
    ensures ParseMember(s).Some? <==>
      StringAt(s).Some? && StartsWith(TakeSpace(StringAt(s).value.rest).rest, COLON)
    ensures ParseMember(s).Some? ==>
      && Decoded(ParseMember(s).value.node.key) == StringAt(s).value.node
      && ParseMember(s).value.rest == TakeSpace(TakeSpace(StringAt(s).value.rest).rest[1..]).rest
  {
    hide ParseString, TakeSpace, Decoded, MemberOk;
  }

  lemma ArrayAt(d: Doubles, s: Text)
    requires StartsWith(s, OPEN_BRACKET)
    ensures ValueAt(d, s) ==
      var after := TakeSpace(s[1..]).rest;
      if StartsWith(after, CLOSE_BRACKET) then Some(Parsed(Arr([]), after[1..]))
      else if ItemsAt(d, after).None? then None
      else Some(Parsed(Arr(ItemsAt(d, after).value.node), ItemsAt(d, after).value.rest))
  {
    hide ParseItems, ItemsMeaning, ItemsOk, TakeSpace;
  }

  lemma ObjectAt(d: Doubles, s: Text)
    requires StartsWith(s, OPEN_BRACE)
    ensures ValueAt(d, s) ==
      var after := TakeSpace(s[1..]).rest;
      if StartsWith(after, CLOSE_BRACE) then Some(Parsed(Obj(map[]), after[1..]))
      else if MembersAt(d, after, {}).None? then None
      else Some(Parsed(Obj(MembersAt(d, after, {}).value.node), MembersAt(d, after, {}).value.rest))
  {
    hide ParseMembers, MembersMeaning, MembersOk, TakeSpace;
  }

  /** The value at the head of a text that does not open an object or an array. */
  ghost function ScalarAt(d: Doubles, s: Text): Option<Parsed<Value>>
    requires s != []
  {
    if s[0] == QUOTE then
      if StringAt(s).None? then None else Some(Parsed(Str(StringAt(s).value.node), StringAt(s).value.rest))
    else if s[0] == TRUE[0] then if TRUE <= s then Some(Parsed(Bool(true), s[|TRUE|..])) else None
    else if s[0] == FALSE[0] then if FALSE <= s then Some(Parsed(Bool(false), s[|FALSE|..])) else None
    else if s[0] == NULL[0] then if NULL <= s then Some(Parsed(Null, s[|NULL|..])) else None
    else if s[0] == MINUS || IsDigit(s[0]) then
      if NumberAt(d, s).None? then None else Some(Parsed(Num(NumberAt(d, s).value.node), NumberAt(d, s).value.rest))
    else None
  }

  lemma ValueIsScalar(d: Doubles, s: Text)
    ensures s == [] ==> ValueAt(d, s) == None
    ensures s != [] && s[0] != OPEN_BRACE && s[0] != OPEN_BRACKET ==> ValueAt(d, s) == ScalarAt(d, s)
  {
    hide ParseItems, ParseMembers, ParseString, ParseLexeme, LexemeOk, Exact, TakeSpace, Decoded;
    if ParseLexeme(s).Some? { LexemeSound(s); }
  }
}
