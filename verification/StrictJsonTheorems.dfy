/** The strict parser accepts exactly the grammar, and inverts the canonical printer. */
module StrictJsonTheorems {
  import opened JobState
  import opened StrictJson

  lemma Assoc(a: Text, b: Text, c: Text)
    ensures a + b + c == a + (b + c)
  {}

  // ---------------------------------------------------------------- soundness: what is parsed was there

  lemma WholeSound(s: Text)
    requires ParseWhole(s).Some?
    ensures var r := ParseWhole(s).value;
      && s == r.node + r.rest && |r.node| > 0 && AllDigits(r.node)
      && (r.node[0] == ZERO ==> |r.node| == 1)
  {}

  lemma FractionSound(s: Text)
    requires ParseFraction(s).Some?
    ensures var r := ParseFraction(s).value;
      && s == FractionText(r.node) + r.rest
      && (r.node.Some? ==> |r.node.value| > 0 && AllDigits(r.node.value))
  {
    if StartsWith(s, DOT) {
      var digits := TakeDigits(s[1..]);
      assert s == [DOT] + s[1..];
      Assoc([DOT], digits.node, digits.rest);
    }
  }

  lemma ExponentSound(s: Text)
    requires ParseExponent(s).Some?
    ensures var r := ParseExponent(s).value;
      && s == ExponentText(r.node) + r.rest
      && (r.node.Some? ==>
            && IsExponent(r.node.value.letter)
            && |r.node.value.digits| > 0 && AllDigits(r.node.value.digits))
  {
    if s != [] && IsExponent(s[0]) {
      var sign := TakeSign(s[1..]);
      var digits := TakeDigits(sign.rest);
      assert s[1..] == SignText(sign.node) + sign.rest;
      assert s == [s[0]] + s[1..];
      Assoc([s[0]], SignText(sign.node), sign.rest);
      Assoc([s[0]] + SignText(sign.node), digits.node, digits.rest);
    }
  }

  lemma LexemeSound(s: Text)
    requires ParseLexeme(s).Some?
    ensures var r := ParseLexeme(s).value; s == LexemeText(r.node) + r.rest && LexemeOk(r.node) && |r.rest| < |s|
  {
    hide ParseWhole, ParseFraction, ParseExponent, FractionText, ExponentText, AllDigits, TakeDigits;
    var r := ParseLexeme(s).value;
    var l := r.node;
    var afterSign := if l.negative then s[1..] else s;
    WholeSound(afterSign);
    var afterWhole := ParseWhole(afterSign).value.rest;
    FractionSound(afterWhole);
    var afterFraction := ParseFraction(afterWhole).value.rest;
    ExponentSound(afterFraction);
    var sign := if l.negative then [MINUS] else [];
    var tail := FractionText(l.fraction) + ExponentText(l.exponent);
    assert s == sign + afterSign;
    Assoc(FractionText(l.fraction), ExponentText(l.exponent), r.rest);
    Assoc(l.whole, tail, r.rest);
    Assoc(sign, l.whole + tail, r.rest);
  }

  lemma {:induction false} PartsSound(s: Text)
    requires ParseParts(s).Some?
    ensures var r := ParseParts(s).value; s == PartsText(r.node) + ([QUOTE] + r.rest)
  {
    if s[0] == QUOTE {
      assert PartsText([]) + ([QUOTE] + s[1..]) == s;
    } else {
      var part, r := ParsePart(s).value, ParseParts(s).value;
      PartsSound(part.rest);
      assert r.node[1..] == ParseParts(part.rest).value.node;
      Assoc(PartText(part.node), PartsText(r.node[1..]), [QUOTE] + r.rest);
    }
  }

  lemma StringSound(s: Text)
    requires ParseString(s).Some?
    ensures var r := ParseString(s).value; s == StringText(r.node) + r.rest
  {
    var r := ParseString(s).value;
    PartsSound(s[1..]);
    assert s == [QUOTE] + s[1..];
    Assoc(PartsText(r.node), [QUOTE], r.rest);
    Assoc([QUOTE], PartsText(r.node) + [QUOTE], r.rest);
  }

  lemma MemberSound(s: Text)
    requires ParseMember(s).Some?
    ensures var r := ParseMember(s).value; s == MemberText(r.node) + r.rest
  {
    var key := ParseString(s).value;
    StringSound(s);
    var before := TakeSpace(key.rest);
    var after := TakeSpace(before.rest[1..]);
    assert before.rest == [COLON] + before.rest[1..];
    Assoc([COLON], after.node, after.rest);
    Assoc(before.node, [COLON] + after.node, after.rest);
    Assoc(StringText(key.node), before.node + ([COLON] + after.node), after.rest);
  }

  /** Two nested concatenations around a bracketed tail, regrouped. */
  lemma BracketAssoc(open: Text, space: Text, inner: Text, rest: Text)
    ensures open + (space + inner) + rest == open + (space + (inner + rest))
  {
    Assoc(space, inner, rest);
    Assoc(open, space + inner, rest);
  }

  lemma {:induction false} ValueSound(d: Doubles, s: Text)
    requires ParseValue(d, s).Some?
    ensures var r := ParseValue(d, s).value; s == TextOf(r.node) + r.rest && WellFormed(d, r.node)
    decreases |s|, 0
  {
    hide ParseString, ParseLexeme, LexemeOk, Exact, ParseItems, ParseMembers, ItemsOk, MembersOk, StringOk, TakeSpace,
         ItemsText, MembersText, LexemeText, StringText, AllSpace;
    var r := ParseValue(d, s).value;
    if s[0] == OPEN_BRACE || s[0] == OPEN_BRACKET {
      var space := TakeSpace(s[1..]);
      assert s == [s[0]] + (space.node + space.rest);
      if r.node.CEmptyObj? || r.node.CEmptyArr? {
        assert space.rest == [space.rest[0]] + r.rest;
        BracketAssoc([s[0]], space.node, [space.rest[0]], r.rest);
      } else if s[0] == OPEN_BRACE {
        MembersSound(d, space.rest, {});
        BracketAssoc([OPEN_BRACE], space.node, MembersText(r.node.members), r.rest);
      } else {
        ItemsSound(d, space.rest);
        BracketAssoc([OPEN_BRACKET], space.node, ItemsText(r.node.items), r.rest);
      }
    } else if s[0] == QUOTE {
      StringSound(s);
      assert StringOk(r.node.parts);
    } else if r.node.CNum? {
      LexemeSound(s);
    }
  }

  lemma {:induction false} ItemsSound(d: Doubles, s: Text)
    requires ParseItems(d, s).Some?
    ensures var r := ParseItems(d, s).value; s == ItemsText(r.node) + r.rest && ItemsOk(d, r.node)
    decreases |s|, 1
  {
    hide ParseValue, TakeSpace, AllSpace, TextOf, WellFormed;
    var r := ParseItems(d, s).value;
    ValueSound(d, s);
    var value := ParseValue(d, s).value;
    var after := TakeSpace(value.rest);
    assert after.rest == [after.rest[0]] + after.rest[1..];
    var t := TextOf(value.node);
    if r.node.LastItem? {
      Assoc(after.node, [CLOSE_BRACKET], r.rest);
      Assoc(t, after.node + [CLOSE_BRACKET], r.rest);
    } else {
      var next := TakeSpace(after.rest[1..]);
      ItemsSound(d, next.rest);
      var tail := ItemsText(r.node.rest);
      SeparatedAssoc(t, after.node, [COMMA], next.node, tail, r.rest);
    }
  }

  lemma SeparatedAssoc(t: Text, after: Text, comma: Text, next: Text, tail: Text, rest: Text)
    ensures t + (after + (comma + (next + tail))) + rest == t + (after + (comma + (next + (tail + rest))))
  {
    Assoc(next, tail, rest);
    Assoc(comma, next + tail, rest);
    Assoc(after, comma + (next + tail), rest);
    Assoc(t, after + (comma + (next + tail)), rest);
  }

  lemma {:induction false} MembersSound(d: Doubles, s: Text, keys: set<Text>)
    requires ParseMembers(d, s, keys).Some?
    ensures var r := ParseMembers(d, s, keys).value; s == MembersText(r.node) + r.rest && MembersOk(d, r.node, keys)
    decreases |s|, 1
  {
    hide ParseValue, ParseMember, TakeSpace, AllSpace, TextOf, WellFormed, MemberText, Decoded, MemberOk;
    var r := ParseMembers(d, s, keys).value;
    MemberSound(s);
    var member := ParseMember(s).value;
    ValueSound(d, member.rest);
    var value := ParseValue(d, member.rest).value;
    var after := TakeSpace(value.rest);
    assert after.rest == [after.rest[0]] + after.rest[1..];
    var m, t := MemberText(member.node), TextOf(value.node);
    if r.node.LastMember? {
      Assoc(after.node, [CLOSE_BRACE], r.rest);
      Assoc(t, after.node + [CLOSE_BRACE], r.rest);
      Assoc(m, t + (after.node + [CLOSE_BRACE]), r.rest);
    } else {
      var next := TakeSpace(after.rest[1..]);
      MembersSound(d, next.rest, keys + {Decoded(member.node.key)});
      var tail := MembersText(r.node.rest);
      SeparatedAssoc(t, after.node, [COMMA], next.node, tail, r.rest);
      Assoc(m, t + (after.node + ([COMMA] + (next.node + tail))), r.rest);
    }
  }

  // ---------------------------------------------------------------- completeness: what is there is parsed

  lemma {:induction false} TakeSpaceExact(space: Text, rest: Text)
    requires AllSpace(space) && (rest == [] || !IsSpace(rest[0]))
    ensures TakeSpace(space + rest) == Parsed(space, rest)
  {
    if space == [] {
      assert space + rest == rest;
    } else {
      assert [space[0]] + space[1..] == space;
      assert (space + rest)[1..] == space[1..] + rest;
      TakeSpaceExact(space[1..], rest);
    }
  }

  lemma {:induction false} TakeDigitsExact(digits: Text, rest: Text)
    requires AllDigits(digits) && (rest == [] || !IsDigit(rest[0]))
    ensures TakeDigits(digits + rest) == Parsed(digits, rest)
  {
    if digits == [] {
      assert digits + rest == rest;
    } else {
      assert [digits[0]] + digits[1..] == digits;
      assert (digits + rest)[1..] == digits[1..] + rest;
      TakeDigitsExact(digits[1..], rest);
    }
  }

  /** What may not follow a number without becoming part of it. */
  predicate Boundary(rest: Text) {
    rest == [] || (!IsDigit(rest[0]) && rest[0] != DOT && !IsExponent(rest[0]))
  }

  lemma ExponentExact(e: Option<Exponent>, rest: Text)
    requires Boundary(rest)
    requires e.Some? ==> IsExponent(e.value.letter) && |e.value.digits| > 0 && AllDigits(e.value.digits)
    ensures ParseExponent(ExponentText(e) + rest) == Some(Parsed(e, rest))
    ensures var s := ExponentText(e) + rest; s == [] || (!IsDigit(s[0]) && s[0] != DOT)
  {
    if e.None? {
      assert ExponentText(e) + rest == rest;
    } else {
      var x := e.value;
      var s := ExponentText(e) + rest;
      Assoc([x.letter] + SignText(x.sign), x.digits, rest);
      Assoc([x.letter], SignText(x.sign), x.digits + rest);
      assert s[1..] == SignText(x.sign) + (x.digits + rest);
      TakeDigitsExact(x.digits, rest);
      assert (x.digits + rest)[0] == x.digits[0];
      assert TakeSign(s[1..]) == Parsed(x.sign, x.digits + rest) by {
        assert x.sign == NoSign ==> s[1..] == x.digits + rest;
        assert x.sign != NoSign ==> s[1..][1..] == x.digits + rest;
      }
    }
  }

  lemma FractionExact(f: Option<Text>, rest: Text)
    requires f.Some? ==> |f.value| > 0 && AllDigits(f.value)
    requires rest == [] || (!IsDigit(rest[0]) && rest[0] != DOT)
    ensures ParseFraction(FractionText(f) + rest) == Some(Parsed(f, rest))
    ensures var s := FractionText(f) + rest; s == [] || !IsDigit(s[0])
  {
    if f.None? {
      assert FractionText(f) + rest == rest;
    } else {
      Assoc([DOT], f.value, rest);
      assert (FractionText(f) + rest)[1..] == f.value + rest;
      TakeDigitsExact(f.value, rest);
    }
  }

  lemma WholeExact(whole: Text, rest: Text)
    requires |whole| > 0 && AllDigits(whole) && (whole[0] == ZERO ==> |whole| == 1)
    requires rest == [] || !IsDigit(rest[0])
    ensures ParseWhole(whole + rest) == Some(Parsed(whole, rest))
  {
    var s := whole + rest;
    assert s[0] == whole[0];
    if whole[0] == ZERO { assert whole == [ZERO] && s[1..] == rest; } else { TakeDigitsExact(whole, rest); }
  }

  lemma LexemeExact(l: Lexeme, rest: Text)
    requires LexemeOk(l) && Boundary(rest)
    ensures ParseLexeme(LexemeText(l) + rest) == Some(Parsed(l, rest))
    ensures (LexemeText(l) + rest)[0] == MINUS || IsDigit((LexemeText(l) + rest)[0])
  {
    var sign := if l.negative then [MINUS] else [];
    var fraction, exponent := FractionText(l.fraction), ExponentText(l.exponent);
    var s := LexemeText(l) + rest;
    ExponentExact(l.exponent, rest);
    FractionExact(l.fraction, exponent + rest);
    WholeExact(l.whole, fraction + (exponent + rest));
    Assoc(fraction, exponent, rest);
    Assoc(l.whole, fraction + exponent, rest);
    Assoc(sign, l.whole + (fraction + exponent), rest);
    var tail := l.whole + (fraction + (exponent + rest));
    assert s == sign + tail;
    assert tail[0] == l.whole[0];
    assert (if StartsWith(s, MINUS) then s[1..] else s) == tail;
  }

  lemma PartExact(p: Part, rest: Text)
    requires PartOk(p)
    ensures var s := PartText(p) + rest;
      s[0] != QUOTE && ParsePart(s) == Some(Parsed(p, rest))
  {
    var s := PartText(p) + rest;
    assert s[|PartText(p)|..] == rest;
  }

  lemma {:induction false} PartsExact(parts: seq<Part>, rest: Text)
    requires PartsOk(parts)
    ensures ParseParts(PartsText(parts) + ([QUOTE] + rest)) == Some(Parsed(parts, rest))
  {
    var s := PartsText(parts) + ([QUOTE] + rest);
    if parts == [] {
      assert s == [QUOTE] + rest && s[1..] == rest;
    } else {
      var tail := PartsText(parts[1..]) + ([QUOTE] + rest);
      Assoc(PartText(parts[0]), PartsText(parts[1..]), [QUOTE] + rest);
      PartExact(parts[0], tail);
      PartsExact(parts[1..], rest);
      assert [parts[0]] + parts[1..] == parts;
    }
  }

  lemma StringExact(parts: seq<Part>, rest: Text)
    requires StringOk(parts)
    ensures ParseString(StringText(parts) + rest) == Some(Parsed(parts, rest))
    ensures (StringText(parts) + rest)[0] == QUOTE
  {
    var s := StringText(parts) + rest;
    Assoc(PartsText(parts), [QUOTE], rest);
    assert s[1..] == PartsText(parts) + ([QUOTE] + rest);
    PartsExact(parts, rest);
  }

  lemma MemberExact(m: Member, rest: Text)
    requires MemberOk(m) && (rest == [] || !IsSpace(rest[0]))
    ensures ParseMember(MemberText(m) + rest) == Some(Parsed(m, rest))
  {
    var key := StringText(m.key);
    Assoc([COLON], m.afterColon, rest);
    Assoc(m.beforeColon, [COLON] + m.afterColon, rest);
    Assoc(key, m.beforeColon + ([COLON] + m.afterColon), rest);
    var colon := [COLON] + (m.afterColon + rest);
    StringExact(m.key, m.beforeColon + colon);
    TakeSpaceExact(m.beforeColon, colon);
    assert colon[1..] == m.afterColon + rest;
    TakeSpaceExact(m.afterColon, rest);
  }

  predicate Opens(u: Unit) {
    || u == OPEN_BRACE || u == OPEN_BRACKET || u == QUOTE || u == TRUE[0] || u == FALSE[0] || u == NULL[0]
    || u == MINUS || IsDigit(u)
  }

  lemma FirstUnit(d: Doubles, c: Cst, rest: Text)
    requires WellFormed(d, c)
    ensures |TextOf(c)| > 0 && Opens(TextOf(c)[0]) && (TextOf(c) + rest)[0] == TextOf(c)[0]
  {
    hide ItemsText, MembersText, PartsText, ItemsOk, MembersOk, Exact;
    if c.CNum? {
      var l := c.lexeme;
      assert LexemeText(l)[0] == if l.negative then MINUS else l.whole[0];
    }
  }

  lemma {:induction false} ValueExact(d: Doubles, c: Cst, rest: Text)
    requires WellFormed(d, c) && Boundary(rest)
    ensures ParseValue(d, TextOf(c) + rest) == Some(Parsed(c, rest))
    decreases c, 0
  {
    hide ParseString, ParseLexeme, LexemeOk, Exact, ParseItems, ParseMembers, ItemsOk, MembersOk, StringOk, TakeSpace,
         ItemsText, MembersText, LexemeText, StringText, AllSpace, Boundary;
    var s := TextOf(c) + rest;
    match c
    case CNull => assert s[|NULL|..] == rest;
    case CTrue => assert s[|TRUE|..] == rest;
    case CFalse => assert s[|FALSE|..] == rest;
    case CNum(l) =>
      FirstUnit(d, c, rest);
      LexemeExact(l, rest);
      NumberUnit(s[0]);
    case CStr(parts) => StringExact(parts, rest);
    case CEmptyArr(space) => EmptyExact(OPEN_BRACKET, space, CLOSE_BRACKET, rest);
    case CEmptyObj(space) => EmptyExact(OPEN_BRACE, space, CLOSE_BRACE, rest);
    case CArr(open, items) =>
      ItemsOpen(d, items, rest);
      InsideExact(OPEN_BRACKET, open, ItemsText(items), rest);
      ItemsExact(d, items, rest);
    case CObj(open, members) =>
      MembersOpen(d, members, {}, rest);
      InsideExact(OPEN_BRACE, open, MembersText(members), rest);
      MembersExact(d, members, {}, rest);
  }

  lemma NumberUnit(u: Unit)
    requires u == MINUS || IsDigit(u)
    ensures u != OPEN_BRACE && u != OPEN_BRACKET && u != QUOTE && u != TRUE[0] && u != FALSE[0] && u != NULL[0]
  {}

  lemma EmptyExact(open: Unit, space: Text, close: Unit, rest: Text)
    requires AllSpace(space) && !IsSpace(close)
    ensures var s := [open] + (space + [close]) + rest;
      s[0] == open && TakeSpace(s[1..]) == Parsed(space, [close] + rest) && ([close] + rest)[1..] == rest
  {
    BracketAssoc([open], space, [close], rest);
    assert ([open] + (space + [close]) + rest)[1..] == space + ([close] + rest);
    TakeSpaceExact(space, [close] + rest);
  }

  lemma InsideExact(open: Unit, space: Text, inner: Text, rest: Text)
    requires AllSpace(space) && |inner| > 0 && !IsSpace(inner[0])
    ensures var s := [open] + (space + inner) + rest;
      s[0] == open && TakeSpace(s[1..]) == Parsed(space, inner + rest)
  {
    BracketAssoc([open], space, inner, rest);
    assert ([open] + (space + inner) + rest)[1..] == space + (inner + rest);
    TakeSpaceExact(space, inner + rest);
  }

  lemma ItemsOpen(d: Doubles, items: Items, rest: Text)
    requires ItemsOk(d, items)
    ensures var t := ItemsText(items);
      |t| > 0 && !IsSpace(t[0]) && !StartsWith(t + rest, CLOSE_BRACKET) && t + rest != [] && !IsSpace((t + rest)[0])
  {
    hide WellFormed, TextOf;
    FirstUnit(d, items.value, []);
  }

  lemma MembersOpen(d: Doubles, members: Members, keys: set<Text>, rest: Text)
    requires MembersOk(d, members, keys)
    ensures var t := MembersText(members);
      |t| > 0 && !IsSpace(t[0]) && !StartsWith(t + rest, CLOSE_BRACE) && t + rest != [] && !IsSpace((t + rest)[0])
  {
    hide WellFormed, TextOf, PartsText, MembersOk;
    var m := MemberText(members.member);
    assert StringText(members.member.key)[0] == QUOTE;
    assert |m| > 0 && m[0] == QUOTE;
    assert |MembersText(members)| > 0 && MembersText(members)[0] == m[0];
  }

  /** Space and a punctuation mark end a value: they bound a number, and the space stops at the mark. */
  lemma AfterValue(after: Text, mark: Unit, rest: Text)
    requires AllSpace(after) && (mark == COMMA || mark == CLOSE_BRACKET || mark == CLOSE_BRACE)
    ensures Boundary(after + ([mark] + rest))
    ensures TakeSpace(after + ([mark] + rest)) == Parsed(after, [mark] + rest)
    ensures ([mark] + rest)[1..] == rest
  {
    TakeSpaceExact(after, [mark] + rest);
    var s := after + ([mark] + rest);
    if after == [] { assert s[0] == mark; } else { assert s[0] == after[0]; }
  }

  lemma {:induction false} ItemsExact(d: Doubles, items: Items, rest: Text)
    requires ItemsOk(d, items)
    ensures ParseItems(d, ItemsText(items) + rest) == Some(Parsed(items, rest))
    decreases items, 1
  {
    hide ParseValue, TakeSpace, AllSpace, TextOf, WellFormed, Boundary;
    var v, after := items.value, items.after;
    if items.LastItem? {
      BracketAssoc(TextOf(v), after, [CLOSE_BRACKET], rest);
      AfterValue(after, CLOSE_BRACKET, rest);
      ValueExact(d, v, after + ([CLOSE_BRACKET] + rest));
    } else {
      var tail := ItemsText(items.rest);
      SeparatedAssoc(TextOf(v), after, [COMMA], items.next, tail, rest);
      AfterValue(after, COMMA, items.next + (tail + rest));
      ValueExact(d, v, after + ([COMMA] + (items.next + (tail + rest))));
      ItemsOpen(d, items.rest, rest);
      TakeSpaceExact(items.next, tail + rest);
      ItemsExact(d, items.rest, rest);
    }
  }

  lemma {:induction false} MembersExact(d: Doubles, members: Members, keys: set<Text>, rest: Text)
    requires MembersOk(d, members, keys)
    ensures ParseMembers(d, MembersText(members) + rest, keys) == Some(Parsed(members, rest))
    decreases members, 1
  {
    hide ParseValue, ParseMember, TakeSpace, AllSpace, TextOf, WellFormed, MemberText, Decoded, MemberOk, Boundary;
    var m, v, after := MemberText(members.member), members.value, members.after;
    if members.LastMember? {
      var t := after + [CLOSE_BRACE];
      BracketAssoc(m, TextOf(v), t, rest);
      Assoc(after, [CLOSE_BRACE], rest);
      AfterValue(after, CLOSE_BRACE, rest);
      MemberThenValue(d, members.member, v, t + rest);
      ValueExact(d, v, t + rest);
    } else {
      var tail := MembersText(members.rest);
      var t := after + ([COMMA] + (members.next + tail));
      BracketAssoc(m, TextOf(v), t, rest);
      SeparatedAssoc([], after, [COMMA], members.next, tail, rest);
      assert [] + t == t;
      assert t + rest == after + ([COMMA] + (members.next + (tail + rest)));
      AfterValue(after, COMMA, members.next + (tail + rest));
      MemberThenValue(d, members.member, v, t + rest);
      ValueExact(d, v, t + rest);
      MembersOpen(d, members.rest, keys + {Decoded(members.member.key)}, rest);
      TakeSpaceExact(members.next, tail + rest);
      MembersExact(d, members.rest, keys + {Decoded(members.member.key)}, rest);
    }
  }

  lemma MemberThenValue(d: Doubles, member: Member, value: Cst, rest: Text)
    requires MemberOk(member) && WellFormed(d, value)
    ensures ParseMember(MemberText(member) + (TextOf(value) + rest)) == Some(Parsed(member, TextOf(value) + rest))
  {
    hide MemberOk, WellFormed, TextOf;
    FirstUnit(d, value, rest);
    MemberExact(member, TextOf(value) + rest);
  }

  // ---------------------------------------------------------------- the language

  /** `t` is the text of the tree `c`, with space around it. */
  ghost predicate IsTextOf(t: Text, c: Cst) {
    exists before, after :: AllSpace(before) && AllSpace(after) && t == before + (TextOf(c) + after)
  }

  /** The parser accepts exactly the grammar, minus lone surrogates, duplicate keys and non-finite numbers. */
  lemma AcceptsExactlyGrammar(d: Doubles, t: Text, c: Cst)
    ensures ParseText(d, t) == Some(c) <==> WellFormed(d, c) && IsTextOf(t, c)
  {
    hide ParseValue, TextOf, WellFormed;
    if ParseText(d, t) == Some(c) {
      var start := TakeSpace(t);
      ValueSound(d, start.rest);
      var value := ParseValue(d, start.rest).value;
      var end := TakeSpace(value.rest);
      assert value.rest == end.node;
      assert t == start.node + (TextOf(c) + end.node);
    }
    if WellFormed(d, c) && IsTextOf(t, c) {
      var before, after :| AllSpace(before) && AllSpace(after) && t == before + (TextOf(c) + after);
      FirstUnit(d, c, after);
      TakeSpaceExact(before, TextOf(c) + after);
      ValueExact(d, c, after);
      assert after + [] == after;
      TakeSpaceExact(after, []);
    }
  }

  /** The grammar is unambiguous, so the value of a text is well defined. */
  lemma GrammarIsUnambiguous(d: Doubles, t: Text, c: Cst, c': Cst)
    requires WellFormed(d, c) && IsTextOf(t, c)
    requires WellFormed(d, c') && IsTextOf(t, c')
    ensures c == c'
  {
    AcceptsExactlyGrammar(d, t, c);
    AcceptsExactlyGrammar(d, t, c');
  }

  ghost function ParseStrict(d: Doubles, t: Text): Option<Value> {
    var c := ParseText(d, t);
    if c.None? then None else (AcceptsExactlyGrammar(d, t, c.value); Some(Meaning(d, c.value)))
  }

  // ---------------------------------------------------------------- finite numbers

  function Pow2(n: nat): real {
    if n == 0 then 1.0 else 2.0 * Pow2(n - 1)
  }

  const MAX_EXPONENT: nat := 1024
  const PRECISION: nat := 53

  /** The least magnitude that rounds to infinity: halfway between the largest binary64 and 2^1024. */
  function Overflow(): real { Pow2(MAX_EXPONENT) - Pow2(MAX_EXPONENT - PRECISION - 1) }

  /** Rounding to IEEE 754 binary64 is finite exactly below that magnitude. */
  ghost predicate Ieee(d: Doubles) {
    forall x: real :: d.round(x).Some? <==> -Overflow() < x < Overflow()
  }

  /** RFC 8259 sets no range for numbers, the parser does: a number text is accepted exactly when its
      magnitude lies below the overflow threshold, so being a text of the grammar is not enough. */
  lemma NonFiniteNumberIsRefused(d: Doubles, l: Lexeme)
    requires Ieee(d) && LexemeOk(l)
    ensures ParseText(d, LexemeText(l)).Some? <==> -Overflow() < Exact(l) < Overflow()
  {
    hide ParseText, LexemeText, LexemeOk, Exact, Overflow;
    NumberTextAccepted(d, l);
    assert d.round(Exact(l)).Some? <==> -Overflow() < Exact(l) < Overflow();
  }

  /** `1e999`: a number of the grammar that no double holds. */
  const ONE_E999 := Lexeme(false, [0x31], None, Some(Exponent(0x65, NoSign, [0x39, 0x39, 0x39])))

  /** The text `1e999` is in the grammar and is refused. */
  lemma OneE999IsRefused(d: Doubles)
    requires Ieee(d)
    ensures LexemeOk(ONE_E999) && LexemeText(ONE_E999) == [0x31, 0x65, 0x39, 0x39, 0x39]
    ensures ParseText(d, LexemeText(ONE_E999)).None?
  {
    hide ParseText, Exact, Pow2, Pow10;
    OneE999Text();
    var n: nat := DigitsValue(ONE_E999.exponent.value.digits);
    NineNineNine();
    PowerOfTen(ONE_E999);
    Pow10Exceeds(n);
    Pow2Grows(MAX_EXPONENT, 3 * n);
    Pow2Positive(MAX_EXPONENT - PRECISION - 1);
    NonFiniteNumberIsRefused(d, ONE_E999);
  }

  lemma NineNineNine()
    ensures AllDigits(ONE_E999.exponent.value.digits) && DigitsValue(ONE_E999.exponent.value.digits) == 999
  {
    var t: Text := [0x39, 0x39, 0x39];
    assert t[..2] == [0x39, 0x39] && t[..2][..1] == [0x39] && t[..1][..0] == [];
    assert DigitsValue(t[..1]) == 9;
    assert DigitsValue(t[..2]) == 99;
  }

  /** One times a power of ten. */
  lemma PowerOfTen(l: Lexeme)
    requires LexemeOk(l) && !l.negative && l.whole == [0x31] && l.fraction.None?
    requires l.exponent.Some? && l.exponent.value.sign == NoSign
    ensures Exact(l) == Pow10(DigitsValue(l.exponent.value.digits))
  {
    hide Pow10;
    assert l.whole + [] == l.whole;
    OneIsOne();
  }

  lemma OneIsOne()
    ensures AllDigits([0x31]) && DigitsValue([0x31]) == 1
  {
    var t: Text := [0x31];
    assert t[..0] == [];
  }

  lemma {:induction false} Pow10Exceeds(n: nat)
    ensures Pow10(n) >= Pow2(3 * n) > 0.0
  {
    if n > 0 {
      Pow10Exceeds(n - 1);
      var k: nat := 3 * (n - 1);
      assert Pow2(k + 3) == 2.0 * Pow2(k + 2) && Pow2(k + 2) == 2.0 * Pow2(k + 1) && Pow2(k + 1) == 2.0 * Pow2(k);
    }
  }

  lemma {:induction false} Pow2Grows(k: nat, n: nat)
    requires k <= n
    ensures 0.0 < Pow2(k) <= Pow2(n)
    decreases n
  {
    if k < n { Pow2Grows(k, n - 1); } else { Pow2Positive(k); }
  }

  lemma {:induction false} Pow2Positive(n: nat)
    ensures Pow2(n) > 0.0
  {
    if n > 0 { Pow2Positive(n - 1); }
  }

  lemma NumberTextAccepted(d: Doubles, l: Lexeme)
    requires LexemeOk(l)
    ensures ParseText(d, LexemeText(l)).Some? <==> d.round(Exact(l)).Some?
  {
    hide ParseValue, Exact, TakeSpace, ParseLexeme;
    var t := LexemeText(l);
    assert t + [] == t;
    LexemeExact(l, []);
    NumberUnit(t[0]);
    var none: Text := [];
    TakeSpaceExact(none, t);
    assert none + t == t;
    if d.round(Exact(l)).Some? {
      assert WellFormed(d, CNum(l));
      assert t == none + (TextOf(CNum(l)) + none) && AllSpace(none);
      AcceptsExactlyGrammar(d, t, CNum(l));
    } else {
      NumberIsNotFinite(d, t);
    }
  }

  lemma OneE999Text()
    ensures LexemeOk(ONE_E999) && LexemeText(ONE_E999) == [0x31, 0x65, 0x39, 0x39, 0x39]
  {}

  lemma NumberIsNotFinite(d: Doubles, t: Text)
    requires t != [] && (t[0] == MINUS || IsDigit(t[0]))
    requires ParseLexeme(t).Some? && LexemeOk(ParseLexeme(t).value.node)
    requires d.round(Exact(ParseLexeme(t).value.node)).None?
    ensures ParseValue(d, t).None?
  {
    hide ParseLexeme, LexemeOk, Exact;
    NumberUnit(t[0]);
  }
}
