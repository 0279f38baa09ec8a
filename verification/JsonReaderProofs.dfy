/** Soundness and completeness of the JSON reading against the grammar. */
module JsonReaderProofs {
  import opened JsonGrammar
  import opened JsonReader

  // Sequence algebra

  lemma TakeDrop(a: Text, b: Text)
    ensures (a + b)[..|a|] == a && (a + b)[|a|..] == b
  {
  }

  lemma Rejoin(t: Text, n: nat)
    requires n <= |t|
    ensures t[..n] + t[n..] == t
  {
  }

  lemma TailOfAppend(a: Text, b: Text)
    requires a != []
    ensures (a + b)[1..] == a[1..] + b && (a + b)[0] == a[0]
  {
  }

  lemma Assoc(a: Text, b: Text, c: Text)
    ensures (a + b) + c == a + (b + c)
  {
  }

  // Lexical facts

  lemma {:induction false} SkippedSpace(t: Text)
    ensures var r := SkipSpace(t);
            && Spaces(t[..|t| - |r|]) && t == t[..|t| - |r|] + r
            && (r == [] || !IsSpace(r[0]))
    decreases |t|
  {
    if t != [] && IsSpace(t[0]) {
      SkippedSpace(t[1..]);
      var r := SkipSpace(t);
      assert t[..|t| - |r|] == [t[0]] + t[1..][..|t[1..]| - |r|];
    }
  }

  lemma {:induction false} SkipsExactly(pre: Text, t: Text)
    requires Spaces(pre) && (t == [] || !IsSpace(t[0]))
    ensures SkipSpace(pre + t) == t && SkipSpace(t) == t
    ensures (pre + t)[..|pre + t| - |t|] == pre
    decreases |pre|
  {
    if pre == [] {
      assert pre + t == t;
    } else {
      SkipsExactly(pre[1..], t);
      TailOfAppend(pre, t);
    }
  }

  lemma {:induction false} RunOfDigits(t: Text)
    ensures Digits(t[..DigitRun(t)])
    ensures DigitRun(t) < |t| ==> !IsDigit(t[DigitRun(t)])
    decreases |t|
  {
    if t != [] && IsDigit(t[0]) {
      RunOfDigits(t[1..]);
      assert t[..DigitRun(t)] == [t[0]] + t[1..][..DigitRun(t[1..])];
    }
  }

  lemma {:induction false} RunsExactly(d: Text, rest: Text)
    requires Digits(d) && (rest == [] || !IsDigit(rest[0]))
    ensures DigitRun(d + rest) == |d|
    decreases |d|
  {
    if d == [] {
      assert d + rest == rest;
    } else {
      RunsExactly(d[1..], rest);
      assert (d + rest)[1..] == d[1..] + rest;
    }
  }

  // Strings

  lemma {:induction false} CharsSound(t: Text)
    requires ReadChars(t).Done?
    ensures var r := ReadChars(t); ValidChars(r.value) && t == SpellChars(r.value) + ([QUOTE] + r.rest)
    decreases |t|
  {
    var r := ReadChars(t);
    OneCharSound(t);
    hide ReadChars, SpellChar, ValidChar;
    if r.value != [] {
      var c, n := r.value[0], |SpellChar(r.value[0])|;
      CharsSound(t[n..]);
      var tail := ReadChars(t[n..]);
      Assoc(SpellChar(c), SpellChars(tail.value), [QUOTE] + tail.rest);
    }
  }

  /** The reader stops at the quote, or takes one character that is spelled there. */
  lemma OneCharSound(t: Text)
    requires ReadChars(t).Done?
    ensures var r := ReadChars(t);
            if r.value == [] then t == [QUOTE] + r.rest
            else
              var c, n := r.value[0], |SpellChar(r.value[0])|;
              && ValidChar(c) && 0 < n <= |t| && t == SpellChar(c) + t[n..]
              && ReadChars(t[n..]).Done? && r == Done([c] + ReadChars(t[n..]).value, ReadChars(t[n..]).rest)
              && r.value[1..] == ReadChars(t[n..]).value
  {
    if t[0] == QUOTE {
      assert t == [QUOTE] + t[1..];
    } else {
      var c, n := ReadChars(t).value[0], |SpellChar(ReadChars(t).value[0])|;
      assert t == SpellChar(c) + t[n..];
    }
  }

  lemma {:induction false} ReadsOneChar(c: Char, t: Text)
    requires ValidChar(c)
    ensures ReadChars(SpellChar(c) + t) == PutChar(c, ReadChars(t))
  {
    var whole := SpellChar(c) + t;
    match c
    case Plain(u) =>
      assert whole[1..] == t;
    case Short(code) =>
      assert whole[2..] == t;
    case Hex(h) =>
      assert whole[2..6] == h && whole[6..] == t;
  }

  lemma {:induction false} CharsComplete(cs: seq<Char>, rest: Text)
    requires ValidChars(cs)
    ensures ReadChars(SpellChars(cs) + ([QUOTE] + rest)) == Done(cs, rest)
    decreases |cs|
  {
    if cs == [] {
      assert [] + ([QUOTE] + rest) == [QUOTE] + rest;
    } else {
      hide ReadChars;
      CharsComplete(cs[1..], rest);
      assert ValidChar(cs[0]);
      ReadsOneChar(cs[0], SpellChars(cs[1..]) + ([QUOTE] + rest));
      Assoc(SpellChar(cs[0]), SpellChars(cs[1..]), [QUOTE] + rest);
      assert cs == [cs[0]] + cs[1..];
    }
  }

  lemma {:induction false} StringSound(t: Text)
    requires ReadString(t).Done?
    ensures var r := ReadString(t); ValidChars(r.value) && t == SpellString(r.value) + r.rest
  {
    CharsSound(t[1..]);
    var r := ReadString(t);
    assert t == [QUOTE] + t[1..];
    assert t == [QUOTE] + SpellChars(r.value) + [QUOTE] + r.rest;
  }

  lemma {:induction false} StringComplete(cs: seq<Char>, rest: Text)
    requires ValidChars(cs)
    ensures ReadString(SpellString(cs) + rest) == Done(cs, rest)
  {
    CharsComplete(cs, rest);
    assert (SpellString(cs) + rest)[1..] == SpellChars(cs) + ([QUOTE] + rest);
  }

  // Numbers: the longest match is always the right one

  /** What may follow a value in a JSON text. */
  predicate Delimits(rest: Text)
  {
    rest == [] || IsSpace(rest[0]) || rest[0] in {COMMA, CLOSE_BRACKET, CLOSE_BRACE}
  }

  lemma {:induction false} FractionSound(t: Text)
    ensures ValidFraction(t[..FractionLength(t)])
  {
    if FractionLength(t) > 0 {
      RunOfDigits(t[1..]);
      assert t[..FractionLength(t)][1..] == t[1..][..DigitRun(t[1..])];
    }
  }

  lemma {:induction false} ExponentSound(t: Text)
    ensures ValidExponent(t[..ExponentLength(t)])
  {
    if |t| >= 2 && t[0] in {0x65, 0x45} && IsDigit(t[1]) {
      RunOfDigits(t[1..]);
      assert t[..ExponentLength(t)][1..] == t[1..][..DigitRun(t[1..])];
    } else if ExponentLength(t) > 0 {
      RunOfDigits(t[2..]);
      assert t[..ExponentLength(t)][2..] == t[2..][..DigitRun(t[2..])];
    }
  }

  /** The unsigned part of a number. */
  lemma {:induction false} UnsignedSound(t1: Text)
    requires WholeLength(t1) > 0
    ensures var w := WholeLength(t1);
            var t2 := t1[w..];
            var f := FractionLength(t2);
            var t3 := t2[f..];
            var e := ExponentLength(t3);
            && ValidWhole(t1[..w]) && ValidFraction(t2[..f]) && ValidExponent(t3[..e])
            && (t1[..w] + (t2[..f] + t3[..e])) + t3[e..] == t1
  {
    hide WholeLength, FractionLength, ExponentLength, ValidFraction, ValidExponent, ValidWhole;
    WholeSound(t1);
    var w := WholeLength(t1);
    var t2 := t1[w..];
    FractionSound(t2);
    var f := FractionLength(t2);
    var t3 := t2[f..];
    ExponentSound(t3);
    var e := ExponentLength(t3);
    calc {
      (t1[..w] + (t2[..f] + t3[..e])) + t3[e..];
      { Assoc(t1[..w], t2[..f] + t3[..e], t3[e..]); Assoc(t2[..f], t3[..e], t3[e..]); }
      t1[..w] + (t2[..f] + (t3[..e] + t3[e..]));
      { Rejoin(t3, e); Rejoin(t2, f); }
      t1[..w] + t2;
      { Rejoin(t1, w); }
      t1;
    }
  }

  lemma {:induction false} NumberSound(t: Text)
    requires ReadNumber(t).Done?
    ensures var r := ReadNumber(t); ValidNumber(r.value) && t == SpellNumber(r.value) + r.rest
  {
    hide WholeLength, FractionLength, ExponentLength, ValidFraction, ValidExponent, ValidWhole;
    var r := ReadNumber(t);
    var minus := t[0] == MINUS;
    var t1 := if minus then t[1..] else t;
    UnsignedSound(t1);
    var sign: Text := if minus then [MINUS] else [];
    var body := r.value.whole + (r.value.fraction + r.value.exponent);
    assert t == sign + t1;
    assert t1 == body + r.rest;
    Assoc(sign, body, r.rest);
  }

  lemma {:induction false} WholeSound(t: Text)
    requires WholeLength(t) > 0
    ensures ValidWhole(t[..WholeLength(t)])
  {
    RunOfDigits(t);
  }

  lemma NumberText(sign: Text, w: Text, f: Text, e: Text, rest: Text)
    ensures (sign + (w + (f + e))) + rest == sign + (w + (f + (e + rest)))
  {
  }

  lemma {:induction false} FractionComplete(f: Text, rest: Text)
    requires ValidFraction(f) && (rest == [] || (!IsDigit(rest[0]) && rest[0] != DOT))
    ensures FractionLength(f + rest) == |f|
  {
    if f == [] {
      assert f + rest == rest;
    } else {
      RunsExactly(f[1..], rest);
      assert (f + rest)[1..] == f[1..] + rest;
    }
  }

  lemma {:induction false} ExponentComplete(e: Text, rest: Text)
    requires ValidExponent(e) && Delimits(rest)
    ensures ExponentLength(e + rest) == |e|
  {
    if e == [] {
      assert e + rest == rest;
    } else if IsDigit(e[1]) {
      RunsExactly(e[1..], rest);
      assert (e + rest)[1..] == e[1..] + rest;
    } else {
      RunsExactly(e[2..], rest);
      assert (e + rest)[2..] == e[2..] + rest;
    }
  }

  lemma {:induction false} WholeComplete(w: Text, rest: Text)
    requires ValidWhole(w) && (rest == [] || !IsDigit(rest[0]))
    ensures WholeLength(w + rest) == |w| > 0
    ensures (w + rest)[0] != MINUS
  {
    RunsExactly(w, rest);
  }

  lemma {:induction false} NumberComplete(n: Number, rest: Text)
    requires ValidNumber(n) && Delimits(rest)
    ensures ReadNumber(SpellNumber(n) + rest) == Done(n, rest)
  {
    hide ReadNumber, WholeLength, FractionLength, ExponentLength, ValidFraction, ValidExponent, ValidWhole;
    var t3 := n.exponent + rest;
    var t2 := n.fraction + t3;
    NumberStops(n, rest);
    WholeComplete(n.whole, t2);
    FractionComplete(n.fraction, t3);
    ExponentComplete(n.exponent, rest);
    NumberText(if n.minus then [MINUS] else [], n.whole, n.fraction, n.exponent, rest);
    NumberReading(n, rest);
  }

  /** A number is read as its sign and its three parts, when each part is as long as the scan finds it. */
  lemma NumberReading(n: Number, rest: Text)
    requires var t3 := n.exponent + rest; var t2 := n.fraction + t3; var t1 := n.whole + t2;
             && WholeLength(t1) == |n.whole| > 0 && t1[0] != MINUS
             && FractionLength(t2) == |n.fraction| && ExponentLength(t3) == |n.exponent|
    ensures var sign: Text := if n.minus then [MINUS] else [];
            ReadNumber(sign + (n.whole + (n.fraction + (n.exponent + rest)))) == Done(n, rest)
  {
    hide WholeLength, FractionLength, ExponentLength;
    var sign: Text := if n.minus then [MINUS] else [];
    var t3 := n.exponent + rest;
    var t2 := n.fraction + t3;
    var t1 := n.whole + t2;
    assert n.minus ==> (sign + t1)[1..] == t1;
    assert !n.minus ==> sign + t1 == t1;
    TakeDrop(n.whole, t2);
    TakeDrop(n.fraction, t3);
    TakeDrop(n.exponent, rest);
  }

  /** Each part of a number ends where the next character cannot extend it. */
  lemma {:induction false} NumberStops(n: Number, rest: Text)
    requires ValidNumber(n) && Delimits(rest)
    ensures var t3 := n.exponent + rest; t3 == [] || (!IsDigit(t3[0]) && t3[0] != DOT)
    ensures var t2 := n.fraction + (n.exponent + rest); t2 == [] || !IsDigit(t2[0])
  {
  }

  // Values

  lemma {:induction false} ValueSound(t: Text)
    requires ReadValue(t).Done?
    ensures var r := ReadValue(t); Valid(r.value) && t == Spell(r.value) + r.rest
    decreases |t|, 0
  {
    if t != [] && t[0] == OPEN_BRACE {
      ObjectSound(t);
    } else if t != [] && t[0] == OPEN_BRACKET {
      ArraySound(t);
    } else {
      ScalarSound(t);
    }
  }

  lemma {:induction false} ScalarSound(t: Text)
    requires ReadValue(t).Done? && (t == [] || t[0] !in {OPEN_BRACE, OPEN_BRACKET})
    ensures var r := ReadValue(t); Valid(r.value) && t == Spell(r.value) + r.rest
  {
    hide ReadString, ReadNumber, SpellString, SpellNumber, ValidNumber, ValidChars;
    if t != [] && t[0] == QUOTE {
      StringSound(t);
    } else if ReadValue(t).value.Num? {
      NumberSound(t);
    }
  }

  lemma ObjectReading(t: Text)
    requires ReadValue(t).Done? && t != [] && t[0] == OPEN_BRACE
    ensures var r, t1 := ReadValue(t), SkipSpace(t[1..]);
            if t1 != [] && t1[0] == CLOSE_BRACE then r == Done(Obj(t[1..|t| - |t1|], NoMembers), t1[1..])
            else ReadMembers(t[1..]).Done? && r == Done(Obj([], ReadMembers(t[1..]).value), ReadMembers(t[1..]).rest)
  {
  }

  lemma ArrayReading(t: Text)
    requires ReadValue(t).Done? && t != [] && t[0] == OPEN_BRACKET
    ensures var r, t1 := ReadValue(t), SkipSpace(t[1..]);
            if t1 != [] && t1[0] == CLOSE_BRACKET then r == Done(Arr(t[1..|t| - |t1|], NoItems), t1[1..])
            else ReadItems(t[1..]).Done? && r == Done(Arr([], ReadItems(t[1..]).value), ReadItems(t[1..]).rest)
  {
  }

  lemma {:induction false} ObjectSound(t: Text)
    requires ReadValue(t).Done? && t != [] && t[0] == OPEN_BRACE
    ensures var r := ReadValue(t); Valid(r.value) && t == Spell(r.value) + r.rest
    decreases |t| - 1, 3
  {
    ObjectReading(t);
    hide ReadValue, ReadMembers, SkipSpace, SpellMembers, Spell, Valid, ValidMembers, Spaces;
    var r := ReadValue(t);
    EmptyText();
    if SkipSpace(t[1..]) != [] && SkipSpace(t[1..])[0] == CLOSE_BRACE {
      EmptySound(t, CLOSE_BRACE);
    } else {
      MembersSound(t[1..]);
      NoSpaces(t[1..]);
    }
    ObjectSpelled(t, r.value.gap, r.value.members, r.rest);
  }

  lemma {:induction false} ArraySound(t: Text)
    requires ReadValue(t).Done? && t != [] && t[0] == OPEN_BRACKET
    ensures var r := ReadValue(t); Valid(r.value) && t == Spell(r.value) + r.rest
    decreases |t| - 1, 3
  {
    ArrayReading(t);
    hide ReadValue, ReadItems, SkipSpace, SpellItems, Spell, Valid, ValidItems, Spaces;
    var r := ReadValue(t);
    EmptyText();
    if SkipSpace(t[1..]) != [] && SkipSpace(t[1..])[0] == CLOSE_BRACKET {
      EmptySound(t, CLOSE_BRACKET);
    } else {
      ItemsSound(t[1..]);
      NoSpaces(t[1..]);
    }
    ArraySpelled(t, r.value.gap, r.value.items, r.rest);
  }

  lemma NoSpaces(t: Text)
    ensures Spaces([]) && [] + t == t
  {
  }

  lemma ObjectSpelled(t: Text, gap: Text, members: Members, rest: Text)
    requires t != [] && t[0] == OPEN_BRACE && t[1..] == gap + (SpellMembers(members) + rest)
    requires Spaces(gap) && ValidMembers(members) && (members.Member? ==> gap == [])
    ensures Valid(Obj(gap, members)) && t == Spell(Obj(gap, members)) + rest
  {
    hide SpellMembers, ValidMembers, Spaces;
    Enclosed(t, gap, SpellMembers(members), rest);
  }

  lemma ArraySpelled(t: Text, gap: Text, items: Items, rest: Text)
    requires t != [] && t[0] == OPEN_BRACKET && t[1..] == gap + (SpellItems(items) + rest)
    requires Spaces(gap) && ValidItems(items) && (items.Item? ==> gap == [])
    ensures Valid(Arr(gap, items)) && t == Spell(Arr(gap, items)) + rest
  {
    hide SpellItems, ValidItems, Spaces;
    Enclosed(t, gap, SpellItems(items), rest);
  }

  lemma {:induction false} EmptySound(t: Text, close: Unit)
    requires t != [] && SkipSpace(t[1..]) != [] && SkipSpace(t[1..])[0] == close
    ensures var t1 := SkipSpace(t[1..]); var gap := t[1..|t| - |t1|];
            Spaces(gap) && t[1..] == gap + ([close] + t1[1..])
  {
    SkippedSpace(t[1..]);
    var t1 := SkipSpace(t[1..]);
    assert t[1..|t| - |t1|] == t[1..][..|t[1..]| - |t1|];
    assert t1 == [close] + t1[1..];
  }

  lemma EmptyText()
    ensures SpellItems(NoItems) == [CLOSE_BRACKET] && SpellMembers(NoMembers) == [CLOSE_BRACE]
    ensures ValidItems(NoItems) && ValidMembers(NoMembers)
  {
  }

  lemma Enclosed(t: Text, gap: Text, body: Text, rest: Text)
    requires t != [] && t[1..] == gap + (body + rest)
    ensures t == ([t[0]] + (gap + body)) + rest
  {
    assert t == [t[0]] + t[1..];
  }

  lemma {:induction false} ItemsSound(t: Text)
    requires ReadItems(t).Done?
    ensures var r := ReadItems(t); ValidItems(r.value) && t == SpellItems(r.value) + r.rest
    decreases |t|, 1
  {
    hide ReadValue, SkipSpace, Spell, Valid;
    SkippedSpace(t);
    var t1 := SkipSpace(t);
    ValueSound(t1);
    var v := ReadValue(t1);
    SkippedSpace(v.rest);
    var t2 := SkipSpace(v.rest);
    if t2[0] == COMMA {
      ItemsSound(t2[1..]);
    }
    Rejoin(t2, 1);
    var r := ReadItems(t);
    var tail := if t2[0] == COMMA then [COMMA] + SpellItems(r.value.rest) else [CLOSE_BRACKET];
    assert t2 == tail + r.rest;
    ItemText(r.value.pre, Spell(v.value), r.value.post, tail, r.rest);
  }

  lemma ItemText(a: Text, b: Text, c: Text, d: Text, rest: Text)
    ensures (a + (b + (c + d))) + rest == a + (b + (c + (d + rest)))
  {
  }

  /** What `SkipSpace` leaves out. */
  function Skipped(t: Text): Text
  {
    t[..|t| - |SkipSpace(t)|]
  }

  /** The key of a member, up to its colon. */
  lemma {:induction false} KeySound(t: Text)
    requires ReadString(SkipSpace(t)).Done?
    requires SkipSpace(ReadString(SkipSpace(t)).rest) != [] && SkipSpace(ReadString(SkipSpace(t)).rest)[0] == COLON
    ensures var k := ReadString(SkipSpace(t));
            && Spaces(Skipped(t)) && ValidChars(k.value) && Spaces(Skipped(k.rest))
            && t == Skipped(t) + (SpellString(k.value) + (Skipped(k.rest) + ([COLON] + SkipSpace(k.rest)[1..])))
  {
    hide ReadString, SkipSpace, SpellString, ValidChars;
    SkippedSpace(t);
    StringSound(SkipSpace(t));
    var k := ReadString(SkipSpace(t));
    SkippedSpace(k.rest);
    assert SkipSpace(k.rest) == [COLON] + SkipSpace(k.rest)[1..];
  }

  /** The value of a member, with the white space around it. */
  lemma {:induction false} PaddedValueSound(t: Text)
    requires ReadValue(SkipSpace(t)).Done?
    ensures var v := ReadValue(SkipSpace(t));
            && Spaces(Skipped(t)) && Valid(v.value) && Spaces(Skipped(v.rest))
            && t == Skipped(t) + (Spell(v.value) + (Skipped(v.rest) + SkipSpace(v.rest)))
    decreases |t|, 1
  {
    hide ReadValue, SkipSpace, Spell, Valid;
    SkippedSpace(t);
    ValueSound(SkipSpace(t));
    SkippedSpace(ReadValue(SkipSpace(t)).rest);
  }

  lemma {:induction false} MemberSound(t: Text)
    requires ReadMember(t).Done?
    ensures var r := ReadMember(t); var m := r.value;
            && ValidMembers(m)
            && t == m.pre + (SpellString(m.key) + (m.mid
                                                   + ([COLON] + (m.before + (Spell(m.value) + (m.post + r.rest))))))
    decreases |t|, 1
  {
    hide ReadValue, ReadString, SkipSpace, Spell, SpellString, Valid, ValidChars, Spaces;
    KeySound(t);
    var t2 := SkipSpace(ReadString(SkipSpace(t)).rest);
    PaddedValueSound(t2[1..]);
    assert t2[1..|t2| - |SkipSpace(t2[1..])|] == Skipped(t2[1..]);
  }

  lemma {:induction false} MembersSound(t: Text)
    requires ReadMembers(t).Done?
    ensures var r := ReadMembers(t); ValidMembers(r.value) && t == SpellMembers(r.value) + r.rest
    decreases |t|, 2
  {
    hide ReadMember, Spell, SpellString, Valid, ValidChars;
    MemberSound(t);
    var one := ReadMember(t);
    if one.rest[0] == COMMA {
      MembersSound(one.rest[1..]);
    }
    var r := ReadMembers(t);
    var m := r.value;
    var tail := if one.rest[0] == COMMA then [COMMA] + SpellMembers(m.rest) else [CLOSE_BRACE];
    assert one.rest == [one.rest[0]] + one.rest[1..];
    assert one.rest == tail + r.rest;
    MemberText(m, tail, r.rest);
  }

  /** Re-association of the text of one member. */
  lemma {:induction false} MemberText(m: Members, tail: Text, rest: Text)
    requires m.Member?
    ensures m.pre + (SpellString(m.key) + (m.mid + ([COLON] + (m.before + (Spell(m.value) + (m.post + tail)))))) + rest
         == m.pre + (SpellString(m.key) + (m.mid + ([COLON]
                                                    + (m.before + (Spell(m.value) + (m.post + (tail + rest)))))))
  {
  }

  // Completeness

  /** The first unit of a value is neither white space nor a delimiter. */
  lemma {:induction false} ValueStarts(v: Value)
    requires Valid(v)
    ensures Spell(v) != [] && !IsSpace(Spell(v)[0]) && Spell(v)[0] !in {COMMA, COLON, CLOSE_BRACKET, CLOSE_BRACE}
  {
  }

  lemma {:induction false} ValueComplete(v: Value, rest: Text)
    requires Valid(v) && Delimits(rest)
    ensures ReadValue(Spell(v) + rest) == Done(v, rest)
    decreases v, 1
  {
    hide ReadString, SpellString, ReadNumber, SpellNumber, SkipSpace, ReadItems, ReadMembers, SpellItems, SpellMembers,
         ValidNumber, ValidItems, ValidMembers;
    var t := Spell(v) + rest;
    match v
    case True => TakeDrop(TRUE_WORD, rest);
    case False => TakeDrop(FALSE_WORD, rest);
    case Null => TakeDrop(NULL_WORD, rest);
    case Num(n) =>
      NumberComplete(n, rest);
      NumberStarts(n);
    case Str(cs) =>
      StringComplete(cs, rest);
      StringStarts(cs);
    case Arr(gap, items) => ArrayComplete(gap, items, rest);
    case Obj(gap, members) => ObjectComplete(gap, members, rest);
  }

  lemma {:induction false} NumberStarts(n: Number)
    requires ValidNumber(n)
    ensures SpellNumber(n) != [] && (SpellNumber(n)[0] == MINUS || IsDigit(SpellNumber(n)[0]))
  {
  }

  lemma {:induction false} StringStarts(cs: seq<Char>)
    ensures SpellString(cs) != [] && SpellString(cs)[0] == QUOTE
  {
  }

  lemma {:induction false} ArrayComplete(gap: Text, items: Items, rest: Text)
    requires Valid(Arr(gap, items)) && Delimits(rest)
    ensures ReadValue(Spell(Arr(gap, items)) + rest) == Done(Arr(gap, items), rest)
    decreases items, 1
  {
    hide SpellItems, ReadItems, ValidItems, SkipSpace;
    var t := Spell(Arr(gap, items)) + rest;
    if items.NoItems? {
      EmptyText();
      SkipsExactly(gap, [CLOSE_BRACKET] + rest);
      assert t[1..] == gap + ([CLOSE_BRACKET] + rest);
      assert t[1..|t| - |[CLOSE_BRACKET] + rest|] == gap;
    } else {
      ItemsComplete(items, rest);
      ItemsStart(items, rest);
      assert t[1..] == SpellItems(items) + rest;
    }
  }

  lemma {:induction false} ObjectComplete(gap: Text, ms: Members, rest: Text)
    requires Valid(Obj(gap, ms)) && Delimits(rest)
    ensures ReadValue(Spell(Obj(gap, ms)) + rest) == Done(Obj(gap, ms), rest)
    decreases ms, 2
  {
    hide SpellMembers, ReadMembers, ValidMembers, SkipSpace;
    var t := Spell(Obj(gap, ms)) + rest;
    if ms.NoMembers? {
      EmptyText();
      SkipsExactly(gap, [CLOSE_BRACE] + rest);
      assert t[1..] == gap + ([CLOSE_BRACE] + rest);
      assert t[1..|t| - |[CLOSE_BRACE] + rest|] == gap;
    } else {
      MembersComplete(ms, rest);
      MembersStart(ms, rest);
      assert t[1..] == SpellMembers(ms) + rest;
    }
  }

  lemma {:induction false} ItemsStart(items: Items, rest: Text)
    requires ValidItems(items) && items.Item?
    ensures var t1 := SkipSpace(SpellItems(items) + rest); t1 != [] && t1[0] != CLOSE_BRACKET
  {
    ValueStarts(items.value);
    var tail := if items.rest.NoItems? then [CLOSE_BRACKET] else [COMMA] + SpellItems(items.rest);
    ItemText(items.pre, Spell(items.value), items.post, tail, rest);
    SkipsExactly(items.pre, Spell(items.value) + (items.post + (tail + rest)));
  }

  lemma {:induction false} ItemsComplete(items: Items, rest: Text)
    requires ValidItems(items) && items.Item?
    ensures ReadItems(SpellItems(items) + rest) == Done(items, rest)
    decreases items, 0
  {
    hide ReadValue, SkipSpace, Spell, Valid;
    var tail: Text := if items.rest.NoItems? then [CLOSE_BRACKET] else [COMMA] + SpellItems(items.rest);
    var t2 := tail + rest;
    var after := items.post + t2;
    var t1 := Spell(items.value) + after;
    ItemText(items.pre, Spell(items.value), items.post, tail, rest);
    ValueStarts(items.value);
    SkipsExactly(items.pre, t1);
    SkipsExactly(items.post, t2);
    assert Delimits(after);
    ValueComplete(items.value, after);
    if items.rest.Item? {
      ItemsComplete(items.rest, rest);
      assert t2[1..] == SpellItems(items.rest) + rest;
    } else {
      assert t2[1..] == rest;
    }
  }

  lemma {:induction false} MembersStart(ms: Members, rest: Text)
    requires ValidMembers(ms) && ms.Member?
    ensures var t1 := SkipSpace(SpellMembers(ms) + rest); t1 != [] && t1[0] == QUOTE
  {
    hide Spell, Valid, SpellString;
    StringStarts(ms.key);
    var tail := if ms.rest.NoMembers? then [CLOSE_BRACE] else [COMMA] + SpellMembers(ms.rest);
    MemberText(ms, tail, rest);
    SkipsExactly(ms.pre, SpellString(ms.key) + (ms.mid
                                                + ([COLON]
                                                   + (ms.before + (Spell(ms.value) + (ms.post + (tail + rest)))))));
  }

  lemma {:induction false} MemberComplete(m: Members, t4: Text)
    requires ValidMembers(m) && m.Member? && t4 != [] && t4[0] in {COMMA, CLOSE_BRACE}
    ensures ReadMember(m.pre + (SpellString(m.key)
                                + (m.mid + ([COLON] + (m.before + (Spell(m.value) + (m.post + t4)))))))
         == Done(m.(rest := NoMembers), t4)
    decreases m, 0
  {
    hide ReadValue, ReadString, SkipSpace, Spell, SpellString, Valid, ValidChars;
    var afterValue := m.post + t4;
    var t3 := Spell(m.value) + afterValue;
    var afterColon := m.before + t3;
    var t2 := [COLON] + afterColon;
    var afterKey := m.mid + t2;
    var t1 := SpellString(m.key) + afterKey;
    StringStarts(m.key);
    ValueStarts(m.value);
    SkipsExactly(m.pre, t1);
    StringComplete(m.key, afterKey);
    SkipsExactly(m.mid, t2);
    TakeDrop([COLON], afterColon);
    SkipsExactly(m.before, t3);
    SkipsExactly(m.post, t4);
    assert Delimits(afterValue);
    ValueComplete(m.value, afterValue);
    assert t2[1..|t2| - |t3|] == m.before;
  }

  lemma {:induction false} MembersComplete(ms: Members, rest: Text)
    requires ValidMembers(ms) && ms.Member?
    ensures ReadMembers(SpellMembers(ms) + rest) == Done(ms, rest)
    decreases ms, 1
  {
    hide ReadMember, Spell, SpellString, Valid, ValidChars;
    var tail: Text := if ms.rest.NoMembers? then [CLOSE_BRACE] else [COMMA] + SpellMembers(ms.rest);
    MemberText(ms, tail, rest);
    MemberComplete(ms, tail + rest);
    if ms.rest.Member? {
      MembersComplete(ms.rest, rest);
      assert (tail + rest)[1..] == SpellMembers(ms.rest) + rest;
    } else {
      assert (tail + rest)[1..] == rest;
    }
  }

  // Documents

  lemma {:induction false} DocumentSound(t: Text) returns (d: Document)
    requires ReadDocument(t).Done?
    ensures ValidDocument(d) && SpellDocument(d) == t && d.value == ReadDocument(t).value
  {
    hide ReadValue, Spell, Valid;
    SkippedSpace(t);
    var t1 := SkipSpace(t);
    ValueSound(t1);
    var v := ReadValue(t1);
    SkippedSpace(v.rest);
    d := Document(t[..|t| - |t1|], v.value, v.rest);
    assert v.rest[..|v.rest|] == v.rest;
  }

  lemma {:induction false} DocumentComplete(d: Document)
    requires ValidDocument(d)
    ensures ReadDocument(SpellDocument(d)).Done? && ReadDocument(SpellDocument(d)).value == d.value
  {
    hide ReadValue, Spell, Valid;
    ValueStarts(d.value);
    SkipsExactly(d.pre, Spell(d.value) + d.post);
    ValueComplete(d.value, d.post);
    SkipsExactly(d.post, []);
    assert d.post + [] == d.post;
  }

  /** A JSON text has exactly one syntax tree. */
  lemma {:induction false} GrammarIsUnambiguous(d1: Document, d2: Document)
    requires ValidDocument(d1) && ValidDocument(d2) && SpellDocument(d1) == SpellDocument(d2)
    ensures d1 == d2
  {
    hide ReadValue, Spell, Valid;
    DocumentComplete(d1);
    DocumentComplete(d2);
    ValueStarts(d1.value);
    SkipsExactly(d1.pre, Spell(d1.value) + d1.post);
    SkipsExactly(d2.pre, Spell(d2.value) + d2.post);
    var t := SpellDocument(d1);
    assert d1.pre == t[..|t| - |SkipSpace(t)|] == d2.pre;
    TakeDrop(Spell(d1.value), d1.post);
    TakeDrop(Spell(d2.value), d2.post);
  }
}
