/**
 * The hand-written recogniser that guards pinned JSON artifacts
 * (packages/core/src/observed-target-contract.ts, assertJsonHasNoDuplicateKeys).
 * A thrown error is a false or `None` result; JSON.parse of one string literal and the number
 * pattern are the library calls of the original.
 */
module JsonRecogniser {
  import opened Wrappers
  import opened Sequences
  import opened JsonGrammar
  import opened JsonReader
  import opened JsonReaderProofs

  ghost predicate IsJsonText(t: Text)
  {
    exists d :: ValidDocument(d) && SpellDocument(d) == t
  }

  /** JSON.parse of a string literal. */
  function ParseLiteral(t: Text): Option<Text>
  {
    var r := ReadString(t);
    if r.Done? && r.rest == [] then Some(Meaning(r.value)) else None
  }

  ghost predicate Clean(r: Read<Value>)
  {
    r.Done? && UniqueKeys(r.value)
  }

  class Recogniser {
    const text: Text
    var offset: nat

    ghost predicate Valid()
      reads this
    {
      offset <= |text|
    }

    ghost function Rest(): Text
      reads this
      requires Valid()
    {
      text[offset..]
    }

    constructor (text: Text)
      ensures Valid() && this.text == text && Rest() == text
    {
      this.text := text;
      offset := 0;
    }

    method Whitespace()
      requires Valid()
      modifies this
      ensures Valid() && Rest() == SkipSpace(old(Rest()))
    {
      while offset < |text| && IsSpace(text[offset])
        invariant Valid() && SkipSpace(Rest()) == SkipSpace(old(Rest()))
      {
        assert Rest()[1..] == text[offset + 1..];
        offset := offset + 1;
      }
    }

    method Consume(token: Text) returns (ok: bool)
      requires Valid()
      modifies this
      ensures Valid() && ok == (token <= old(Rest()))
      ensures ok ==> Rest() == old(Rest())[|token|..]
      ensures !ok ==> Rest() == old(Rest())
    {
      if |text| - offset < |token| || text[offset..offset + |token|] != token {
        assert |text| - offset >= |token| ==> Rest()[..|token|] == text[offset..offset + |token|];
        return false;
      }
      offset := offset + |token|;
      return true;
    }

    /** The unescaped string, or `None` for a malformed literal. */
    method ParseString() returns (key: Option<Text>)
      requires Valid()
      modifies this
      ensures Valid()
      ensures var r := ReadString(old(Rest()));
              if r.Fail? then key.None? else key == Some(Meaning(r.value)) && Rest() == r.rest
    {
      hide ReadChars, Scanned;
      var start := offset;
      var ok := Consume([QUOTE]);
      if !ok {
        NoString(text[start..]);
        return None;
      }
      ghost var seen: seq<Char> := [];
      ScanStarts(text, start);
      while offset < |text|
        invariant start < offset <= |text| && Scanned(text, start, offset, seen)
      {
        var character := text[offset];
        if character == QUOTE {
          ScanCloses(text, start, offset, seen);
          ScannedFacts(text, start, offset, seen);
          offset := offset + 1;
          LiteralParses(seen);
          return ParseLiteral(text[start..offset]);
        }
        if character == BACKSLASH {
          ScanEscapes(text, start, offset, seen);
          offset := offset + 1;
          if offset == |text| {
            return None;
          }
          var escape := text[offset];
          if escape == LETTER_U {
            if |text| - offset < 5 || !ValidHex(text[offset + 1..offset + 5]) {
              return None;
            }
            seen := seen + [Hex(text[offset + 1..offset + 5])];
            offset := offset + 5;
          } else {
            if !IsShort(escape) {
              return None;
            }
            seen := seen + [Short(escape)];
            offset := offset + 1;
          }
        } else {
          ScanPlain(text, start, offset, seen);
          if character < 0x20 {
            return None;
          }
          seen := seen + [Plain(character)];
          offset := offset + 1;
        }
      }
      ScanEnds(text, start, offset, seen);
      return None;
    }

    /** One value with the white space before it. */
    method ParseValue() returns (ok: bool)
      requires Valid()
      modifies this
      ensures Valid() && (ok ==> offset > old(offset))
      ensures ok == Clean(ReadValue(SkipSpace(old(Rest()))))
      ensures ok ==> Rest() == ReadValue(SkipSpace(old(Rest()))).rest
      decreases |text| - offset, 0
    {
      hide ReadValue, ReadString, ReadObjectBody, ReadArrayBody, ReadNumber, SkipSpace, Clean;
      Whitespace();
      ghost var t := Rest();
      if offset < |text| {
        TailOf(text, offset);
        if text[offset] == OPEN_BRACE {
          BodyDecides(t);
          offset := offset + 1;
          ok := ParseObject();
          return;
        }
        if text[offset] == OPEN_BRACKET {
          BodyDecides(t);
          offset := offset + 1;
          ok := ParseArray();
          return;
        }
        if text[offset] == QUOTE {
          StringDecides(t);
          var key := ParseString();
          return key.Some?;
        }
      }
      var words := WORDS;
      for i := 0 to 3
        invariant Valid() && Rest() == t && forall j | 0 <= j < i :: !StartsWith(t, words[j])
      {
        ok := Consume(words[i]);
        if ok {
          WordDecides(t, i);
          return;
        }
      }
      NumberDecides(t);
      var number := ReadNumber(text[offset..]);
      if number.Fail? {
        return false;
      }
      NumberLeaves(t);
      assert text[offset..][|t| - |number.rest|..] == text[|text| - |number.rest|..];
      offset := |text| - |number.rest|;
      return true;
    }

    /** What follows an opening brace. */
    method ParseObject() returns (ok: bool)
      requires Valid()
      modifies this
      ensures Valid() && (ok ==> offset > old(offset))
      ensures ok == Clean(ReadObjectBody(old(Rest())))
      ensures ok ==> Rest() == ReadObjectBody(old(Rest())).rest
      decreases |text| - offset, 2
    {
      hide ReadMembers, ReadMember, SkipSpace, MembersView, MemberView;
      ghost var t := Rest();
      ObjectCases(t);
      Whitespace();
      var keys: set<Text> := {};
      if offset < |text| && text[offset] == CLOSE_BRACE {
        TailOf(text, offset);
        offset := offset + 1;
        return true;
      }
      ghost var seen, whole := [], MembersView(t);
      assert whole.Some? ==> [] + whole.value.keys == whole.value.keys;
      while true
        invariant Valid() && offset >= old(offset)
        invariant keys == (set k | k in seen) && Distinct(seen)
        invariant whole == PutKeys(seen, MembersView(Rest()))
        decreases |text| - offset
      {
        MemberDecides(whole, seen, Rest());
        var key := ParseMember(keys);
        if key.None? {
          return false;
        }
        keys := keys + {key.value};
        seen := seen + [key.value];
        if offset < |text| && text[offset] == CLOSE_BRACE {
          TailOf(text, offset);
          offset := offset + 1;
          return true;
        }
        ok := Consume([COMMA]);
        if !ok {
          return false;
        }
      }
    }

    /** One member, its key not among `keys`, with all white space around it. */
    method ParseMember(keys: set<Text>) returns (key: Option<Text>)
      requires Valid()
      modifies this
      ensures Valid()
      ensures var m := MemberView(old(Rest()));
              && key.Some? == (m.Some? && m.value.unique && m.value.key !in keys)
              && (key.Some? ==> offset > old(offset) && key.value == m.value.key && Rest() == m.value.rest)
      decreases |text| - offset, 1
    {
      hide ReadValue, ReadString, SkipSpace;
      Whitespace();
      if offset == |text| || text[offset] != QUOTE {
        NotAString(Rest());
        return None;
      }
      key := ParseString();
      if key.None? || key.value in keys {
        return None;
      }
      Whitespace();
      var ok := Consume([COLON]);
      if !ok {
        return None;
      }
      ok := ParseValue();
      if !ok {
        return None;
      }
      Whitespace();
    }

    /** What follows an opening bracket. */
    method ParseArray() returns (ok: bool)
      requires Valid()
      modifies this
      ensures Valid() && (ok ==> offset > old(offset))
      ensures ok == Clean(ReadArrayBody(old(Rest())))
      ensures ok ==> Rest() == ReadArrayBody(old(Rest())).rest
      decreases |text| - offset, 1
    {
      hide ReadArrayBody, ReadItems, ReadValue, SkipSpace, ItemsView, UniqueKeys;
      ghost var t := Rest();
      ArrayCases(t);
      Whitespace();
      if offset < |text| && text[offset] == CLOSE_BRACKET {
        TailOf(text, offset);
        offset := offset + 1;
        return true;
      }
      while true
        invariant Valid() && offset >= old(offset)
        invariant ItemsView(t) == ItemsView(Rest())
        decreases |text| - offset
      {
        ItemsDecide(Rest());
        ok := ParseValue();
        if !ok {
          return false;
        }
        Whitespace();
        if offset < |text| && text[offset] == CLOSE_BRACKET {
          TailOf(text, offset);
          offset := offset + 1;
          return true;
        }
        ok := Consume([COMMA]);
        if !ok {
          return false;
        }
      }
    }
  }

  // What the object and array loops observe of the reading

  datatype Observed = Observed(keys: seq<Text>, unique: bool, rest: Text)
  datatype OneMember = OneMember(key: Text, unique: bool, rest: Text)

  ghost function ReadObjectBody(t: Text): Read<Value>
  {
    var t1 := SkipSpace(t);
    if t1 != [] && t1[0] == CLOSE_BRACE then Done(Obj(t[..|t| - |t1|], NoMembers), t1[1..])
    else
      var ms := ReadMembers(t);
      if ms.Fail? then Fail else Done(Obj([], ms.value), ms.rest)
  }

  ghost function ReadArrayBody(t: Text): Read<Value>
  {
    var t1 := SkipSpace(t);
    if t1 != [] && t1[0] == CLOSE_BRACKET then Done(Arr(t[..|t| - |t1|], NoItems), t1[1..])
    else
      var items := ReadItems(t);
      if items.Fail? then Fail else Done(Arr([], items.value), items.rest)
  }

  ghost function MembersView(t: Text): Option<Observed>
  {
    var r := ReadMembers(t);
    if r.Fail? then None else Some(Observed(Keys(r.value), UniqueInMembers(r.value), r.rest))
  }

  ghost function MemberView(t: Text): Option<OneMember>
  {
    var r := ReadMember(t);
    if r.Fail? then None else Some(OneMember(Meaning(r.value.key), UniqueKeys(r.value.value), r.rest))
  }

  ghost function ItemsView(t: Text): (o: Option<Observed>)
    ensures o.Some? ==> o.value.keys == []
  {
    var r := ReadItems(t);
    if r.Fail? then None else Some(Observed([], UniqueInItems(r.value), r.rest))
  }

  ghost function PutKeys(seen: seq<Text>, o: Option<Observed>): Option<Observed>
  {
    if o.None? then None else Some(o.value.(keys := seen + o.value.keys))
  }

  /** `seen` has been read after the opening quote at `start`, and reading goes on at `offset`. */
  ghost predicate Scanned(text: Text, start: nat, offset: nat, seen: seq<Char>)
  {
    && start < offset <= |text| && ValidChars(seen)
    && text[start..offset] == [QUOTE] + SpellChars(seen)
    && ReadString(text[start..]) == PutChars(seen, ReadChars(text[offset..]))
  }

  lemma NoString(t: Text)
    requires !([QUOTE] <= t)
    ensures ReadString(t).Fail?
  {
    assert t != [] ==> t[..1] == [t[0]];
  }

  lemma {:induction false} ScanStarts(text: Text, start: nat)
    requires start < |text| && [QUOTE] <= text[start..]
    ensures Scanned(text, start, start + 1, [])
  {
    var t := text[start..];
    assert t[0] == QUOTE && t[1..] == text[start + 1..];
    var r := ReadChars(t[1..]);
    assert r.Done? ==> [] + r.value == r.value;
  }

  lemma {:induction false} SpellOneMore(cs: seq<Char>, c: Char)
    ensures SpellChars(cs + [c]) == SpellChars(cs) + SpellChar(c)
  {
    if cs == [] {
      assert cs + [c] == [c] && SpellChars([c]) == SpellChar(c) + [];
    } else {
      hide SpellChar;
      SpellOneMore(cs[1..], c);
      assert (cs + [c])[0] == cs[0] && (cs + [c])[1..] == cs[1..] + [c];
      Assoc(SpellChar(cs[0]), SpellChars(cs[1..]), SpellChar(c));
    }
  }

  lemma {:induction false} ScanGoesOn(text: Text, start: nat, offset: nat, seen: seq<Char>, c: Char)
    requires Scanned(text, start, offset, seen) && ValidChar(c) && SpellChar(c) <= text[offset..]
    ensures Scanned(text, start, offset + |SpellChar(c)|, seen + [c])
  {
    hide Scanned, ReadChars, ReadString, SpellChars, SpellChar, ValidChars, ValidChar, PutChars, PutChar;
    ScannedFacts(text, start, offset, seen);
    var t, n := text[offset..], |SpellChar(c)|;
    SpellOneMore(seen, c);
    Advanced(text, start, offset, SpellChar(c));
    Assoc([QUOTE], SpellChars(seen), SpellChar(c));
    ReadsOneChar(c, t[n..]);
    PutOneMore(seen, c, ReadChars(t[n..]));
    ValidOneMore(seen, c);
    ScannedHolds(text, start, offset + n, seen + [c]);
  }

  lemma {:induction false} ValidOneMore(cs: seq<Char>, c: Char)
    requires ValidChars(cs) && ValidChar(c)
    ensures ValidChars(cs + [c])
  {
  }

  lemma ScannedHolds(text: Text, start: nat, offset: nat, seen: seq<Char>)
    requires start < offset <= |text| && ValidChars(seen) && text[start..offset] == [QUOTE] + SpellChars(seen)
    requires ReadString(text[start..]) == PutChars(seen, ReadChars(text[offset..]))
    ensures Scanned(text, start, offset, seen)
  {
  }

  /** Moving past a word that comes next. */
  lemma Advanced(text: Text, start: nat, offset: nat, word: Text)
    requires start <= offset <= |text| && word <= text[offset..]
    ensures var n := |word|;
            && offset + n <= |text| && text[start..offset + n] == text[start..offset] + word
            && text[offset..] == word + text[offset..][n..] && text[offset..][n..] == text[offset + n..]
  {
  }

  lemma PutOneMore(seen: seq<Char>, c: Char, r: Read<seq<Char>>)
    ensures PutChars(seen, PutChar(c, r)) == PutChars(seen + [c], r)
  {
    assert r.Done? ==> seen + ([c] + r.value) == (seen + [c]) + r.value;
  }

  // What the next unit means for the literal as a whole

  lemma ScannedFacts(text: Text, start: nat, offset: nat, seen: seq<Char>)
    requires Scanned(text, start, offset, seen)
    ensures start < offset <= |text| && ValidChars(seen)
    ensures ReadString(text[start..]) == PutChars(seen, ReadChars(text[offset..]))
    ensures text[start..offset] == [QUOTE] + SpellChars(seen)
  {
  }

  lemma {:induction false} ScanEnds(text: Text, start: nat, offset: nat, seen: seq<Char>)
    requires Scanned(text, start, offset, seen) && offset == |text|
    ensures ReadString(text[start..]).Fail?
  {
    ScannedFacts(text, start, offset, seen);
    hide Scanned, ReadString;
  }

  lemma {:induction false} ScanCloses(text: Text, start: nat, offset: nat, seen: seq<Char>)
    requires Scanned(text, start, offset, seen) && offset < |text| && text[offset] == QUOTE
    ensures ReadString(text[start..]) == Done(seen, text[offset + 1..])
    ensures text[start..offset + 1] == SpellString(seen)
  {
    ScannedFacts(text, start, offset, seen);
    hide Scanned, ReadString, SpellChars;
    TailOf(text, offset);
    assert seen + [] == seen;
    assert text[start..offset + 1] == text[start..offset] + [QUOTE];
  }

  lemma {:induction false} ScanPlain(text: Text, start: nat, offset: nat, seen: seq<Char>)
    requires Scanned(text, start, offset, seen)
    requires offset < |text| && text[offset] != QUOTE && text[offset] != BACKSLASH
    ensures if text[offset] < 0x20 then ReadString(text[start..]).Fail?
            else Scanned(text, start, offset + 1, seen + [Plain(text[offset])])
  {
    hide Scanned, ReadString, SpellChars, ReadChars;
    if text[offset] < 0x20 {
      ScannedFacts(text, start, offset, seen);
      BadCharFails(text[offset..]);
    } else {
      assert SpellChar(Plain(text[offset])) <= text[offset..];
      ScanGoesOn(text, start, offset, seen, Plain(text[offset]));
    }
  }

  lemma {:induction false} ScanEscapes(text: Text, start: nat, offset: nat, seen: seq<Char>)
    requires Scanned(text, start, offset, seen) && offset < |text| && text[offset] == BACKSLASH
    ensures if offset + 1 == |text| then ReadString(text[start..]).Fail?
            else if text[offset + 1] == LETTER_U then
              if offset + 6 <= |text| && ValidHex(text[offset + 2..offset + 6]) then
                Scanned(text, start, offset + 6, seen + [Hex(text[offset + 2..offset + 6])])
              else ReadString(text[start..]).Fail?
            else if IsShort(text[offset + 1]) then Scanned(text, start, offset + 2, seen + [Short(text[offset + 1])])
            else ReadString(text[start..]).Fail?
  {
    ScannedFacts(text, start, offset, seen);
    BadCharFails(text[offset..]);
    hide Scanned, ReadString, SpellChars, ReadChars;
    if offset + 1 < |text| && text[offset + 1] == LETTER_U {
      if offset + 6 <= |text| {
        HexAt(text, offset);
        if ValidHex(text[offset + 2..offset + 6]) {
          ScanHex(text, start, offset, seen);
        }
      }
    } else if offset + 1 < |text| && IsShort(text[offset + 1]) {
      ScanShort(text, start, offset, seen);
    }
  }

  lemma {:induction false} ScanHex(text: Text, start: nat, offset: nat, seen: seq<Char>)
    requires Scanned(text, start, offset, seen) && offset + 6 <= |text|
    requires text[offset] == BACKSLASH && text[offset + 1] == LETTER_U && ValidHex(text[offset + 2..offset + 6])
    ensures Scanned(text, start, offset + 6, seen + [Hex(text[offset + 2..offset + 6])])
  {
    hide Scanned;
    HexAt(text, offset);
    ScanGoesOn(text, start, offset, seen, Hex(text[offset + 2..offset + 6]));
  }

  lemma {:induction false} ScanShort(text: Text, start: nat, offset: nat, seen: seq<Char>)
    requires Scanned(text, start, offset, seen) && offset + 2 <= |text|
    requires text[offset] == BACKSLASH && IsShort(text[offset + 1])
    ensures Scanned(text, start, offset + 2, seen + [Short(text[offset + 1])])
  {
    hide Scanned;
    assert SpellChar(Short(text[offset + 1])) <= text[offset..];
    ScanGoesOn(text, start, offset, seen, Short(text[offset + 1]));
  }

  /** What no character of a literal starts with. */
  predicate BadChar(t: Text)
  {
    && t != []
    && if t[0] == BACKSLASH then
         |t| == 1 || if t[1] == LETTER_U then |t| < 6 || !ValidHex(t[2..6]) else !IsShort(t[1])
       else t[0] != QUOTE && t[0] < 0x20
  }

  lemma BadCharFails(t: Text)
    ensures BadChar(t) ==> ReadChars(t).Fail?
  {
  }

  lemma HexAt(text: Text, offset: nat)
    requires offset + 6 <= |text| && text[offset] == BACKSLASH && text[offset + 1] == LETTER_U
    ensures var t, h := text[offset..], text[offset + 2..offset + 6];
            t[2..6] == h && SpellChar(Hex(h)) <= t
  {
    var t := text[offset..];
    assert t[..6] == SpellChar(Hex(text[offset + 2..offset + 6]));
  }

  ghost function PutChars(cs: seq<Char>, r: Read<seq<Char>>): Read<seq<Char>>
  {
    if r.Fail? then Fail else Done(cs + r.value, r.rest)
  }

  lemma LiteralParses(cs: seq<Char>)
    requires ValidChars(cs)
    ensures ParseLiteral(SpellString(cs)) == Some(Meaning(cs))
  {
    StringComplete(cs, []);
    assert SpellString(cs) + [] == SpellString(cs);
  }

  lemma TailOf(text: Text, offset: nat)
    requires offset < |text|
    ensures text[offset..] != [] && text[offset..][0] == text[offset] && text[offset..][1..] == text[offset + 1..]
  {
  }

  lemma NotAString(t: Text)
    requires t == [] || t[0] != QUOTE
    ensures ReadString(t).Fail?
  {
  }

  lemma NumberLeaves(t: Text)
    requires ReadNumber(t).Done?
    ensures var r := ReadNumber(t).rest; |r| <= |t| && t[|t| - |r|..] == r
  {
    hide WholeLength, FractionLength, ExponentLength;
    var t1 := if t[0] == MINUS then t[1..] else t;
    var w := WholeLength(t1);
    var f := FractionLength(t1[w..]);
    var e := ExponentLength(t1[w..][f..]);
    assert ReadNumber(t).rest == t1[w..][f..][e..];
    hide ReadNumber;
    DropDrop(t1, w, f);
    DropDrop(t1, w + f, e);
    DropDrop(t, |t| - |t1|, w + f + e);
  }

  lemma DropDrop(t: Text, a: nat, b: nat)
    requires a + b <= |t|
    ensures t[a..][b..] == t[a + b..]
  {
  }

  lemma {:induction false} ValueCases(t: Text)
    ensures var r := ReadValue(t);
      if t != [] && t[0] == OPEN_BRACE then r == ReadObjectBody(t[1..])
      else if t != [] && t[0] == OPEN_BRACKET then r == ReadArrayBody(t[1..])
      else if t != [] && t[0] == QUOTE then
        var s := ReadString(t); if s.Fail? then r.Fail? else r == Done(Str(s.value), s.rest)
      else if TRUE_WORD <= t then r == Done(True, t[|TRUE_WORD|..])
      else if FALSE_WORD <= t then r == Done(False, t[|FALSE_WORD|..])
      else if NULL_WORD <= t then r == Done(Null, t[|NULL_WORD|..])
      else var n := ReadNumber(t); if n.Fail? then r.Fail? else r == Done(Num(n.value), n.rest)
  {
    if t != [] {
      var t1 := SkipSpace(t[1..]);
      assert t[1..|t| - |t1|] == t[1..][..|t[1..]| - |t1|];
    }
  }

  // The same for acceptance, one kind of value at a time: a word, a string and a number repeat no key

  const WORDS: seq<Text> := [TRUE_WORD, FALSE_WORD, NULL_WORD]

  predicate StartsWith(t: Text, word: Text)
  {
    word <= t
  }

  /** A value that is neither an object, nor an array, nor a string. */
  predicate IsScalar(t: Text)
  {
    t == [] || (t[0] != OPEN_BRACE && t[0] != OPEN_BRACKET && t[0] != QUOTE)
  }

  lemma {:induction false} BodyDecides(t: Text)
    requires t != [] && (t[0] == OPEN_BRACE || t[0] == OPEN_BRACKET)
    ensures var r, body := ReadValue(t), if t[0] == OPEN_BRACE then ReadObjectBody(t[1..]) else ReadArrayBody(t[1..]);
            Clean(r) == Clean(body) && (Clean(r) ==> r.rest == body.rest)
  {
    ValueCases(t);
    hide ReadValue, ReadObjectBody, ReadArrayBody;
  }

  lemma {:induction false} StringDecides(t: Text)
    requires t != [] && t[0] == QUOTE
    ensures var r, s := ReadValue(t), ReadString(t);
            Clean(r) == s.Done? && (Clean(r) ==> r.rest == s.rest)
  {
    ValueCases(t);
    hide ReadValue, ReadString;
  }

  lemma {:induction false} WordDecides(t: Text, i: nat)
    requires IsScalar(t) && i < 3 && StartsWith(t, WORDS[i]) && forall j | 0 <= j < i :: !StartsWith(t, WORDS[j])
    ensures Clean(ReadValue(t)) && ReadValue(t).rest == t[|WORDS[i]|..]
  {
    ValueCases(t);
    hide ReadValue;
    assert i == 0 || !StartsWith(t, WORDS[0]);
    assert i <= 1 || !StartsWith(t, WORDS[1]);
  }

  lemma {:induction false} NumberDecides(t: Text)
    requires IsScalar(t) && forall j | 0 <= j < 3 :: !StartsWith(t, WORDS[j])
    ensures var r, n := ReadValue(t), ReadNumber(t);
            Clean(r) == n.Done? && (Clean(r) ==> r.rest == n.rest)
  {
    ValueCases(t);
    hide ReadValue, ReadNumber;
    assert !StartsWith(t, WORDS[0]) && !StartsWith(t, WORDS[1]) && !StartsWith(t, WORDS[2]);
  }

  ghost predicate Good(o: Option<Observed>)
  {
    o.Some? && o.value.unique && Distinct(o.value.keys)
  }

  lemma {:induction false} SkipTwice(t: Text)
    ensures SkipSpace(SkipSpace(t)) == SkipSpace(t)
  {
    SkippedSpace(t);
    SkipsExactly([], SkipSpace(t));
  }

  /** White space before a member or an item is not observed. */
  lemma {:induction false} ViewSkipsSpace(t: Text)
    ensures MembersView(SkipSpace(t)) == MembersView(t) && ItemsView(SkipSpace(t)) == ItemsView(t)
  {
    SkipTwice(t);
    assert MemberView(SkipSpace(t)) == MemberView(t) by {
      hide ReadValue, ReadString, Meaning, UniqueKeys;
    }
    hide ReadMember, ReadMembers, ReadItems, MembersView, MemberView, ItemsView;
    MembersStep(t);
    MembersStep(SkipSpace(t));
    ItemsStep(t);
    ItemsStep(SkipSpace(t));
  }

  lemma {:induction false} ObjectCases(t: Text)
    ensures var t1, r := SkipSpace(t), ReadObjectBody(t);
      && MembersView(t1) == MembersView(t)
      && if t1 != [] && t1[0] == CLOSE_BRACE then Clean(r) && r.rest == t1[1..]
         else Clean(r) == Good(MembersView(t)) && (Clean(r) ==> r.rest == MembersView(t).value.rest)
  {
    ViewSkipsSpace(t);
    hide ReadMembers;
    assert Keys(NoMembers) == [] && UniqueInMembers(NoMembers);
  }

  lemma {:induction false} ArrayCases(t: Text)
    ensures var t1, r := SkipSpace(t), ReadArrayBody(t);
      && ItemsView(t1) == ItemsView(t)
      && if t1 != [] && t1[0] == CLOSE_BRACKET then Clean(r) && r.rest == t1[1..]
         else
           && Clean(r) == (ItemsView(t).Some? && ItemsView(t).value.unique)
           && (Clean(r) ==> r.rest == ItemsView(t).value.rest)
  {
    ViewSkipsSpace(t);
    hide ReadItems;
    assert UniqueInItems(NoItems);
  }

  lemma {:induction false} MembersStep(t: Text)
    ensures var m := MemberView(t);
      if m.None? || m.value.rest == [] then MembersView(t).None?
      else if m.value.rest[0] == CLOSE_BRACE then
        MembersView(t) == Some(Observed([m.value.key], m.value.unique, m.value.rest[1..]))
      else if m.value.rest[0] == COMMA then
        var more := MembersView(m.value.rest[1..]);
        if more.None? then MembersView(t).None?
        else MembersView(t) == Some(Observed([m.value.key] + more.value.keys, m.value.unique
                                             && more.value.unique, more.value.rest))
      else MembersView(t).None?
  {
    hide ReadMember, Meaning;
    var r := ReadMember(t);
    if r.Done? {
      assert [Meaning(r.value.key)] + [] == [Meaning(r.value.key)];
      assert Keys(NoMembers) == [] && UniqueInMembers(NoMembers);
    }
  }

  lemma {:induction false} ItemsStep(t: Text)
    ensures var v := ReadValue(SkipSpace(t));
      if v.Fail? then ItemsView(t).None?
      else
        var t2 := SkipSpace(v.rest);
        if t2 != [] && t2[0] == CLOSE_BRACKET then ItemsView(t) == Some(Observed([], UniqueKeys(v.value), t2[1..]))
        else if t2 != [] && t2[0] == COMMA then
          var more := ItemsView(t2[1..]);
          if more.None? then ItemsView(t).None?
          else ItemsView(t) == Some(Observed([], UniqueKeys(v.value) && more.value.unique, more.value.rest))
        else ItemsView(t).None?
  {
    assert UniqueInItems(NoItems);
    hide ReadValue, SkipSpace;
  }

  /** What reading one more item decides about the whole array. */
  lemma {:induction false} ItemsDecide(t: Text)
    ensures var v := ReadValue(SkipSpace(t));
      if !Clean(v) then ItemsView(t).None? || !ItemsView(t).value.unique
      else
        var t2 := SkipSpace(v.rest);
        if t2 != [] && t2[0] == CLOSE_BRACKET then ItemsView(t) == Some(Observed([], true, t2[1..]))
        else if t2 != [] && t2[0] == COMMA then ItemsView(t) == ItemsView(t2[1..])
        else ItemsView(t).None?
  {
    hide ReadValue, SkipSpace, ItemsView, UniqueKeys;
    ItemsStep(t);
  }

  lemma {:induction false} DistinctStep(seen: seq<Text>, key: Text, more: seq<Text>)
    requires Distinct(seen)
    ensures key in seen ==> !Distinct(seen + ([key] + more))
    ensures key !in seen ==> Distinct(seen + [key])
    ensures seen + ([key] + more) == (seen + [key]) + more
  {
    if key in seen {
      var i :| 0 <= i < |seen| && seen[i] == key;
      assert (seen + ([key] + more))[i] == (seen + ([key] + more))[|seen|];
    }
  }

  /** What reading one more member decides about the whole object. */
  lemma {:induction false} MemberDecides(whole: Option<Observed>, seen: seq<Text>, t: Text)
    requires Distinct(seen) && whole == PutKeys(seen, MembersView(t))
    ensures var m := MemberView(t);
      if m.None? || !m.value.unique || m.value.key in seen then !Good(whole)
      else
        && Distinct(seen + [m.value.key])
        && if m.value.rest == [] then whole.None?
           else if m.value.rest[0] == CLOSE_BRACE then
             whole == Some(Observed(seen + [m.value.key], true, m.value.rest[1..]))
           else if m.value.rest[0] == COMMA then
             whole == PutKeys(seen + [m.value.key], MembersView(m.value.rest[1..]))
           else whole.None?
  {
    hide MembersView, MemberView;
    var m := MemberView(t);
    MembersStep(t);
    if m.Some? {
      DistinctStep(seen, m.value.key, []);
      assert [m.value.key] + [] == [m.value.key];
      if m.value.rest != [] && MembersView(m.value.rest[1..]).Some? {
        DistinctStep(seen, m.value.key, MembersView(m.value.rest[1..]).value.keys);
      }
    }
  }

  /**
   * The recogniser accepts exactly the JSON texts of RFC 8259 in which no object repeats a key
   * after unescaping.
   */
  method AssertJsonHasNoDuplicateKeys(text: Text) returns (ok: bool)
    ensures ok <==> exists d :: ValidDocument(d) && SpellDocument(d) == text && UniqueKeys(d.value)
    ensures IsJsonText(text) && !ok <==>
              exists d :: ValidDocument(d) && SpellDocument(d) == text && !UniqueKeys(d.value)
  {
    var recogniser := new Recogniser(text);
    recogniser.Whitespace();
    ok := recogniser.ParseValue();
    SkipTwice(text);
    if ok {
      recogniser.Whitespace();
      ok := recogniser.offset == |text|;
    }
    DocumentDecides(text);
  }

  lemma {:induction false} DocumentDecides(text: Text)
    ensures var v := ReadValue(SkipSpace(text));
      && ((exists d :: ValidDocument(d) && SpellDocument(d) == text && UniqueKeys(d.value)) <==>
          (Clean(v) && SkipSpace(v.rest) == []))
      && ((exists d :: ValidDocument(d) && SpellDocument(d) == text && !UniqueKeys(d.value)) <==>
          (v.Done? && !UniqueKeys(v.value) && SkipSpace(v.rest) == []))
  {
    hide ReadValue, SkipSpace, Valid, Spell, UniqueKeys;
    if ReadDocument(text).Done? {
      var d := DocumentSound(text);
    }
    forall d | ValidDocument(d) && SpellDocument(d) == text
      ensures ReadDocument(text).Done? && ReadDocument(text).value == d.value
    {
      DocumentComplete(d);
    }
  }
}
