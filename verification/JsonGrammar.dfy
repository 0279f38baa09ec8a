/**
 * The grammar of RFC 8259, sections 2 to 7, as concrete syntax trees and the text each one spells.
 * Text is a sequence of UTF-16 code units, which is what the recogniser indexes.
 */
module JsonGrammar {
  import opened Sequences

  type Unit = u: int | 0 <= u < 0x10000
  type Text = seq<Unit>

  const QUOTE: Unit := 0x22
  const PLUS: Unit := 0x2B
  const COMMA: Unit := 0x2C
  const MINUS: Unit := 0x2D
  const DOT: Unit := 0x2E
  const ZERO: Unit := 0x30
  const COLON: Unit := 0x3A
  const OPEN_BRACKET: Unit := 0x5B
  const BACKSLASH: Unit := 0x5C
  const CLOSE_BRACKET: Unit := 0x5D
  const LETTER_U: Unit := 0x75
  const OPEN_BRACE: Unit := 0x7B
  const CLOSE_BRACE: Unit := 0x7D

  const TRUE_WORD: Text := [0x74, 0x72, 0x75, 0x65]
  const FALSE_WORD: Text := [0x66, 0x61, 0x6C, 0x73, 0x65]
  const NULL_WORD: Text := [0x6E, 0x75, 0x6C, 0x6C]

  predicate IsSpace(u: Unit) { u == 0x20 || u == 0x09 || u == 0x0A || u == 0x0D }

  predicate IsDigit(u: Unit) { ZERO <= u <= 0x39 }

  predicate IsHex(u: Unit) { IsDigit(u) || 0x41 <= u <= 0x46 || 0x61 <= u <= 0x66 }

  predicate Spaces(t: Text) { forall i | 0 <= i < |t| :: IsSpace(t[i]) }

  predicate Digits(t: Text) { forall i | 0 <= i < |t| :: IsDigit(t[i]) }

  // Strings (section 7)

  datatype Char = Plain(unit: Unit) | Short(code: Unit) | Hex(h: Text)

  /** The units behind the two-character escapes. */
  function ShortMeaning(code: Unit): Unit
  {
    if code == 0x62 then 0x08 else if code == 0x66 then 0x0C else if code == 0x6E then 0x0A
    else if code == 0x72 then 0x0D else if code == 0x74 then 0x09 else code
  }

  predicate IsShort(code: Unit)
  {
    code in {QUOTE, BACKSLASH, 0x2F, 0x62, 0x66, 0x6E, 0x72, 0x74}
  }

  function HexDigit(u: Unit): (v: nat)
    ensures IsHex(u) ==> v < 16
  {
    if IsDigit(u) then u - ZERO else if 0x41 <= u <= 0x46 then u - 0x41 + 10
    else if 0x61 <= u <= 0x66 then u - 0x61 + 10 else 0
  }

  predicate ValidHex(h: Text)
  {
    |h| == 4 && IsHex(h[0]) && IsHex(h[1]) && IsHex(h[2]) && IsHex(h[3])
  }

  function HexMeaning(h: Text): Unit
    requires ValidHex(h)
  {
    HexDigit(h[0]) * 4096 + HexDigit(h[1]) * 256 + HexDigit(h[2]) * 16 + HexDigit(h[3])
  }

  predicate ValidChar(c: Char)
  {
    match c
    case Plain(u) => u >= 0x20 && u != QUOTE && u != BACKSLASH
    case Short(code) => IsShort(code)
    case Hex(h) => ValidHex(h)
  }

  predicate ValidChars(cs: seq<Char>)
  {
    forall c | c in cs :: ValidChar(c)
  }

  function SpellChar(c: Char): Text
  {
    match c
    case Plain(u) => [u]
    case Short(code) => [BACKSLASH, code]
    case Hex(h) => [BACKSLASH, LETTER_U] + h
  }

  function SpellChars(cs: seq<Char>): Text
  {
    if cs == [] then [] else SpellChar(cs[0]) + SpellChars(cs[1..])
  }

  /** The string a literal denotes, after unescaping. */
  function Meaning(cs: seq<Char>): Text
  {
    if cs == [] then []
    else [match cs[0]
          case Plain(u) => u
          case Short(code) => ShortMeaning(code)
          case Hex(h) => if ValidHex(h) then HexMeaning(h) else 0] + Meaning(cs[1..])
  }

  function SpellString(cs: seq<Char>): Text
  {
    [QUOTE] + SpellChars(cs) + [QUOTE]
  }

  // Numbers (section 6)

  datatype Number = Number(minus: bool, whole: Text, fraction: Text, exponent: Text)

  predicate ValidWhole(t: Text)
  {
    t == [ZERO] || (t != [] && Digits(t) && t[0] != ZERO)
  }

  predicate ValidFraction(t: Text)
  {
    t == [] || (|t| >= 2 && t[0] == DOT && Digits(t[1..]))
  }

  predicate ValidExponent(t: Text)
  {
    || t == []
    || (|t| >= 2 && t[0] in {0x65, 0x45} && Digits(t[1..]))
    || (|t| >= 3 && t[0] in {0x65, 0x45} && t[1] in {PLUS, MINUS} && Digits(t[2..]))
  }

  predicate ValidNumber(n: Number)
  {
    ValidWhole(n.whole) && ValidFraction(n.fraction) && ValidExponent(n.exponent)
  }

  function SpellNumber(n: Number): Text
  {
    (if n.minus then [MINUS] else []) + (n.whole + (n.fraction + n.exponent))
  }

  // Values, arrays and objects (sections 2 to 5)

  datatype Value =
    | True
    | False
    | Null
    | Num(number: Number)
    | Str(chars: seq<Char>)
    | Arr(gap: Text, items: Items)
    | Obj(gap: Text, members: Members)

  datatype Items = NoItems | Item(pre: Text, value: Value, post: Text, rest: Items)

  datatype Members = NoMembers | Member(pre: Text, key: seq<Char>, mid: Text, before: Text, value: Value, post: Text,
                                        rest: Members)

  predicate Valid(v: Value)
  {
    match v
    case Num(n) => ValidNumber(n)
    case Str(cs) => ValidChars(cs)
    case Arr(gap, items) => Spaces(gap) && (items.Item? ==> gap == []) && ValidItems(items)
    case Obj(gap, members) => Spaces(gap) && (members.Member? ==> gap == []) && ValidMembers(members)
    case _ => true
  }

  predicate ValidItems(items: Items)
  {
    items.Item? ==> Spaces(items.pre) && Valid(items.value) && Spaces(items.post) && ValidItems(items.rest)
  }

  predicate ValidMembers(ms: Members)
  {
    ms.Member? ==>
      && Spaces(ms.pre) && ValidChars(ms.key) && Spaces(ms.mid)
      && Spaces(ms.before) && Valid(ms.value) && Spaces(ms.post) && ValidMembers(ms.rest)
  }

  function Spell(v: Value): Text
  {
    match v
    case True => TRUE_WORD
    case False => FALSE_WORD
    case Null => NULL_WORD
    case Num(n) => SpellNumber(n)
    case Str(cs) => SpellString(cs)
    case Arr(gap, items) => [OPEN_BRACKET] + (gap + SpellItems(items))
    case Obj(gap, members) => [OPEN_BRACE] + (gap + SpellMembers(members))
  }

  /** Items up to and including the closing bracket. */
  function SpellItems(items: Items): Text
  {
    match items
    case NoItems => [CLOSE_BRACKET]
    case Item(pre, value, post, rest) =>
      pre + (Spell(value) + (post + if rest.NoItems? then [CLOSE_BRACKET] else [COMMA] + SpellItems(rest)))
  }

  function SpellMembers(ms: Members): Text
  {
    match ms
    case NoMembers => [CLOSE_BRACE]
    case Member(pre, key, mid, before, value, post, rest) =>
      pre + (SpellString(key) + (mid + ([COLON] + (before + (Spell(value) +
        (post + if rest.NoMembers? then [CLOSE_BRACE] else [COMMA] + SpellMembers(rest)))))))
  }

  /** A JSON text: one value between optional white space. */
  datatype Document = Document(pre: Text, value: Value, post: Text)

  predicate ValidDocument(d: Document)
  {
    Spaces(d.pre) && Valid(d.value) && Spaces(d.post)
  }

  function SpellDocument(d: Document): Text
  {
    d.pre + (Spell(d.value) + d.post)
  }

  // Duplicate keys

  function Keys(ms: Members): seq<Text>
  {
    if ms.NoMembers? then [] else [Meaning(ms.key)] + Keys(ms.rest)
  }

  /** No object anywhere in `v` repeats a key after unescaping. */
  predicate UniqueKeys(v: Value)
  {
    match v
    case Arr(_, items) => UniqueInItems(items)
    case Obj(_, members) => Distinct(Keys(members)) && UniqueInMembers(members)
    case _ => true
  }

  predicate UniqueInItems(items: Items)
  {
    items.Item? ==> UniqueKeys(items.value) && UniqueInItems(items.rest)
  }

  predicate UniqueInMembers(ms: Members)
  {
    ms.Member? ==> UniqueKeys(ms.value) && UniqueInMembers(ms.rest)
  }
}
