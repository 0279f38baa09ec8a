/**
 * Canonical JSON, on which every digest and identity rests
 * (packages/core/src/identity.ts: normalize, canonicalize).
 *
 * An object is the list of its properties in JavaScript enumeration order. A finite number is
 * identified with the decimal literal that ECMAScript prints for it.
 */
module Canonical {
  import opened Wrappers
  import opened JsonGrammar

  datatype Num = Finite(literal: Number) | NotFinite

  datatype Json =
    | JNull
    | JBool(b: bool)
    | JNum(num: Num)
    | JStr(s: Text)
    | JArr(elements: Elements)
    | JObj(entries: Entries)

  datatype Elements = NoElements | Element(head: Json, tail: Elements)

  datatype Entries = NoEntries | Entry(key: Text, value: Json, rest: Entries)

  /** What a value means, with objects as maps: key order is gone at every depth. */
  datatype Den =
    | DNull
    | DBool(b: bool)
    | DNum(num: Num)
    | DStr(s: Text)
    | DArr(elements: seq<Den>)
    | DObj(fields: map<Text, Den>)

  function KeysOf(e: Entries): set<Text>
  {
    if e.NoEntries? then {} else {e.key} + KeysOf(e.rest)
  }

  /** A JavaScript value: property names are distinct and number literals are well formed. */
  predicate WellFormed(v: Json)
  {
    match v
    case JNum(Finite(n)) => ValidNumber(n)
    case JArr(elements) => WellFormedElements(elements)
    case JObj(entries) => WellFormedEntries(entries)
    case _ => true
  }

  predicate WellFormedElements(e: Elements)
  {
    e.Element? ==> WellFormed(e.head) && WellFormedElements(e.tail)
  }

  predicate WellFormedEntries(e: Entries)
  {
    e.Entry? ==> e.key !in KeysOf(e.rest) && WellFormed(e.value) && WellFormedEntries(e.rest)
  }

  predicate AllFinite(v: Json)
  {
    match v
    case JNum(n) => n.Finite?
    case JArr(elements) => AllFiniteElements(elements)
    case JObj(entries) => AllFiniteEntries(entries)
    case _ => true
  }

  predicate AllFiniteElements(e: Elements)
  {
    e.Element? ==> AllFinite(e.head) && AllFiniteElements(e.tail)
  }

  predicate AllFiniteEntries(e: Entries)
  {
    e.Entry? ==> AllFinite(e.value) && AllFiniteEntries(e.rest)
  }

  function Denote(v: Json): Den
  {
    match v
    case JNull => DNull
    case JBool(b) => DBool(b)
    case JNum(n) => DNum(n)
    case JStr(s) => DStr(s)
    case JArr(elements) => DArr(DenoteElements(elements))
    case JObj(entries) => DObj(DenoteEntries(entries))
  }

  function DenoteElements(e: Elements): seq<Den>
  {
    if e.NoElements? then [] else [Denote(e.head)] + DenoteElements(e.tail)
  }

  function DenoteEntries(e: Entries): (m: map<Text, Den>)
    ensures m.Keys == KeysOf(e)
  {
    if e.NoEntries? then map[] else DenoteEntries(e.rest)[e.key := Denote(e.value)]
  }

  // Key orders

  /** JavaScript `<` on strings: lexicographic by UTF-16 code unit. */
  predicate LexBefore(a: Text, b: Text)
  {
    if a == [] then b != []
    else b != [] && (a[0] < b[0] || (a[0] == b[0] && LexBefore(a[1..], b[1..])))
  }

  function NumeralValue(t: Text): int
  {
    if t == [] then 0 else NumeralValue(t[..|t| - 1]) * 10 + (t[|t| - 1] - ZERO)
  }

  /** Array-index keys: canonical decimal numerals below 2^32 - 1, which JavaScript enumerates first. */
  predicate IsIndex(t: Text)
  {
    ValidWhole(t) && NumeralValue(t) < 0xFFFF_FFFF
  }

  /** Numeric order of canonical numerals: the shorter is smaller, equal lengths compare by digits. */
  predicate IndexBefore(a: Text, b: Text)
  {
    |a| < |b| || (|a| == |b| && LexBefore(a, b))
  }

  /** The enumeration order of a JavaScript object whose other keys were inserted in sorted order. */
  predicate JsBefore(a: Text, b: Text)
  {
    if IsIndex(a) && IsIndex(b) then IndexBefore(a, b)
    else if IsIndex(a) || IsIndex(b) then IsIndex(a)
    else LexBefore(a, b)
  }

  // normalize

  function Insert(before: (Text, Text) -> bool, key: Text, value: Json, e: Entries): Entries
  {
    if e.NoEntries? || before(key, e.key) then Entry(key, value, e)
    else Entry(e.key, e.value, Insert(before, key, value, e.rest))
  }

  function Sort(before: (Text, Text) -> bool, e: Entries): Entries
  {
    if e.NoEntries? then e else Insert(before, e.key, e.value, Sort(before, e.rest))
  }

  function Select(index: bool, e: Entries): Entries
  {
    if e.NoEntries? then e
    else if IsIndex(e.key) == index then Entry(e.key, e.value, Select(index, e.rest))
    else Select(index, e.rest)
  }

  function Append(a: Entries, b: Entries): Entries
  {
    if a.NoEntries? then b else Entry(a.key, a.value, Append(a.rest, b))
  }

  /** Object.fromEntries: index keys in numeric order, then the others as inserted. */
  function FromEntries(e: Entries): Entries
  {
    Append(Sort(IndexBefore, Select(true, e)), Select(false, e))
  }

  function Normalize(v: Json): Json
  {
    match v
    case JArr(elements) => JArr(NormalizeElements(elements))
    case JObj(entries) => JObj(FromEntries(Sort(LexBefore, NormalizeEntries(entries))))
    case _ => v
  }

  function NormalizeElements(e: Elements): Elements
  {
    if e.NoElements? then e else Element(Normalize(e.head), NormalizeElements(e.tail))
  }

  function NormalizeEntries(e: Entries): Entries
  {
    if e.NoEntries? then e else Entry(e.key, Normalize(e.value), NormalizeEntries(e.rest))
  }

  // JSON.stringify

  predicate IsHighSurrogate(u: Unit) { 0xD800 <= u < 0xDC00 }

  predicate IsLowSurrogate(u: Unit) { 0xDC00 <= u < 0xE000 }

  function HexUnit(d: nat): Unit
    requires d < 16
  {
    if d < 10 then ZERO + d else 0x61 + (d - 10)
  }

  function HexText(u: Unit): Text
  {
    [HexUnit(u / 4096), HexUnit(u / 256 % 16), HexUnit(u / 16 % 16), HexUnit(u % 16)]
  }

  function EscapeUnit(u: Unit): Char
  {
    if u == 0x08 then Short(0x62) else if u == 0x09 then Short(0x74) else if u == 0x0A then Short(0x6E)
    else if u == 0x0C then Short(0x66) else if u == 0x0D then Short(0x72)
    else if u == QUOTE || u == BACKSLASH then Short(u)
    else if u < 0x20 || IsHighSurrogate(u) || IsLowSurrogate(u) then Hex(HexText(u))
    else Plain(u)
  }

  /** Paired surrogates are printed as they are, lone ones as escapes. */
  function Escape(t: Text): seq<Char>
  {
    if t == [] then []
    else if |t| >= 2 && IsHighSurrogate(t[0]) && IsLowSurrogate(t[1]) then
      [Plain(t[0]), Plain(t[1])] + Escape(t[2..])
    else [EscapeUnit(t[0])] + Escape(t[1..])
  }

  function Stringify(v: Json): Text
  {
    match v
    case JNull => NULL_WORD
    case JBool(b) => if b then TRUE_WORD else FALSE_WORD
    case JNum(n) => if n.Finite? then SpellNumber(n.literal) else NULL_WORD
    case JStr(s) => SpellString(Escape(s))
    case JArr(elements) => [OPEN_BRACKET] + StringifyElements(elements)
    case JObj(entries) => [OPEN_BRACE] + StringifyEntries(entries)
  }

  function StringifyElements(e: Elements): Text
  {
    if e.NoElements? then [CLOSE_BRACKET]
    else Stringify(e.head) + if e.tail.NoElements? then [CLOSE_BRACKET] else [COMMA] + StringifyElements(e.tail)
  }

  function StringifyEntries(e: Entries): Text
  {
    if e.NoEntries? then [CLOSE_BRACE]
    else SpellString(Escape(e.key)) + ([COLON] + (Stringify(e.value) +
           if e.rest.NoEntries? then [CLOSE_BRACE] else [COMMA] + StringifyEntries(e.rest)))
  }

  /** `None` is the thrown TypeError for a non-finite number. */
  function Canonicalize(v: Json): Option<Text>
  {
    if AllFinite(v) then Some(Stringify(Normalize(v))) else None
  }
}
