/**
 * The canonical text of a value against the JSON grammar: it is accepted by the recogniser, reads back
 * as the normalized value, and two values share it exactly when they mean the same.
 */
module CanonicalText {
  import opened Wrappers
  import opened Sequences
  import opened JsonGrammar
  import opened JsonReader
  import opened JsonReaderProofs
  import opened Canonical
  import opened CanonicalProofs

  /** The syntax tree of printed JSON, which has no white space. */
  function Tree(v: Json): Value
  {
    match v
    case JNull => Null
    case JBool(b) => if b then True else False
    case JNum(n) => if n.Finite? then Num(n.literal) else Null
    case JStr(s) => Str(Escape(s))
    case JArr(elements) => Arr([], TreeItems(elements))
    case JObj(entries) => Obj([], TreeMembers(entries))
  }

  function TreeItems(e: Elements): Items
  {
    if e.NoElements? then NoItems else Item([], Tree(e.head), [], TreeItems(e.tail))
  }

  function TreeMembers(e: Entries): Members
  {
    if e.NoEntries? then NoMembers else Member([], Escape(e.key), [], [], Tree(e.value), [], TreeMembers(e.rest))
  }

  /** JSON.parse on a syntax tree, properties in textual order. */
  function FromTree(v: Value): Json
  {
    match v
    case Null => JNull
    case True => JBool(true)
    case False => JBool(false)
    case Num(n) => JNum(Finite(n))
    case Str(cs) => JStr(Meaning(cs))
    case Arr(_, items) => JArr(FromItems(items))
    case Obj(_, members) => JObj(FromMembers(members))
  }

  function FromItems(items: Items): Elements
  {
    if items.NoItems? then NoElements else Element(FromTree(items.value), FromItems(items.rest))
  }

  function FromMembers(ms: Members): Entries
  {
    if ms.NoMembers? then NoEntries else Entry(Meaning(ms.key), FromTree(ms.value), FromMembers(ms.rest))
  }

  function ParseJson(t: Text): Option<Json>
  {
    var r := ReadDocument(t);
    if r.Fail? then None else Some(FromTree(r.value))
  }

  lemma {:induction false} HexUnits(d: nat)
    requires d < 16
    ensures IsHex(HexUnit(d)) && HexDigit(HexUnit(d)) == d
  {
  }

  lemma {:induction false} SplitNibbles(u: Unit)
    ensures u / 4096 < 16
    ensures (u / 4096) * 4096 + (u / 256 % 16) * 256 + (u / 16 % 16) * 16 + u % 16 == u
  {
    assert u / 16 == 16 * (u / 256) + u / 16 % 16;
    assert u / 256 == 16 * (u / 4096) + u / 256 % 16;
  }

  lemma {:induction false} HexTextIsExact(u: Unit)
    ensures ValidHex(HexText(u)) && HexMeaning(HexText(u)) == u
  {
    hide HexUnit, HexDigit, IsHex;
    SplitNibbles(u);
    HexUnits(u / 4096);
    HexUnits(u / 256 % 16);
    HexUnits(u / 16 % 16);
    HexUnits(u % 16);
  }

  lemma {:induction false} EscapeUnitIsExact(u: Unit)
    ensures ValidChar(EscapeUnit(u)) && Meaning([EscapeUnit(u)]) == [u]
  {
    HexTextIsExact(u);
    hide HexText, HexMeaning, ValidHex;
    assert Meaning([]) == [];
  }

  lemma {:induction false} MeaningOfAppend(a: seq<Char>, b: seq<Char>)
    ensures Meaning(a + b) == Meaning(a) + Meaning(b)
    decreases |a|
  {
    if a == [] {
      assert a + b == b;
    } else {
      MeaningOfAppend(a[1..], b);
      assert (a + b)[0] == a[0] && (a + b)[1..] == a[1..] + b;
    }
  }

  /** Escaping produces a valid literal that denotes the string it came from. */
  lemma {:induction false} EscapeIsExact(t: Text)
    ensures ValidChars(Escape(t)) && Meaning(Escape(t)) == t
    decreases |t|
  {
    hide EscapeUnit, Meaning;
    if t == [] {
      assert Escape(t) == [] && Meaning([]) == [] by { MeaningOfNothing(); }
    } else if |t| >= 2 && IsHighSurrogate(t[0]) && IsLowSurrogate(t[1]) {
      EscapeIsExact(t[2..]);
      MeaningOfPlain(t[0]);
      MeaningOfPlain(t[1]);
      MeaningOfAppend([Plain(t[0])], [Plain(t[1])]);
      MeaningOfAppend([Plain(t[0])] + [Plain(t[1])], Escape(t[2..]));
      assert [Plain(t[0])] + [Plain(t[1])] == [Plain(t[0]), Plain(t[1])];
      assert t == [t[0]] + [t[1]] + t[2..];
    } else {
      EscapeIsExact(t[1..]);
      EscapeUnitIsExact(t[0]);
      MeaningOfAppend([EscapeUnit(t[0])], Escape(t[1..]));
      assert t == [t[0]] + t[1..];
    }
  }

  lemma MeaningOfNothing()
    ensures Meaning([]) == []
  {
  }

  lemma MeaningOfPlain(u: Unit)
    ensures Meaning([Plain(u)]) == [u]
  {
    MeaningOfNothing();
    assert [Plain(u)][1..] == [];
  }

  lemma {:induction false} TreeIsExact(v: Json)
    requires WellFormed(v) && AllFinite(v)
    ensures Valid(Tree(v)) && UniqueKeys(Tree(v))
    ensures Spell(Tree(v)) == Stringify(v) && FromTree(Tree(v)) == v
    decreases v
  {
    match v
    case JStr(s) => EscapeIsExact(s);
    case JArr(elements) =>
      TreeItemsAreExact(elements);
      assert [] + SpellItems(TreeItems(elements)) == SpellItems(TreeItems(elements));
    case JObj(entries) =>
      TreeMembersAreExact(entries);
      assert [] + SpellMembers(TreeMembers(entries)) == SpellMembers(TreeMembers(entries));
    case _ =>
  }

  lemma {:induction false} TreeItemsAreExact(e: Elements)
    requires WellFormedElements(e) && AllFiniteElements(e)
    ensures ValidItems(TreeItems(e)) && UniqueInItems(TreeItems(e))
    ensures SpellItems(TreeItems(e)) == StringifyElements(e) && FromItems(TreeItems(e)) == e
    decreases e
  {
    hide Spell, Stringify, Tree, Valid, UniqueKeys, FromTree;
    if e.Element? {
      TreeIsExact(e.head);
      TreeItemsAreExact(e.tail);
      var tail := if e.tail.NoElements? then [CLOSE_BRACKET] else [COMMA] + StringifyElements(e.tail);
      ItemWithoutSpaces(Stringify(e.head), tail);
    }
  }

  lemma ItemWithoutSpaces(value: Text, tail: Text)
    ensures [] + (value + ([] + tail)) == value + tail
  {
  }

  lemma {:induction false} TreeMembersAreExact(e: Entries)
    requires WellFormedEntries(e) && AllFiniteEntries(e)
    ensures ValidMembers(TreeMembers(e)) && UniqueInMembers(TreeMembers(e))
    ensures SpellMembers(TreeMembers(e)) == StringifyEntries(e) && FromMembers(TreeMembers(e)) == e
    ensures Distinct(Keys(TreeMembers(e)))
    decreases e, 1
  {
    TreeKeys(e);
    if e.Entry? {
      hide Spell, Stringify, Tree, Valid, UniqueKeys, SpellString, Escape, Meaning, KeysOf, Keys, Distinct;
      EscapeIsExact(e.key);
      TreeIsExact(e.value);
      TreeMembersAreExact(e.rest);
      var tail := if e.rest.NoEntries? then [CLOSE_BRACE] else [COMMA] + StringifyEntries(e.rest);
      WithoutSpaces(SpellString(Escape(e.key)), Stringify(e.value), tail);
    }
  }

  lemma WithoutSpaces(key: Text, value: Text, tail: Text)
    ensures [] + (key + ([] + ([COLON] + ([] + (value + ([] + tail)))))) == key + ([COLON] + (value + tail))
  {
  }

  lemma {:induction false} TreeKeys(e: Entries)
    requires WellFormedEntries(e)
    ensures Distinct(Keys(TreeMembers(e))) && forall k :: k in Keys(TreeMembers(e)) <==> k in KeysOf(e)
    decreases e, 0
  {
    if e.Entry? {
      hide Tree, WellFormed, Escape, Meaning;
      EscapeIsExact(e.key);
      TreeKeys(e.rest);
      var keys, rest := Keys(TreeMembers(e)), Keys(TreeMembers(e.rest));
      assert keys == [e.key] + rest;
    }
  }

  /** Canonical text is a JSON text without repeated keys, so the recogniser accepts it, and it parses back. */
  lemma CanonicalTextReadsBack(v: Json)
    requires WellFormed(v) && AllFinite(v)
    ensures var t := Canonicalize(v).value;
            && (exists d :: ValidDocument(d) && SpellDocument(d) == t && UniqueKeys(d.value))
            && ParseJson(t) == Some(Normalize(v))
            && Denote(Normalize(v)) == Denote(v)
  {
    var n := Normalize(v);
    NormalizeKeeps(v);
    TreeIsExact(n);
    hide Spell, Stringify, Tree, Valid, UniqueKeys, Normalize;
    var d := Document([], Tree(n), []);
    assert [] + (Spell(Tree(n)) + []) == Stringify(n);
    assert ValidDocument(d) && SpellDocument(d) == Stringify(n);
    DocumentComplete(d);
  }

  /** Two values have the same canonical text exactly when they agree up to key order at every depth. */
  lemma CanonicalTextIsMeaning(a: Json, b: Json)
    requires WellFormed(a) && WellFormed(b) && AllFinite(a) && AllFinite(b)
    ensures Canonicalize(a) == Canonicalize(b) <==> Denote(a) == Denote(b)
  {
    CanonicalTextReadsBack(a);
    CanonicalTextReadsBack(b);
    hide ParseJson, Normalize;
    NormalizeKeeps(a);
    NormalizeKeeps(b);
    if Denote(a) == Denote(b) {
      NormalUnique(Normalize(a), Normalize(b));
    }
  }

  /** Normalizing twice changes nothing. */
  lemma NormalizeIsIdempotent(v: Json)
    requires WellFormed(v)
    ensures Normalize(Normalize(v)) == Normalize(v)
  {
    NormalizeKeeps(v);
    NormalizeKeeps(Normalize(v));
    NormalUnique(Normalize(Normalize(v)), Normalize(v));
  }
}
