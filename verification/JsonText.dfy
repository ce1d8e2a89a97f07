/**
  Strict JSON as text: the grammar of RFC 8259 (sections 2 to 7) as trees that keep every choice of spelling, and a
  parser over bytes. Surrogate escapes are malformed, and bytes above 0x7F stand for the scalar of that value.
 */
module JsonText {
  import opened Basics

  // ------------------------------------------------------------------- trees

  /** One character of a string as spelled: the byte itself, a two-byte escape, or `\u` and four hex digits. */
  datatype Piece = Raw(b: byte) | Short(b: byte) | Hex(digits: Bytes)

  datatype Exponent = NoExponent | Exponent(mark: byte, sign: Bytes, digits: Bytes)

  /** An empty fraction stands for no point at all. */
  datatype Numeral = Numeral(minus: bool, whole: Bytes, fraction: Bytes, exponent: Exponent)

  datatype Json =
    | True | False | Null
    | Number(numeral: Numeral)
    | String(pieces: seq<Piece>)
    | EmptyArray(ws: Bytes)
    | Array(items: Items)
    | EmptyObject(ws: Bytes)
    | Object(members: Members)

  /** The whitespace before and after a value belongs to its place in the list. */
  datatype Items =
    | LastItem(lead: Bytes, value: Json, trail: Bytes)
    | MoreItems(lead: Bytes, value: Json, trail: Bytes, rest: Items)

  datatype Members =
    | LastMember(lead: Bytes, name: seq<Piece>, gap: Bytes, before: Bytes, value: Json, trail: Bytes)
    | MoreMembers(lead: Bytes, name: seq<Piece>, gap: Bytes, before: Bytes, value: Json, trail: Bytes, rest: Members)

  datatype Document = Document(lead: Bytes, value: Json, trail: Bytes)

  // ------------------------------------------------------------------- bytes

  predicate IsWs(b: byte) {
    b == 0x20 || b == 0x09 || b == 0x0a || b == 0x0d
  }

  predicate IsDigit(b: byte) {
    0x30 <= b <= 0x39
  }

  predicate IsHex(b: byte) {
    IsDigit(b) || 0x61 <= b <= 0x66 || 0x41 <= b <= 0x46
  }

  predicate IsShort(b: byte) {
    b == 0x22 || b == 0x5c || b == 0x2f || b == 0x62 || b == 0x66 || b == 0x6e || b == 0x72 || b == 0x74
  }

  predicate AllWs(ws: Bytes) {
    forall i | 0 <= i < |ws| :: IsWs(ws[i])
  }

  predicate AllDigits(ds: Bytes) {
    forall i | 0 <= i < |ds| :: IsDigit(ds[i])
  }

  function HexDigit(b: byte): nat {
    if IsDigit(b) then b as int - 0x30
    else if 0x41 <= b <= 0x46 then b as int - 0x37
    else if 0x61 <= b <= 0x66 then b as int - 0x57
    else 0
  }

  function HexValue(digits: Bytes): nat {
    if digits == [] then 0 else 16 * HexValue(digits[..|digits| - 1]) + HexDigit(digits[|digits| - 1])
  }

  predicate IsSurrogate(v: nat) {
    0xD800 <= v <= 0xDFFF
  }

  // ------------------------------------------------------------ well-formed trees

  predicate PieceOk(p: Piece) {
    match p
    case Raw(b) => b >= 0x20 && b != 0x22 && b != 0x5c
    case Short(b) => IsShort(b)
    case Hex(digits) => |digits| == 4 && (forall i | 0 <= i < 4 :: IsHex(digits[i])) && !IsSurrogate(HexValue(digits))
  }

  predicate PiecesOk(ps: seq<Piece>) {
    forall i | 0 <= i < |ps| :: PieceOk(ps[i])
  }

  predicate NumeralOk(n: Numeral) {
    && n.whole != [] && AllDigits(n.whole) && (n.whole[0] == 0x30 ==> |n.whole| == 1) && AllDigits(n.fraction)
    && (n.exponent.Exponent? ==>
          && (n.exponent.mark == 0x65 || n.exponent.mark == 0x45)
          && (n.exponent.sign == [] || n.exponent.sign == [0x2b] || n.exponent.sign == [0x2d])
          && n.exponent.digits != [] && AllDigits(n.exponent.digits))
  }

  predicate JsonOk(t: Json) {
    match t
    case Number(n) => NumeralOk(n)
    case String(ps) => PiecesOk(ps)
    case EmptyArray(ws) => AllWs(ws)
    case Array(items) => ItemsOk(items)
    case EmptyObject(ws) => AllWs(ws)
    case Object(members) => MembersOk(members)
    case _ => true
  }

  predicate ItemsOk(items: Items) {
    && AllWs(items.lead) && JsonOk(items.value) && AllWs(items.trail)
    && (items.MoreItems? ==> ItemsOk(items.rest))
  }

  predicate MembersOk(ms: Members) {
    && AllWs(ms.lead) && PiecesOk(ms.name) && AllWs(ms.gap) && AllWs(ms.before) && JsonOk(ms.value) && AllWs(ms.trail)
    && (ms.MoreMembers? ==> MembersOk(ms.rest))
  }

  predicate DocumentOk(d: Document) {
    AllWs(d.lead) && JsonOk(d.value) && AllWs(d.trail)
  }

  // -------------------------------------------------------------- printed form

  function PieceText(p: Piece): Bytes {
    match p
    case Raw(b) => [b]
    case Short(b) => [0x5c, b]
    case Hex(digits) => [0x5c, 0x75] + digits
  }

  function PiecesText(ps: seq<Piece>): Bytes {
    if ps == [] then [] else PieceText(ps[0]) + PiecesText(ps[1..])
  }

  function ExponentText(e: Exponent): Bytes {
    match e
    case NoExponent => []
    case Exponent(mark, sign, digits) => [mark] + (sign + digits)
  }

  function FractionText(fraction: Bytes): Bytes {
    if fraction == [] then [] else [0x2e] + fraction
  }

  function NumeralText(n: Numeral): Bytes {
    (if n.minus then [0x2d] else []) + (n.whole + (FractionText(n.fraction) + ExponentText(n.exponent)))
  }

  const TrueText: Bytes := [0x74, 0x72, 0x75, 0x65]
  const FalseText: Bytes := [0x66, 0x61, 0x6c, 0x73, 0x65]
  const NullText: Bytes := [0x6e, 0x75, 0x6c, 0x6c]

  function JsonBytes(t: Json): Bytes {
    match t
    case True => TrueText
    case False => FalseText
    case Null => NullText
    case Number(n) => NumeralText(n)
    case String(ps) => [0x22] + (PiecesText(ps) + [0x22])
    case EmptyArray(ws) => [0x5b] + (ws + [0x5d])
    case Array(items) => [0x5b] + ItemsText(items)
    case EmptyObject(ws) => [0x7b] + (ws + [0x7d])
    case Object(members) => [0x7b] + MembersText(members)
  }

  /** The items with their closing bracket. */
  function ItemsText(items: Items): Bytes {
    items.lead + (JsonBytes(items.value) + (items.trail +
      if items.LastItem? then [0x5d] else [0x2c] + ItemsText(items.rest)))
  }

  function MemberHead(ms: Members): Bytes {
    [0x22] + (PiecesText(ms.name) + ([0x22] + (ms.gap + ([0x3a] + ms.before))))
  }

  function MembersText(ms: Members): Bytes {
    ms.lead + (MemberHead(ms) + (JsonBytes(ms.value) + (ms.trail +
      if ms.LastMember? then [0x7d] else [0x2c] + MembersText(ms.rest))))
  }

  function DocumentText(d: Document): Bytes {
    d.lead + (JsonBytes(d.value) + d.trail)
  }

  // ------------------------------------------------------------- member names

  type Name = seq<nat>

  /** The Unicode scalar a piece stands for. */
  function Scalar(p: Piece): nat {
    match p
    case Raw(b) => b as int
    case Short(b) =>
      if b == 0x62 then 8 else if b == 0x66 then 12 else if b == 0x6e then 10 else if b == 0x72 then 13
      else if b == 0x74 then 9 else b as int
    case Hex(digits) => HexValue(digits)
  }

  function Decoded(ps: seq<Piece>): Name {
    if ps == [] then [] else [Scalar(ps[0])] + Decoded(ps[1..])
  }

  /** Names are compared by a canonical form: two names are the same when their forms are. Any function may be it; for ASCII
      names every canonical form is the name itself. */
  type NameForm = Name -> Name

  function Names(ms: Members, form: NameForm): seq<Name> {
    [form(Decoded(ms.name))] + if ms.MoreMembers? then Names(ms.rest, form) else []
  }

  ghost predicate Repeats(names: seq<Name>) {
    exists i, j :: 0 <= i < j < |names| && names[i] == names[j]
  }

  /** Some object, at any depth, repeats a decoded member name. */
  ghost predicate HasDuplicates(t: Json, form: NameForm) {
    match t
    case Array(items) => ItemsHaveDuplicates(items, form)
    case Object(members) => Repeats(Names(members, form)) || ValuesHaveDuplicates(members, form)
    case _ => false
  }

  ghost predicate ItemsHaveDuplicates(items: Items, form: NameForm) {
    HasDuplicates(items.value, form) || (items.MoreItems? && ItemsHaveDuplicates(items.rest, form))
  }

  ghost predicate ValuesHaveDuplicates(ms: Members, form: NameForm) {
    HasDuplicates(ms.value, form) || (ms.MoreMembers? && ValuesHaveDuplicates(ms.rest, form))
  }

  // ------------------------------------------------------------------ parsing

  datatype Parsed<T> = Malformed | Parsed(tree: T, next: nat)

  predicate Is(s: Bytes, i: nat, b: byte) {
    i < |s| && s[i] == b
  }

  predicate DigitAt(s: Bytes, i: nat) {
    i < |s| && IsDigit(s[i])
  }

  function SkipWs(s: Bytes, i: nat): (j: nat)
    requires i <= |s|
    ensures i <= j <= |s|
    decreases |s| - i
  {
    if i < |s| && IsWs(s[i]) then SkipWs(s, i + 1) else i
  }

  function SkipDigits(s: Bytes, i: nat): (j: nat)
    requires i <= |s|
    ensures i <= j <= |s|
    decreases |s| - i
  {
    if DigitAt(s, i) then SkipDigits(s, i + 1) else i
  }

  function ParsePiece(s: Bytes, i: nat): (r: Option<Piece>)
    requires i < |s|
    ensures r.Some? ==> PieceOk(r.value) && i + |PieceText(r.value)| <= |s|
  {
    if s[i] < 0x20 || s[i] == 0x22 then None
    else if s[i] != 0x5c then Some(Raw(s[i]))
    else if i + 1 >= |s| then None
    else if IsShort(s[i + 1]) then Some(Short(s[i + 1]))
    else if s[i + 1] == 0x75 && i + 6 <= |s| then
      var digits := s[i + 2..i + 6];
      if (forall k | 0 <= k < 4 :: IsHex(digits[k])) && !IsSurrogate(HexValue(digits)) then Some(Hex(digits)) else None
    else None
  }

  /** The rest of a string, through its closing quote. */
  function ParsePieces(s: Bytes, i: nat): (r: Parsed<seq<Piece>>)
    requires i <= |s|
    ensures r.Parsed? ==> i < r.next <= |s| && PiecesOk(r.tree)
    decreases |s| - i
  {
    if i == |s| then Malformed
    else if s[i] == 0x22 then Parsed([], i + 1)
    else
      var p := ParsePiece(s, i);
      if p.None? then Malformed
      else
        var rest := ParsePieces(s, i + |PieceText(p.value)|);
        if rest.Malformed? then Malformed else Parsed([p.value] + rest.tree, rest.next)
  }

  function ParseString(s: Bytes, i: nat): (r: Parsed<seq<Piece>>)
    requires i <= |s|
    ensures r.Parsed? ==> i < r.next <= |s| && PiecesOk(r.tree)
  {
    if Is(s, i, 0x22) then ParsePieces(s, i + 1) else Malformed
  }

  /** At least one digit. */
  function ParseDigits(s: Bytes, i: nat): (r: Parsed<Bytes>)
    requires i <= |s|
    ensures r.Parsed? ==> i < r.next <= |s| && r.tree == s[i..r.next]
  {
    if DigitAt(s, i) then Parsed(s[i..SkipDigits(s, i)], SkipDigits(s, i)) else Malformed
  }

  function ParseWhole(s: Bytes, i: nat): (r: Parsed<Bytes>)
    requires i <= |s|
    ensures r.Parsed? ==> i < r.next <= |s| && r.tree == s[i..r.next]
  {
    if Is(s, i, 0x30) then Parsed([0x30], i + 1) else ParseDigits(s, i)
  }

  function ParseFraction(s: Bytes, i: nat): (r: Parsed<Bytes>)
    requires i <= |s|
    ensures r.Parsed? ==> i <= r.next <= |s|
  {
    if Is(s, i, 0x2e) then ParseDigits(s, i + 1) else Parsed([], i)
  }

  function ParseExponent(s: Bytes, i: nat): (r: Parsed<Exponent>)
    requires i <= |s|
    ensures r.Parsed? ==> i <= r.next <= |s|
  {
    if !Is(s, i, 0x65) && !Is(s, i, 0x45) then Parsed(NoExponent, i) else
    var k := if Is(s, i + 1, 0x2b) || Is(s, i + 1, 0x2d) then i + 2 else i + 1;
    var digits := ParseDigits(s, k);
    if digits.Malformed? then Malformed else Parsed(Exponent(s[i], s[i + 1..k], digits.tree), digits.next)
  }

  function ParseNumeral(s: Bytes, i: nat): (r: Parsed<Numeral>)
    requires i <= |s|
    ensures r.Parsed? ==> i < r.next <= |s|
  {
    var whole := ParseWhole(s, if Is(s, i, 0x2d) then i + 1 else i);
    if whole.Malformed? then Malformed else
    var fraction := ParseFraction(s, whole.next);
    if fraction.Malformed? then Malformed else
    var exponent := ParseExponent(s, fraction.next);
    if exponent.Malformed? then Malformed
    else Parsed(Numeral(Is(s, i, 0x2d), whole.tree, fraction.tree, exponent.tree), exponent.next)
  }

  predicate StartsWith(s: Bytes, i: nat, text: Bytes) {
    i + |text| <= |s| && s[i..i + |text|] == text
  }

  function ParseLiteral(s: Bytes, i: nat, text: Bytes, t: Json): (r: Parsed<Json>)
    ensures r.Parsed? ==> r.next == i + |text| <= |s|
  {
    if StartsWith(s, i, text) then Parsed(t, i + |text|) else Malformed
  }

  /** A value without the whitespace around it. */
  function ParseValue(s: Bytes, i: nat): (r: Parsed<Json>)
    requires i <= |s|
    ensures r.Parsed? ==> i < r.next <= |s|
    decreases |s| - i, 0
  {
    if i == |s| then Malformed
    else if s[i] == 0x7b then ParseObject(s, i)
    else if s[i] == 0x5b then ParseArray(s, i)
    else if s[i] == 0x22 then
      var r := ParseString(s, i);
      if r.Malformed? then Malformed else Parsed(String(r.tree), r.next)
    else if s[i] == 0x74 then ParseLiteral(s, i, TrueText, True)
    else if s[i] == 0x66 then ParseLiteral(s, i, FalseText, False)
    else if s[i] == 0x6e then ParseLiteral(s, i, NullText, Null)
    else if s[i] == 0x2d || IsDigit(s[i]) then
      var r := ParseNumeral(s, i);
      if r.Malformed? then Malformed else Parsed(Number(r.tree), r.next)
    else Malformed
  }

  function ParseArray(s: Bytes, i: nat): (r: Parsed<Json>)
    requires i < |s|
    ensures r.Parsed? ==> i < r.next <= |s|
    decreases |s| - i - 1, 2
  {
    var j := SkipWs(s, i + 1);
    if Is(s, j, 0x5d) then Parsed(EmptyArray(s[i + 1..j]), j + 1) else
    var r := ParseItems(s, i + 1);
    if r.Malformed? then Malformed else Parsed(Array(r.tree), r.next)
  }

  /** Items through the closing bracket. */
  function ParseItems(s: Bytes, i: nat): (r: Parsed<Items>)
    requires i <= |s|
    ensures r.Parsed? ==> i < r.next <= |s|
    decreases |s| - i, 1
  {
    var j := SkipWs(s, i);
    var v := ParseValue(s, j);
    if v.Malformed? then Malformed else
    var k := SkipWs(s, v.next);
    if Is(s, k, 0x5d) then Parsed(LastItem(s[i..j], v.tree, s[v.next..k]), k + 1)
    else if !Is(s, k, 0x2c) then Malformed
    else
      var rest := ParseItems(s, k + 1);
      if rest.Malformed? then Malformed else Parsed(MoreItems(s[i..j], v.tree, s[v.next..k], rest.tree), rest.next)
  }

  function ParseObject(s: Bytes, i: nat): (r: Parsed<Json>)
    requires i < |s|
    ensures r.Parsed? ==> i < r.next <= |s|
    decreases |s| - i - 1, 2
  {
    var j := SkipWs(s, i + 1);
    if Is(s, j, 0x7d) then Parsed(EmptyObject(s[i + 1..j]), j + 1) else
    var r := ParseMembers(s, i + 1);
    if r.Malformed? then Malformed else Parsed(Object(r.tree), r.next)
  }

  datatype Head = Head(name: seq<Piece>, gap: Bytes, before: Bytes)

  /** A member up to its value: the name, the colon and the whitespace around it. */
  function ParseHead(s: Bytes, i: nat): (r: Parsed<Head>)
    requires i <= |s|
    ensures r.Parsed? ==> i < r.next <= |s| && PiecesOk(r.tree.name)
  {
    var name := ParseString(s, i);
    if name.Malformed? then Malformed else
    var j := SkipWs(s, name.next);
    if !Is(s, j, 0x3a) then Malformed else
    var k := SkipWs(s, j + 1);
    Parsed(Head(name.tree, s[name.next..j], s[j + 1..k]), k)
  }

  function ParseMembers(s: Bytes, i: nat): (r: Parsed<Members>)
    requires i <= |s|
    ensures r.Parsed? ==> i < r.next <= |s|
    decreases |s| - i, 1
  {
    var j := SkipWs(s, i);
    var h := ParseHead(s, j);
    if h.Malformed? then Malformed else
    var v := ParseValue(s, h.next);
    if v.Malformed? then Malformed else
    var k := SkipWs(s, v.next);
    if Is(s, k, 0x7d) then Parsed(LastMember(s[i..j], h.tree.name, h.tree.gap, h.tree.before, v.tree, s[v.next..k]), k + 1)
    else if !Is(s, k, 0x2c) then Malformed
    else
      var rest := ParseMembers(s, k + 1);
      if rest.Malformed? then Malformed
      else Parsed(MoreMembers(s[i..j], h.tree.name, h.tree.gap, h.tree.before, v.tree, s[v.next..k], rest.tree), rest.next)
  }

  function ParseDocument(s: Bytes): Parsed<Document> {
    var j := SkipWs(s, 0);
    var v := ParseValue(s, j);
    if v.Malformed? then Malformed else
    var k := SkipWs(s, v.next);
    if k == |s| then Parsed(Document(s[..j], v.tree, s[v.next..]), k) else Malformed
  }
}
