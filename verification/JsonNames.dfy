/** Which character a spelling stands for, and that how a name is spelled makes no difference to the scanner. */
module JsonNames {
  import opened Basics
  import opened JsonText
  import opened JsonGrammar
  import opened JsonScanner
  import opened WireSizes

  // ---------------------------------------------------------- the characters

  function Ascii(s: string): Bytes {
    seq(|s|, i requires 0 <= i < |s| => if s[i] < 128 as char then s[i] as byte else 0)
  }

  /** The bytes of the grammar, as the characters RFC 8259 names. */
  lemma GrammarCharacters(b: byte)
    ensures IsWs(b) <==> b as char in " \t\n\r"
    ensures IsDigit(b) <==> b as char in "0123456789"
    ensures IsHex(b) <==> b as char in "0123456789abcdefABCDEF"
    ensures IsShort(b) <==> b as char in "\"\\/bfnrt"
    ensures TrueText == Ascii("true") && FalseText == Ascii("false") && NullText == Ascii("null")
    ensures PieceOk(Raw(b)) <==> b as int >= 32 && b as char != '\"' && b as char != '\\'
  {
  }

  // ------------------------------------------------------------ hex escapes

  function HexByte(v: nat, upper: bool): byte
    requires v < 16
  {
    if v < 10 then '0' as byte + v as byte else (if upper then 'A' else 'a') as byte + (v - 10) as byte
  }

  /** The four hex digits of `v`, each in either case. */
  function HexOf(v: nat, upper: seq<bool>): Bytes
    requires v < 0x10000 && |upper| == 4
  {
    [HexByte(v / 4096, upper[0]), HexByte(v / 256 % 16, upper[1]), HexByte(v / 16 % 16, upper[2]), HexByte(v % 16, upper[3])]
  }

  lemma HexByteValue(v: nat, upper: bool)
    requires v < 16
    ensures IsHex(HexByte(v, upper)) && HexDigit(HexByte(v, upper)) == v
  {
  }

  lemma FourDigits(a: byte, b: byte, c: byte, d: byte)
    ensures HexValue([a, b, c, d]) == 4096 * HexDigit(a) + 256 * HexDigit(b) + 16 * HexDigit(c) + HexDigit(d)
  {
    hide HexDigit;
    assert [a, b, c, d][..3] == [a, b, c] && [a, b, c][..2] == [a, b] && [a, b][..1] == [a] && [a][..0] == [];
    assert HexValue([a]) == HexDigit(a);
    assert HexValue([a, b]) == 16 * HexDigit(a) + HexDigit(b);
    assert HexValue([a, b, c]) == 16 * (16 * HexDigit(a) + HexDigit(b)) + HexDigit(c);
  }

  lemma Recompose(v: nat)
    requires v < 0x10000
    ensures v == 4096 * (v / 4096) + 256 * (v / 256 % 16) + 16 * (v / 16 % 16) + v % 16 && v / 4096 < 16
  {
    assert v / 16 / 16 == v / 256 && v / 256 / 16 == v / 4096;
  }

  /** The hex escape of any number below 0x10000 stands for that number, in any case of its digits, and is refused exactly
      for surrogates. */
  lemma HexEscapeDecodes(v: nat, upper: seq<bool>)
    requires v < 0x10000 && |upper| == 4
    ensures Scalar(Hex(HexOf(v, upper))) == v
    ensures PieceOk(Hex(HexOf(v, upper))) <==> !(0xD800 <= v <= 0xDFFF)
  {
    hide HexValue, HexDigit, HexByte, IsHex;
    var d := HexOf(v, upper);
    Recompose(v);
    HexByteValue(v / 4096, upper[0]);
    HexByteValue(v / 256 % 16, upper[1]);
    HexByteValue(v / 16 % 16, upper[2]);
    HexByteValue(v % 16, upper[3]);
    FourDigits(d[0], d[1], d[2], d[3]);
    assert d == [d[0], d[1], d[2], d[3]];
  }

  /** A hex digit is the digit of its value in one case or the other. */
  lemma HexByteOnly(b: byte) returns (upper: bool)
    requires IsHex(b)
    ensures HexDigit(b) < 16 && b == HexByte(HexDigit(b), upper)
  {
    upper := 0x41 <= b <= 0x46;
  }

  lemma Digits16(a: nat, b: nat, c: nat, d: nat)
    requires a < 16 && b < 16 && c < 16 && d < 16
    ensures var v := 4096 * a + 256 * b + 16 * c + d;
            v < 0x10000 && v / 4096 == a && v / 256 % 16 == b && v / 16 % 16 == c && v % 16 == d
  {
    var v := 4096 * a + 256 * b + 16 * c + d;
    assert v / 16 == 256 * a + 16 * b + c;
    assert v / 256 == 16 * a + b;
  }

  /** And every accepted hex escape is the escape of the number it stands for. */
  lemma HexEscapeOnly(digits: Bytes) returns (upper: seq<bool>)
    requires PieceOk(Hex(digits))
    ensures HexValue(digits) < 0x10000 && |upper| == 4 && digits == HexOf(HexValue(digits), upper)
  {
    hide HexValue, HexDigit, HexByte, IsHex;
    var u0 := HexByteOnly(digits[0]);
    var u1 := HexByteOnly(digits[1]);
    var u2 := HexByteOnly(digits[2]);
    var u3 := HexByteOnly(digits[3]);
    FourDigits(digits[0], digits[1], digits[2], digits[3]);
    assert digits == [digits[0], digits[1], digits[2], digits[3]];
    Digits16(HexDigit(digits[0]), HexDigit(digits[1]), HexDigit(digits[2]), HexDigit(digits[3]));
    upper := [u0, u1, u2, u3];
  }

  // -------------------------------------------------------------- spellings

  /** The two-character escapes: quotation mark, reverse solidus, solidus, backspace, form feed, line feed, carriage return
      and tab. */
  const ShortEscapes: map<char, nat> :=
    map['\"' := 0x22, '\\' := 0x5C, '/' := 0x2F, 'b' := 0x08, 'f' := 0x0C, 'n' := 0x0A, 'r' := 0x0D, 't' := 0x09]

  /** `p` is a way to write the character `v`: itself, its short escape, or its hex escape. */
  ghost predicate Spells(p: Piece, v: nat) {
    match p
    case Raw(b) => b as int == v && v >= 0x20 && v != 0x22 && v != 0x5C
    case Short(b) => b as char in ShortEscapes && ShortEscapes[b as char] == v
    case Hex(digits) => v < 0x10000 && !(0xD800 <= v <= 0xDFFF) && exists upper :: |upper| == 4 && digits == HexOf(v, upper)
  }

  lemma HexSpells(digits: Bytes, v: nat)
    ensures Spells(Hex(digits), v) <==> PieceOk(Hex(digits)) && Scalar(Hex(digits)) == v
  {
    hide HexValue, HexOf;
    if PieceOk(Hex(digits)) {
      var upper := HexEscapeOnly(digits);
      HexEscapeDecodes(HexValue(digits), upper);
    }
    if Spells(Hex(digits), v) {
      var upper :| |upper| == 4 && digits == HexOf(v, upper);
      HexEscapeDecodes(v, upper);
    }
  }

  /** A piece is accepted and stands for a character exactly when it is a spelling of it. */
  lemma SpellsIffScalar(p: Piece, v: nat)
    ensures Spells(p, v) <==> PieceOk(p) && Scalar(p) == v
  {
    if p.Hex? {
      HexSpells(p.digits, v);
    }
  }

  /** Each short escape spells the same character as its hex escape. */
  lemma ShortEqualsHex(c: char, upper: seq<bool>)
    requires c in ShortEscapes && |upper| == 4
    ensures PieceOk(Short(c as byte)) && PieceOk(Hex(HexOf(ShortEscapes[c], upper)))
    ensures Scalar(Short(c as byte)) == ShortEscapes[c] == Scalar(Hex(HexOf(ShortEscapes[c], upper)))
  {
    SpellsIffScalar(Short(c as byte), ShortEscapes[c]);
    HexEscapeDecodes(ShortEscapes[c], upper);
  }

  /** The escaped size of a byte is the length of its shortest spelling. */
  lemma EscapedSizeIsShortest(b: byte) returns (p: Piece)
    ensures Spells(p, b as int) && |PieceText(p)| == EscapedSize(b)
    ensures forall q | Spells(q, b as int) :: EscapedSize(b) <= |PieceText(q)|
  {
    if b == 0x22 || b == 0x5c {
      p := Short(b);
    } else if b >= 0x20 {
      p := Raw(b);
    } else if b == 0x08 {
      p := Short('b' as byte);
    } else if b == 0x09 {
      p := Short('t' as byte);
    } else if b == 0x0A {
      p := Short('n' as byte);
    } else if b == 0x0C {
      p := Short('f' as byte);
    } else if b == 0x0D {
      p := Short('r' as byte);
    } else {
      p := Hex(HexOf(b as int, [false, false, false, false]));
    }
    forall q | Spells(q, b as int)
      ensures EscapedSize(b) <= |PieceText(q)|
    {
      NoShorter(q, b);
    }
  }

  lemma NoShorter(q: Piece, b: byte)
    requires Spells(q, b as int)
    ensures EscapedSize(b) <= |PieceText(q)|
  {
    if q.Hex? {
      var upper :| |upper| == 4 && q.digits == HexOf(b as int, upper);
      assert |q.digits| == 4;
    }
  }

  /** No spelling of a string is shorter than its escaped length. */
  lemma {:induction false} NoShorterString(ps: seq<Piece>, s: Bytes)
    requires |ps| == |s| && forall i | 0 <= i < |s| :: Spells(ps[i], s[i] as int)
    ensures EscapedLength(s) <= |PiecesText(ps)|
    decreases |s|
  {
    hide Spells, PieceText, EscapedSize;
    if s != [] {
      var n := |s| - 1;
      NoShorterString(ps[..n], s[..n]);
      NoShorter(ps[n], s[n]);
      assert ps == ps[..n] + [ps[n]];
      PiecesSnoc(ps[..n], ps[n]);
    }
  }

  lemma {:induction false} PiecesSnoc(ps: seq<Piece>, p: Piece)
    ensures PiecesText(ps + [p]) == PiecesText(ps) + PieceText(p)
    decreases |ps|
  {
    hide PieceText;
    if ps == [] {
      assert ps + [p] == [p] && PiecesText([p]) == PieceText(p) + PiecesText([]);
    } else {
      PiecesSnoc(ps[1..], p);
      assert (ps + [p])[1..] == ps[1..] + [p];
    }
  }

  // -------------------------------------------------------------- respelling

  /** The same characters, each written in any of its ways. */
  ghost predicate SameName(ps: seq<Piece>, qs: seq<Piece>) {
    |ps| == |qs| && forall i | 0 <= i < |ps| :: SameCharacter(ps[i], qs[i])
  }

  ghost predicate SameCharacter(p: Piece, q: Piece) {
    exists v :: Spells(p, v) && Spells(q, v)
  }

  lemma SameCharacterScalar(p: Piece, q: Piece)
    ensures SameCharacter(p, q) <==> PieceOk(p) && PieceOk(q) && Scalar(p) == Scalar(q)
  {
    hide Spells, PieceOk, Scalar;
    forall v
      ensures Spells(p, v) <==> PieceOk(p) && Scalar(p) == v
      ensures Spells(q, v) <==> PieceOk(q) && Scalar(q) == v
    {
      SpellsIffScalar(p, v);
      SpellsIffScalar(q, v);
    }
    if PieceOk(p) && PieceOk(q) && Scalar(p) == Scalar(q) {
      assert Spells(p, Scalar(p)) && Spells(q, Scalar(p));
    }
  }

  lemma {:induction false} DecodedAt(ps: seq<Piece>)
    ensures |Decoded(ps)| == |ps| && forall i | 0 <= i < |ps| :: Decoded(ps)[i] == Scalar(ps[i])
  {
    hide Scalar;
    if ps != [] {
      DecodedAt(ps[1..]);
    }
  }

  /** Two accepted names have the same characters exactly when they are the same up to spelling. */
  lemma SameNameIffDecoded(ps: seq<Piece>, qs: seq<Piece>)
    ensures SameName(ps, qs) <==> PiecesOk(ps) && PiecesOk(qs) && Decoded(ps) == Decoded(qs)
  {
    hide SameCharacter, PieceOk, Scalar;
    DecodedAt(ps);
    DecodedAt(qs);
    if |ps| == |qs| {
      forall i | 0 <= i < |ps|
        ensures SameCharacter(ps[i], qs[i]) <==> PieceOk(ps[i]) && PieceOk(qs[i]) && Scalar(ps[i]) == Scalar(qs[i])
      {
        SameCharacterScalar(ps[i], qs[i]);
      }
      assert (forall i | 0 <= i < |ps| :: Scalar(ps[i]) == Scalar(qs[i])) ==> Decoded(ps) == Decoded(qs);
      assert Decoded(ps) == Decoded(qs) ==> forall i | 0 <= i < |ps| :: Scalar(ps[i]) == Decoded(ps)[i] == Decoded(qs)[i] == Scalar(qs[i]);
    }
  }

  /** The same objects with the same names, up to spelling; whitespace and everything that is not a name may differ. */
  ghost predicate Respelled(t: Json, u: Json) {
    match t
    case Array(items) => u.Array? && RespelledItems(items, u.items)
    case Object(members) => u.Object? && RespelledMembers(members, u.members)
    case _ => !u.Array? && !u.Object?
  }

  ghost predicate RespelledItems(a: Items, b: Items) {
    Respelled(a.value, b.value) && a.MoreItems? == b.MoreItems? && (a.MoreItems? ==> RespelledItems(a.rest, b.rest))
  }

  ghost predicate RespelledMembers(a: Members, b: Members) {
    && SameName(a.name, b.name) && Respelled(a.value, b.value)
    && a.MoreMembers? == b.MoreMembers? && (a.MoreMembers? ==> RespelledMembers(a.rest, b.rest))
  }

  lemma {:induction false} RespelledDuplicates(t: Json, u: Json, form: NameForm)
    requires Respelled(t, u)
    ensures HasDuplicates(t, form) == HasDuplicates(u, form)
    decreases t
  {
    hide Repeats, Names, SameName;
    match t
    case Array(items) => RespelledItemsDuplicates(items, u.items, form);
    case Object(members) => RespelledMembersDuplicates(members, u.members, form);
    case _ =>
  }

  lemma {:induction false} RespelledItemsDuplicates(a: Items, b: Items, form: NameForm)
    requires RespelledItems(a, b)
    ensures ItemsHaveDuplicates(a, form) == ItemsHaveDuplicates(b, form)
    decreases a
  {
    RespelledDuplicates(a.value, b.value, form);
    if a.MoreItems? {
      RespelledItemsDuplicates(a.rest, b.rest, form);
    }
  }

  lemma {:induction false} RespelledMembersDuplicates(a: Members, b: Members, form: NameForm)
    requires RespelledMembers(a, b)
    ensures Names(a, form) == Names(b, form) && ValuesHaveDuplicates(a, form) == ValuesHaveDuplicates(b, form)
    decreases a
  {
    hide SameName, Decoded;
    SameNameIffDecoded(a.name, b.name);
    RespelledDuplicates(a.value, b.value, form);
    if a.MoreMembers? {
      RespelledMembersDuplicates(a.rest, b.rest, form);
    }
  }

  /** Writing any character of any name in another of its ways, or spacing the document differently, does not change what
      the scanner answers. */
  lemma RespellingKeepsAnswer(d: Document, e: Document, form: NameForm)
    requires DocumentOk(d) && DocumentOk(e) && Respelled(d.value, e.value)
    ensures ScanResult(DocumentText(d), form) == ScanResult(DocumentText(e), form)
  {
    hide ScanResult, DocumentText, DocumentOk, HasDuplicates, Respelled;
    PrintedDocumentIsScanned(d, form);
    PrintedDocumentIsScanned(e, form);
    RespelledDuplicates(d.value, e.value, form);
  }

  /** An object that gives one member two names with the same characters is reported, however they are spelled. */
  lemma RespelledMemberIsDuplicate(lead: Bytes, name: seq<Piece>, again: seq<Piece>, form: NameForm)
    requires AllWs(lead) && SameName(name, again)
    ensures var d := Document(lead, Object(MoreMembers([], name, [], [], Null, [], LastMember([], again, [], [], Null, []))), []);
            DocumentOk(d) && ScanResult(DocumentText(d), form) == Some(true)
  {
    hide ScanResult, DocumentText, SameName, PiecesOk, Decoded;
    SameNameIffDecoded(name, again);
    var last := LastMember([], again, [], [], Null, []);
    var ms := MoreMembers([], name, [], [], Null, [], last);
    assert Names(last, form) == [form(Decoded(again))] && Names(ms, form) == [form(Decoded(name))] + Names(last, form);
    assert Names(ms, form)[0] == Names(ms, form)[1];
    assert MembersOk(ms) && JsonOk(Object(ms)) && HasDuplicates(Object(ms), form) by {
      assert MembersOk(last) && Repeats(Names(ms, form));
    }
    PrintedDocumentIsScanned(Document(lead, Object(ms), []), form);
  }

  // ---------------------------------------------------------- printed values

  /** How lists and objects are written. */
  lemma PrintedContainers(ws: Bytes, items: Items, ms: Members)
    ensures JsonBytes(EmptyArray(ws)) == ['[' as byte] + (ws + [']' as byte]) && JsonBytes(EmptyObject(ws)) == ['{' as byte] + (ws + ['}' as byte])
    ensures JsonBytes(Array(items)) == ['[' as byte] + ItemsText(items) && JsonBytes(Object(ms)) == ['{' as byte] + MembersText(ms)
    ensures items.LastItem? ==> ItemsText(items) == items.lead + (JsonBytes(items.value) + (items.trail + [']' as byte]))
    ensures items.MoreItems? ==> ItemsText(items) == items.lead + (JsonBytes(items.value) + (items.trail + ([',' as byte] + ItemsText(items.rest))))
    ensures ms.LastMember? ==> MembersText(ms) == ms.lead + (MemberHead(ms) + (JsonBytes(ms.value) + (ms.trail + ['}' as byte])))
    ensures ms.MoreMembers? ==>
              MembersText(ms) == ms.lead + (MemberHead(ms) + (JsonBytes(ms.value) + (ms.trail + ([',' as byte] + MembersText(ms.rest)))))
    ensures MemberHead(ms) == ['\"' as byte] + (PiecesText(ms.name) + (['\"' as byte] + (ms.gap + ([':' as byte] + ms.before))))
  {
    hide PiecesText;
  }

  /** How strings and numbers are written. */
  lemma PrintedScalars(c: byte, digits: Bytes, ps: seq<Piece>, n: Numeral)
    ensures PieceText(Raw(c)) == [c] && PieceText(Short(c)) == ['\\' as byte] + [c] && PieceText(Hex(digits)) == ['\\' as byte, 'u' as byte] + digits
    ensures JsonBytes(String(ps)) == ['\"' as byte] + (PiecesText(ps) + ['\"' as byte])
    ensures JsonBytes(Number(n)) ==
            (if n.minus then ['-' as byte] else []) + (n.whole + ((if n.fraction == [] then [] else ['.' as byte] + n.fraction) + ExponentText(n.exponent)))
    ensures NumeralOk(n) && n.exponent.Exponent? ==>
              && (n.exponent.mark == 'e' as byte || n.exponent.mark == 'E' as byte)
              && (n.exponent.sign == [] || n.exponent.sign == ['+' as byte] || n.exponent.sign == ['-' as byte])
  {
    hide PiecesText, ExponentText, AllDigits;
  }
}
