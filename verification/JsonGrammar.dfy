/** The parser accepts exactly the printed forms of well-formed trees, and gives back the tree that was printed. */
module JsonGrammar {
  import opened Basics
  import opened JsonText

  lemma StartsJoin(s: Bytes, i: nat, a: Bytes, b: Bytes)
    ensures StartsWith(s, i, a + b) <==> StartsWith(s, i, a) && StartsWith(s, i + |a|, b)
  {
    if StartsWith(s, i, a + b) {
      assert s[i..i + |a|] == (a + b)[..|a|] == a;
      assert s[i + |a|..i + |a| + |b|] == (a + b)[|a|..] == b;
    }
  }

  lemma StartsJoin4(s: Bytes, i: nat, a: Bytes, b: Bytes, c: Bytes, d: Bytes)
    ensures StartsWith(s, i, a + (b + (c + d))) <==>
            StartsWith(s, i, a) && StartsWith(s, i + |a|, b) && StartsWith(s, i + |a| + |b|, c) && StartsWith(s, i + |a| + |b| + |c|, d)
  {
    hide StartsWith;
    StartsJoin(s, i, a, b + (c + d));
    StartsJoin(s, i + |a|, b, c + d);
    StartsJoin(s, i + |a| + |b|, c, d);
  }

  lemma Sliced(s: Bytes, i: nat, j: nat)
    requires i <= j <= |s|
    ensures StartsWith(s, i, s[i..j])
  {
  }

  lemma ByteAt(s: Bytes, i: nat, b: byte)
    requires Is(s, i, b)
    ensures StartsWith(s, i, [b])
  {
  }

  predicate WsAt(s: Bytes, i: nat) {
    i < |s| && IsWs(s[i])
  }

  // --------------------------------------------------------------- soundness

  lemma {:induction false} SkipWsSound(s: Bytes, i: nat)
    requires i <= |s|
    ensures AllWs(s[i..SkipWs(s, i)]) && !WsAt(s, SkipWs(s, i))
    decreases |s| - i
  {
    if WsAt(s, i) {
      SkipWsSound(s, i + 1);
      assert s[i..SkipWs(s, i)] == [s[i]] + s[i + 1..SkipWs(s, i + 1)];
    }
  }

  lemma {:induction false} SkipDigitsSound(s: Bytes, i: nat)
    requires i <= |s|
    ensures AllDigits(s[i..SkipDigits(s, i)]) && !DigitAt(s, SkipDigits(s, i))
    decreases |s| - i
  {
    if DigitAt(s, i) {
      SkipDigitsSound(s, i + 1);
      assert s[i..SkipDigits(s, i)] == [s[i]] + s[i + 1..SkipDigits(s, i + 1)];
    }
  }

  lemma {:induction false} PiecesSound(s: Bytes, i: nat)
    requires i <= |s| && ParsePieces(s, i).Parsed?
    ensures var r := ParsePieces(s, i); StartsWith(s, i, PiecesText(r.tree) + [0x22]) && r.next == i + |PiecesText(r.tree)| + 1
    decreases |s| - i
  {
    hide PieceOk, PieceText, ParsePiece, StartsWith;
    if s[i] == 0x22 {
      ByteAt(s, i, 0x22);
      assert PiecesText([]) + [0x22] == [0x22];
    } else {
      var p := ParsePiece(s, i).value;
      PieceSound(s, i);
      var r := ParsePieces(s, i + |PieceText(p)|);
      PiecesSound(s, i + |PieceText(p)|);
      StartsJoin(s, i, PieceText(p), PiecesText(r.tree) + [0x22]);
      PiecesCons(p, r.tree);
    }
  }

  lemma PiecesCons(p: Piece, ps: seq<Piece>)
    ensures PiecesText([p] + ps) == PieceText(p) + PiecesText(ps)
    ensures PieceText(p) + (PiecesText(ps) + [0x22]) == PiecesText([p] + ps) + [0x22]
  {
    assert ([p] + ps)[1..] == ps;
  }

  lemma PieceSound(s: Bytes, i: nat)
    requires i < |s| && ParsePiece(s, i).Some?
    ensures StartsWith(s, i, PieceText(ParsePiece(s, i).value))
  {
    hide IsSurrogate, HexValue;
  }

  lemma StringSound(s: Bytes, i: nat)
    requires i <= |s| && ParseString(s, i).Parsed?
    ensures var r := ParseString(s, i); var text := [0x22] + (PiecesText(r.tree) + [0x22]);
            StartsWith(s, i, text) && r.next == i + |text|
  {
    hide ParsePieces;
    var r := ParseString(s, i);
    PiecesSound(s, i + 1);
    StartsJoin(s, i, [0x22], PiecesText(r.tree) + [0x22]);
  }

  lemma WholeSound(s: Bytes, i: nat)
    requires i <= |s| && ParseWhole(s, i).Parsed?
    ensures var r := ParseWhole(s, i);
            && r.tree != [] && AllDigits(r.tree) && (r.tree[0] == 0x30 ==> |r.tree| == 1)
            && StartsWith(s, i, r.tree) && r.next == i + |r.tree|
  {
    SkipDigitsSound(s, i);
  }

  lemma DigitsSound(s: Bytes, i: nat)
    requires i <= |s| && ParseDigits(s, i).Parsed?
    ensures var r := ParseDigits(s, i); r.tree != [] && AllDigits(r.tree) && StartsWith(s, i, r.tree) && r.next == i + |r.tree|
  {
    hide StartsWith;
    SkipDigitsSound(s, i);
    Sliced(s, i, SkipDigits(s, i));
  }

  lemma FractionSound(s: Bytes, i: nat)
    requires i <= |s| && ParseFraction(s, i).Parsed?
    ensures var r := ParseFraction(s, i); var text := FractionText(r.tree);
            AllDigits(r.tree) && StartsWith(s, i, text) && r.next == i + |text|
  {
    if Is(s, i, 0x2e) {
      SkipDigitsSound(s, i + 1);
      StartsJoin(s, i, [0x2e], ParseFraction(s, i).tree);
    }
  }

  lemma SignSound(s: Bytes, i: nat, k: nat)
    requires i <= k <= |s| && (k == i || (k == i + 1 && (s[i] == 0x2b || s[i] == 0x2d)))
    ensures StartsWith(s, i, s[i..k]) && (s[i..k] == [] || s[i..k] == [0x2b] || s[i..k] == [0x2d])
  {
  }

  lemma ExponentSound(s: Bytes, i: nat)
    requires i <= |s| && ParseExponent(s, i).Parsed?
    ensures var r := ParseExponent(s, i); var text := ExponentText(r.tree);
            && StartsWith(s, i, text) && r.next == i + |text|
            && NumeralOk(Numeral(false, [0x30], [], r.tree))
  {
    hide StartsWith, ParseDigits, AllDigits;
    var r := ParseExponent(s, i);
    ZeroIsDigits();
    if r.tree.Exponent? {
      var k := i + 1 + |r.tree.sign|;
      DigitsSound(s, k);
      ByteAt(s, i, r.tree.mark);
      SignSound(s, i + 1, k);
      StartsJoin(s, i + 1, r.tree.sign, r.tree.digits);
      StartsJoin(s, i, [r.tree.mark], r.tree.sign + r.tree.digits);
    } else {
      Sliced(s, i, i);
      assert s[i..i] == [];
    }
  }

  lemma ZeroIsDigits()
    ensures AllDigits([0x30]) && AllDigits([])
  {
  }

  lemma NumeralSound(s: Bytes, i: nat)
    requires i <= |s| && ParseNumeral(s, i).Parsed?
    ensures var r := ParseNumeral(s, i);
            NumeralOk(r.tree) && StartsWith(s, i, NumeralText(r.tree)) && r.next == i + |NumeralText(r.tree)|
  {
    hide ParseWhole, ParseFraction, ParseExponent, FractionText, ExponentText, StartsWith;
    var r := ParseNumeral(s, i);
    var n := r.tree;
    var sign := if n.minus then [0x2d] else [];
    var whole := ParseWhole(s, i + |sign|);
    if n.minus {
      ByteAt(s, i, 0x2d);
    } else {
      Sliced(s, i, i);
      assert s[i..i] == [];
    }
    WholeSound(s, i + |sign|);
    FractionSound(s, whole.next);
    var fraction := ParseFraction(s, whole.next);
    ExponentSound(s, fraction.next);
    StartsJoin(s, whole.next, FractionText(n.fraction), ExponentText(n.exponent));
    StartsJoin(s, i + |sign|, n.whole, FractionText(n.fraction) + ExponentText(n.exponent));
    StartsJoin(s, i, sign, n.whole + (FractionText(n.fraction) + ExponentText(n.exponent)));
  }

  lemma {:induction false} ValueSound(s: Bytes, i: nat)
    requires i <= |s| && ParseValue(s, i).Parsed?
    ensures var r := ParseValue(s, i); JsonOk(r.tree) && StartsWith(s, i, JsonBytes(r.tree)) && r.next == i + |JsonBytes(r.tree)|
    decreases |s| - i, 0
  {
    hide ParseArray, ParseObject, ParseString, ParseNumeral, NumeralText, PiecesText, NumeralOk, PiecesOk, ItemsText, MembersText;
    if s[i] == 0x7b {
      ObjectSound(s, i);
    } else if s[i] == 0x5b {
      ArraySound(s, i);
    } else if s[i] == 0x22 {
      StringSound(s, i);
    } else if s[i] == 0x2d || IsDigit(s[i]) {
      NumeralSound(s, i);
    }
  }

  lemma {:induction false} ArraySound(s: Bytes, i: nat)
    requires i < |s| && s[i] == 0x5b && ParseArray(s, i).Parsed?
    ensures var r := ParseArray(s, i); JsonOk(r.tree) && StartsWith(s, i, JsonBytes(r.tree)) && r.next == i + |JsonBytes(r.tree)|
    decreases |s| - i - 1, 2
  {
    hide ParseItems, ItemsText, SkipWs, StartsWith, AllWs;
    var j := SkipWs(s, i + 1);
    SkipWsSound(s, i + 1);
    ByteAt(s, i, 0x5b);
    if Is(s, j, 0x5d) {
      ByteAt(s, j, 0x5d);
      Sliced(s, i + 1, j);
      StartsJoin(s, i + 1, s[i + 1..j], [0x5d]);
      StartsJoin(s, i, [0x5b], s[i + 1..j] + [0x5d]);
    } else {
      ItemsSound(s, i + 1);
      StartsJoin(s, i, [0x5b], ItemsText(ParseItems(s, i + 1).tree));
    }
  }

  lemma {:induction false} ItemsSound(s: Bytes, i: nat)
    requires i <= |s| && ParseItems(s, i).Parsed?
    ensures var r := ParseItems(s, i); ItemsOk(r.tree) && StartsWith(s, i, ItemsText(r.tree)) && r.next == i + |ItemsText(r.tree)|
    decreases |s| - i, 1
  {
    hide ParseValue, JsonOk, JsonBytes, SkipWs, StartsWith, AllWs;
    var r := ParseItems(s, i);
    var j := SkipWs(s, i);
    SkipWsSound(s, i);
    ValueSound(s, j);
    var v := ParseValue(s, j);
    var k := SkipWs(s, v.next);
    SkipWsSound(s, v.next);
    var end := [0x5d];
    if r.tree.MoreItems? {
      ItemsSound(s, k + 1);
      end := [0x2c] + ItemsText(r.tree.rest);
      StartsJoin(s, k, [0x2c], ItemsText(r.tree.rest));
    }
    Sliced(s, i, j);
    Sliced(s, v.next, k);
    ByteAt(s, k, if r.tree.LastItem? then 0x5d else 0x2c);
    StartsJoin4(s, i, r.tree.lead, JsonBytes(v.tree), r.tree.trail, end);
  }

  lemma {:induction false} ObjectSound(s: Bytes, i: nat)
    requires i < |s| && s[i] == 0x7b && ParseObject(s, i).Parsed?
    ensures var r := ParseObject(s, i); JsonOk(r.tree) && StartsWith(s, i, JsonBytes(r.tree)) && r.next == i + |JsonBytes(r.tree)|
    decreases |s| - i - 1, 2
  {
    hide ParseMembers, MembersText, SkipWs, StartsWith, AllWs;
    var j := SkipWs(s, i + 1);
    SkipWsSound(s, i + 1);
    ByteAt(s, i, 0x7b);
    if Is(s, j, 0x7d) {
      ByteAt(s, j, 0x7d);
      Sliced(s, i + 1, j);
      StartsJoin(s, i + 1, s[i + 1..j], [0x7d]);
      StartsJoin(s, i, [0x7b], s[i + 1..j] + [0x7d]);
    } else {
      MembersSound(s, i + 1);
      StartsJoin(s, i, [0x7b], MembersText(ParseMembers(s, i + 1).tree));
    }
  }

  function HeadText(h: Head): Bytes {
    [0x22] + (PiecesText(h.name) + ([0x22] + (h.gap + ([0x3a] + h.before))))
  }

  lemma SameHead(ms: Members)
    ensures MemberHead(ms) == HeadText(Head(ms.name, ms.gap, ms.before))
  {
  }

  lemma HeadSound(s: Bytes, i: nat)
    requires i <= |s| && ParseHead(s, i).Parsed?
    ensures var r := ParseHead(s, i);
            && AllWs(r.tree.gap) && AllWs(r.tree.before) && StartsWith(s, i, HeadText(r.tree)) && r.next == i + |HeadText(r.tree)|
  {
    hide ParseString, PiecesText, SkipWs, StartsWith, AllWs;
    var h := ParseHead(s, i).tree;
    var name := ParseString(s, i);
    var quoted := [0x22] + (PiecesText(h.name) + [0x22]);
    StringSound(s, i);
    SkipWsSound(s, name.next);
    var j := SkipWs(s, name.next);
    SkipWsSound(s, j + 1);
    Sliced(s, name.next, j);
    ByteAt(s, j, 0x3a);
    Sliced(s, j + 1, SkipWs(s, j + 1));
    var colon := [0x3a] + h.before;
    StartsJoin(s, j, [0x3a], h.before);
    StartsJoin(s, name.next, h.gap, colon);
    StartsJoin(s, i, quoted, h.gap + colon);
    assert quoted + (h.gap + colon) == HeadText(h);
  }

  lemma {:induction false} MembersSound(s: Bytes, i: nat)
    requires i <= |s| && ParseMembers(s, i).Parsed?
    ensures var r := ParseMembers(s, i); MembersOk(r.tree) && StartsWith(s, i, MembersText(r.tree)) && r.next == i + |MembersText(r.tree)|
    decreases |s| - i, 1
  {
    hide ParseValue, ParseHead, JsonOk, JsonBytes, SkipWs, PiecesText, StartsWith, AllWs, HeadText;
    var r := ParseMembers(s, i);
    var j := SkipWs(s, i);
    SkipWsSound(s, i);
    var h := ParseHead(s, j);
    HeadSound(s, j);
    ValueSound(s, h.next);
    var v := ParseValue(s, h.next);
    var k := SkipWs(s, v.next);
    SkipWsSound(s, v.next);
    var end := [0x7d];
    if r.tree.MoreMembers? {
      MembersSound(s, k + 1);
      end := [0x2c] + MembersText(r.tree.rest);
      StartsJoin(s, k, [0x2c], MembersText(r.tree.rest));
    }
    Sliced(s, i, j);
    Sliced(s, v.next, k);
    ByteAt(s, k, if r.tree.LastMember? then 0x7d else 0x2c);
    SameHead(r.tree);
    StartsJoin4(s, j, HeadText(h.tree), JsonBytes(v.tree), r.tree.trail, end);
    StartsJoin(s, i, r.tree.lead, HeadText(h.tree) + (JsonBytes(v.tree) + (r.tree.trail + end)));
  }

  /** What the parser accepts is the printed form of the well-formed tree it returns. */
  lemma DocumentSound(s: Bytes)
    requires ParseDocument(s).Parsed?
    ensures var d := ParseDocument(s).tree; DocumentOk(d) && DocumentText(d) == s
  {
    hide ParseValue, JsonOk, JsonBytes, SkipWs;
    hide StartsWith, AllWs;
    var d := ParseDocument(s).tree;
    var j := SkipWs(s, 0);
    var k := ParseValue(s, j).next;
    SkipWsSound(s, 0);
    ValueSound(s, j);
    SkipWsSound(s, k);
    SliceIs(s, j, JsonBytes(d.value));
    assert s[0..j] == d.lead && s[k..|s|] == d.trail;
    assert s == s[..j] + (s[j..k] + s[k..]);
  }

  // ------------------------------------------------------------- completeness

  lemma {:induction false} SkipWsExact(s: Bytes, i: nat, ws: Bytes)
    requires StartsWith(s, i, ws) && AllWs(ws) && !WsAt(s, i + |ws|)
    ensures SkipWs(s, i) == i + |ws|
    decreases |ws|
  {
    if ws != [] {
      assert s[i] == s[i..i + |ws|][0];
      assert s[i + 1..i + |ws|] == s[i..i + |ws|][1..];
      SkipWsExact(s, i + 1, ws[1..]);
    }
  }

  lemma {:induction false} SkipDigitsExact(s: Bytes, i: nat, ds: Bytes)
    requires StartsWith(s, i, ds) && AllDigits(ds) && !DigitAt(s, i + |ds|)
    ensures SkipDigits(s, i) == i + |ds|
    decreases |ds|
  {
    if ds != [] {
      assert s[i] == s[i..i + |ds|][0];
      assert s[i + 1..i + |ds|] == s[i..i + |ds|][1..];
      SkipDigitsExact(s, i + 1, ds[1..]);
    }
  }

  lemma FirstOf(s: Bytes, i: nat, text: Bytes)
    requires StartsWith(s, i, text) && text != []
    ensures i < |s| && s[i] == text[0]
  {
    assert s[i] == s[i..i + |text|][0];
  }

  lemma PieceParses(s: Bytes, i: nat, p: Piece)
    requires PieceOk(p) && StartsWith(s, i, PieceText(p))
    ensures i < |s| && s[i] != 0x22 && ParsePiece(s, i) == Some(p)
  {
    hide HexValue, IsSurrogate;
    FirstOf(s, i, PieceText(p));
    if !p.Raw? {
      assert s[i + 1] == s[i..i + |PieceText(p)|][1];
    }
    if p.Hex? {
      assert s[i + 2..i + 6] == s[i..i + 6][2..] == p.digits;
    }
  }

  lemma {:induction false} PiecesParse(s: Bytes, i: nat, ps: seq<Piece>)
    requires PiecesOk(ps) && StartsWith(s, i, PiecesText(ps) + [0x22])
    ensures i <= |s| && ParsePieces(s, i) == Parsed(ps, i + |PiecesText(ps)| + 1)
    decreases |ps|
  {
    hide PieceOk, ParsePiece, PieceText;
    if ps == [] {
      FirstOf(s, i, [0x22]);
    } else {
      var p := ps[0];
      assert PiecesText(ps) + [0x22] == PieceText(p) + (PiecesText(ps[1..]) + [0x22]);
      StartsJoin(s, i, PieceText(p), PiecesText(ps[1..]) + [0x22]);
      PieceParses(s, i, p);
      PiecesParse(s, i + |PieceText(p)|, ps[1..]);
      assert [p] + ps[1..] == ps;
    }
  }

  lemma StringParses(s: Bytes, i: nat, ps: seq<Piece>)
    requires PiecesOk(ps) && StartsWith(s, i, [0x22] + (PiecesText(ps) + [0x22]))
    ensures i < |s| && s[i] == 0x22 && ParseString(s, i) == Parsed(ps, i + |PiecesText(ps)| + 2)
  {
    hide PiecesText, ParsePieces;
    StartsJoin(s, i, [0x22], PiecesText(ps) + [0x22]);
    FirstOf(s, i, [0x22]);
    PiecesParse(s, i + 1, ps);
  }

  /** The byte at `j` cannot continue a number. */
  predicate NumberEnds(s: Bytes, j: nat) {
    j < |s| ==> !IsDigit(s[j]) && s[j] != 0x2e && s[j] != 0x65 && s[j] != 0x45
  }

  lemma DigitsParse(s: Bytes, i: nat, ds: Bytes)
    requires StartsWith(s, i, ds) && AllDigits(ds) && ds != [] && !DigitAt(s, i + |ds|)
    ensures ParseDigits(s, i) == Parsed(ds, i + |ds|)
  {
    FirstOf(s, i, ds);
    SkipDigitsExact(s, i, ds);
  }

  /** The byte after the mark is the sign, or already a digit. */
  lemma SignByte(s: Bytes, i: nat, sign: Bytes, digits: Bytes)
    requires sign == [] || sign == [0x2b] || sign == [0x2d]
    requires digits != [] && AllDigits(digits) && StartsWith(s, i, sign) && StartsWith(s, i + |sign|, digits)
    ensures i + |sign| <= |s| && s[i..i + |sign|] == sign
    ensures Is(s, i, 0x2b) || Is(s, i, 0x2d) <==> sign != []
  {
    hide StartsWith, AllDigits;
    SliceIs(s, i, sign);
    if sign == [] {
      FirstOf(s, i, digits);
      FirstIsDigit(digits);
    } else {
      FirstOf(s, i, sign);
    }
  }

  lemma FirstIsDigit(digits: Bytes)
    requires AllDigits(digits) && digits != []
    ensures IsDigit(digits[0])
  {
  }

  /** The parse of an exponent from the parses of its parts. */
  lemma ExponentAssemble(s: Bytes, i: nat, e: Exponent, k: nat, next: nat)
    requires e.Exponent? && (Is(s, i, 0x65) || Is(s, i, 0x45)) && s[i] == e.mark
    requires i + 1 <= k <= |s| && s[i + 1..k] == e.sign && k == if Is(s, i + 1, 0x2b) || Is(s, i + 1, 0x2d) then i + 2 else i + 1
    requires ParseDigits(s, k) == Parsed(e.digits, next)
    ensures ParseExponent(s, i) == Parsed(e, next)
  {
    hide ParseDigits;
  }

  lemma ExponentParses(s: Bytes, i: nat, e: Exponent)
    requires NumeralOk(Numeral(false, [0x30], [], e)) && StartsWith(s, i, ExponentText(e)) && NumberEnds(s, i + |ExponentText(e)|)
    ensures ParseExponent(s, i) == Parsed(e, i + |ExponentText(e)|)
    ensures !DigitAt(s, i) && !Is(s, i, 0x2e)
  {
    hide ParseDigits, ParseExponent, StartsWith, AllDigits;
    if e.Exponent? {
      StartsJoin(s, i, [e.mark], e.sign + e.digits);
      StartsJoin(s, i + 1, e.sign, e.digits);
      FirstOf(s, i, [e.mark]);
      SignByte(s, i + 1, e.sign, e.digits);
      var k := i + 1 + |e.sign|;
      DigitsParse(s, k, e.digits);
      ExponentAssemble(s, i, e, k, k + |e.digits|);
    } else {
      SliceIs(s, i, []);
      NoExponentParses(s, i);
    }
  }

  lemma NoExponentParses(s: Bytes, i: nat)
    requires i <= |s| && !Is(s, i, 0x65) && !Is(s, i, 0x45)
    ensures ParseExponent(s, i) == Parsed(NoExponent, i)
  {
  }

  lemma FractionParses(s: Bytes, i: nat, fraction: Bytes)
    requires AllDigits(fraction) && StartsWith(s, i, FractionText(fraction))
    requires !DigitAt(s, i + |FractionText(fraction)|) && (fraction == [] ==> !Is(s, i, 0x2e))
    ensures ParseFraction(s, i) == Parsed(fraction, i + |FractionText(fraction)|) && !DigitAt(s, i)
  {
    hide ParseDigits;
    if fraction != [] {
      StartsJoin(s, i, [0x2e], fraction);
      FirstOf(s, i, [0x2e]);
      DigitsParse(s, i + 1, fraction);
    }
  }

  lemma WholeParses(s: Bytes, i: nat, whole: Bytes)
    requires whole != [] && AllDigits(whole) && (whole[0] == 0x30 ==> |whole| == 1)
    requires StartsWith(s, i, whole) && !DigitAt(s, i + |whole|)
    ensures ParseWhole(s, i) == Parsed(whole, i + |whole|) && DigitAt(s, i)
  {
    hide ParseDigits;
    FirstOf(s, i, whole);
    DigitsParse(s, i, whole);
  }

  lemma NumeralParses(s: Bytes, i: nat, n: Numeral)
    requires NumeralOk(n) && StartsWith(s, i, NumeralText(n)) && NumberEnds(s, i + |NumeralText(n)|)
    ensures i < |s| && (s[i] == 0x2d || IsDigit(s[i])) && ParseNumeral(s, i) == Parsed(n, i + |NumeralText(n)|)
  {
    hide ParseWhole, ParseFraction, ParseExponent, FractionText, ExponentText, StartsWith;
    var sign := if n.minus then [0x2d] else [];
    var tail := FractionText(n.fraction) + ExponentText(n.exponent);
    StartsJoin(s, i, sign, n.whole + tail);
    var w := i + |sign|;
    StartsJoin(s, w, n.whole, tail);
    StartsJoin(s, w + |n.whole|, FractionText(n.fraction), ExponentText(n.exponent));
    ExponentParses(s, w + |n.whole| + |FractionText(n.fraction)|, n.exponent);
    NoFractionText(n.fraction);
    FractionParses(s, w + |n.whole|, n.fraction);
    WholeParses(s, w, n.whole);
    FirstOf(s, w, n.whole);
    if n.minus {
      FirstOf(s, i, sign);
    }
  }

  lemma NoFractionText(fraction: Bytes)
    ensures fraction == [] ==> FractionText(fraction) == []
  {
  }

  /** How a value's text begins. */
  predicate ValueByte(b: byte) {
    b == 0x7b || b == 0x5b || b == 0x22 || b == 0x74 || b == 0x66 || b == 0x6e || b == 0x2d || IsDigit(b)
  }

  lemma ValueBegins(t: Json)
    requires JsonOk(t)
    ensures JsonBytes(t) != [] && ValueByte(JsonBytes(t)[0])
  {
    hide ItemsText, MembersText, PiecesText;
  }

  lemma {:induction false} ValueParses(s: Bytes, i: nat, t: Json)
    requires JsonOk(t) && StartsWith(s, i, JsonBytes(t)) && NumberEnds(s, i + |JsonBytes(t)|)
    ensures i <= |s| && ParseValue(s, i) == Parsed(t, i + |JsonBytes(t)|)
    decreases t, 0
  {
    hide ParseArray, ParseObject, ParseString, ParseNumeral, NumeralText, PiecesText, NumeralOk, PiecesOk, ItemsText, MembersText;
    FirstByte(s, i, t);
    match t
    case Number(n) => NumeralParses(s, i, n);
    case String(ps) => StringParses(s, i, ps);
    case EmptyArray(ws) => EmptyArrayParses(s, i, ws);
    case Array(items) => ArrayParses(s, i, items);
    case EmptyObject(ws) => EmptyObjectParses(s, i, ws);
    case Object(members) => ObjectParses(s, i, members);
    case _ =>
  }

  lemma FirstByte(s: Bytes, i: nat, t: Json)
    requires JsonOk(t) && StartsWith(s, i, JsonBytes(t))
    ensures i < |s| && s[i] == JsonBytes(t)[0] && ValueByte(s[i])
  {
    ValueBegins(t);
    FirstOf(s, i, JsonBytes(t));
  }

  lemma EmptyArrayParses(s: Bytes, i: nat, ws: Bytes)
    requires AllWs(ws) && StartsWith(s, i, [0x5b] + (ws + [0x5d]))
    ensures i < |s| && ParseArray(s, i) == Parsed(EmptyArray(ws), i + |ws| + 2)
  {
    hide SkipWs;
    StartsJoin(s, i, [0x5b], ws + [0x5d]);
    StartsJoin(s, i + 1, ws, [0x5d]);
    FirstOf(s, i + 1 + |ws|, [0x5d]);
    SkipWsExact(s, i + 1, ws);
  }

  lemma EmptyObjectParses(s: Bytes, i: nat, ws: Bytes)
    requires AllWs(ws) && StartsWith(s, i, [0x7b] + (ws + [0x7d]))
    ensures i < |s| && ParseObject(s, i) == Parsed(EmptyObject(ws), i + |ws| + 2)
  {
    hide SkipWs;
    StartsJoin(s, i, [0x7b], ws + [0x7d]);
    StartsJoin(s, i + 1, ws, [0x7d]);
    FirstOf(s, i + 1 + |ws|, [0x7d]);
    SkipWsExact(s, i + 1, ws);
  }

  lemma {:induction false} ArrayParses(s: Bytes, i: nat, items: Items)
    requires ItemsOk(items) && StartsWith(s, i, [0x5b] + ItemsText(items))
    ensures i < |s| && ParseArray(s, i) == Parsed(Array(items), i + 1 + |ItemsText(items)|)
    decreases items, 2
  {
    hide ParseItems, JsonBytes, JsonOk, SkipWs;
    StartsJoin(s, i, [0x5b], ItemsText(items));
    ItemsParse(s, i + 1, items);
  }

  /** A value followed by whitespace and a byte that ends it. */
  lemma TrailParses(s: Bytes, i: nat, t: Json, trail: Bytes, end: Bytes)
    requires JsonOk(t) && AllWs(trail) && StartsWith(s, i, JsonBytes(t) + (trail + end))
    requires end != [] && (end[0] == 0x2c || end[0] == 0x5d || end[0] == 0x7d)
    ensures i <= |s| && ParseValue(s, i) == Parsed(t, i + |JsonBytes(t)|)
    ensures var k := i + |JsonBytes(t)| + |trail|;
            k < |s| && s[k] == end[0] && SkipWs(s, k - |trail|) == k && StartsWith(s, k, end) && s[k - |trail|..k] == trail
    decreases t, 1
  {
    hide ParseValue, JsonBytes, JsonOk, SkipWs, StartsWith, AllWs;
    var k := i + |JsonBytes(t)|;
    StartsJoin(s, i, JsonBytes(t), trail + end);
    StartsJoin(s, k, trail, end);
    FirstOf(s, k + |trail|, end);
    SkipWsExact(s, k, trail);
    if trail != [] {
      FirstOf(s, k, trail);
      FirstIsWs(trail);
    }
    SliceIs(s, k, trail);
    ValueParses(s, i, t);
  }

  lemma FirstIsWs(ws: Bytes)
    requires AllWs(ws) && ws != []
    ensures IsWs(ws[0])
  {
  }

  function ItemsEnd(items: Items): Bytes {
    if items.LastItem? then [0x5d] else [0x2c] + ItemsText(items.rest)
  }

  /** The first item, up to the comma or the closing bracket at `k`. */
  lemma {:induction false} ItemParses(s: Bytes, i: nat, items: Items, v: nat, k: nat)
    requires ItemsOk(items) && StartsWith(s, i, ItemsText(items))
    requires v == i + |items.lead| && k == v + |JsonBytes(items.value)| + |items.trail|
    ensures k < |s| && SkipWs(s, i) == v && s[i..v] == items.lead && s[v] != 0x5d
    ensures ParseValue(s, v) == Parsed(items.value, k - |items.trail|)
    ensures SkipWs(s, k - |items.trail|) == k && s[k - |items.trail|..k] == items.trail && StartsWith(s, k, ItemsEnd(items))
    decreases items, 0
  {
    hide ParseValue, JsonBytes, JsonOk, SkipWs, StartsWith, AllWs, ValueByte;
    StartsJoin(s, i, items.lead, JsonBytes(items.value) + (items.trail + ItemsEnd(items)));
    StartsJoin(s, v, JsonBytes(items.value), items.trail + ItemsEnd(items));
    NotWs(s, v, items.value);
    SkipWsExact(s, i, items.lead);
    SliceIs(s, i, items.lead);
    TrailParses(s, v, items.value, items.trail, ItemsEnd(items));
  }

  /** The parse of a list of items from the parses of its parts. */
  lemma ItemsAssemble(s: Bytes, i: nat, items: Items, w: nat, k: nat, next: nat)
    requires i <= |s| && w <= |s| && SkipWs(s, i) <= w <= k
    requires s[i..SkipWs(s, i)] == items.lead && ParseValue(s, SkipWs(s, i)) == Parsed(items.value, w)
    requires SkipWs(s, w) == k && s[w..k] == items.trail
    requires if items.LastItem? then Is(s, k, 0x5d) && next == k + 1
             else Is(s, k, 0x2c) && ParseItems(s, k + 1) == Parsed(items.rest, next)
    ensures ParseItems(s, i) == Parsed(items, next)
  {
    hide ParseValue, SkipWs;
  }

  lemma ItemsLength(items: Items)
    ensures |ItemsText(items)| == |items.lead| + |JsonBytes(items.value)| + |items.trail| + |ItemsEnd(items)|
  {
    hide JsonBytes;
  }

  lemma {:induction false} ItemsParse(s: Bytes, i: nat, items: Items)
    requires ItemsOk(items) && StartsWith(s, i, ItemsText(items))
    ensures i <= |s| && ParseItems(s, i) == Parsed(items, i + |ItemsText(items)|)
    ensures !Is(s, SkipWs(s, i), 0x5d)
    decreases items, 1
  {
    hide ParseValue, ParseItems, JsonBytes, JsonOk, SkipWs, StartsWith, AllWs, ItemsText;
    ItemsLength(items);
    var v := i + |items.lead|;
    var k := v + |JsonBytes(items.value)| + |items.trail|;
    ItemParses(s, i, items, v, k);
    StartsByte(s, k, ItemsEnd(items));
    if items.MoreItems? {
      StartsJoin(s, k, [0x2c], ItemsText(items.rest));
      ItemsParse(s, k + 1, items.rest);
    }
    ItemsAssemble(s, i, items, k - |items.trail|, k, k + |ItemsEnd(items)|);
  }

  lemma {:induction false} ObjectParses(s: Bytes, i: nat, ms: Members)
    requires MembersOk(ms) && StartsWith(s, i, [0x7b] + MembersText(ms))
    ensures i < |s| && ParseObject(s, i) == Parsed(Object(ms), i + 1 + |MembersText(ms)|)
    decreases ms, 2
  {
    hide ParseMembers, JsonBytes, JsonOk, SkipWs, PiecesText;
    StartsJoin(s, i, [0x7b], MembersText(ms));
    MembersParse(s, i + 1, ms);
  }

  lemma HeadParses(s: Bytes, i: nat, h: Head)
    requires PiecesOk(h.name) && AllWs(h.gap) && AllWs(h.before) && StartsWith(s, i, HeadText(h)) && !WsAt(s, i + |HeadText(h)|)
    ensures i < |s| && s[i] == 0x22 && ParseHead(s, i) == Parsed(h, i + |HeadText(h)|)
  {
    hide ParseString, PiecesText, SkipWs, StartsWith, AllWs;
    var quoted, colon := [0x22] + (PiecesText(h.name) + [0x22]), [0x3a] + h.before;
    assert quoted + (h.gap + colon) == HeadText(h);
    StartsJoin(s, i, quoted, h.gap + colon);
    var k := i + |quoted|;
    StartsJoin(s, k, h.gap, colon);
    StartsJoin(s, k + |h.gap|, [0x3a], h.before);
    StringParses(s, i, h.name);
    FirstOf(s, k + |h.gap|, [0x3a]);
    SliceIs(s, k, h.gap);
    SliceIs(s, k + |h.gap| + 1, h.before);
    SkipWsExact(s, k, h.gap);
    SkipWsExact(s, k + |h.gap| + 1, h.before);
  }

  function MembersEnd(ms: Members): Bytes {
    if ms.LastMember? then [0x7d] else [0x2c] + MembersText(ms.rest)
  }

  /** The first member, up to the comma or the closing brace at `k`. */
  lemma {:induction false} MemberParses(s: Bytes, i: nat, ms: Members, v: nat, k: nat)
    requires MembersOk(ms) && StartsWith(s, i, MembersText(ms))
    requires v == i + |ms.lead| + |MemberHead(ms)| && k == v + |JsonBytes(ms.value)| + |ms.trail|
    ensures k < |s| && SkipWs(s, i) == i + |ms.lead| && s[i..i + |ms.lead|] == ms.lead && s[i + |ms.lead|] == 0x22
    ensures ParseHead(s, i + |ms.lead|) == Parsed(Head(ms.name, ms.gap, ms.before), v)
    ensures ParseValue(s, v) == Parsed(ms.value, k - |ms.trail|)
    ensures SkipWs(s, k - |ms.trail|) == k && s[k - |ms.trail|..k] == ms.trail && StartsWith(s, k, MembersEnd(ms))
    decreases ms, 0
  {
    hide ParseValue, ParseHead, JsonBytes, JsonOk, SkipWs, PiecesText, ValueByte, StartsWith, AllWs, HeadText, PiecesOk, MemberHead;
    var h := Head(ms.name, ms.gap, ms.before);
    SameHead(ms);
    StartsJoin(s, i, ms.lead, HeadText(h) + (JsonBytes(ms.value) + (ms.trail + MembersEnd(ms))));
    var j := i + |ms.lead|;
    StartsJoin(s, j, HeadText(h), JsonBytes(ms.value) + (ms.trail + MembersEnd(ms)));
    StartsJoin(s, v, JsonBytes(ms.value), ms.trail + MembersEnd(ms));
    NotWs(s, v, ms.value);
    HeadParses(s, j, h);
    QuoteAt(s, j, h);
    SkipWsExact(s, i, ms.lead);
    SliceIs(s, i, ms.lead);
    TrailParses(s, v, ms.value, ms.trail, MembersEnd(ms));
  }

  lemma MembersLength(ms: Members)
    ensures |MembersText(ms)| == |ms.lead| + |MemberHead(ms)| + |JsonBytes(ms.value)| + |ms.trail| + |MembersEnd(ms)|
  {
    hide JsonBytes, MemberHead;
  }

  /** The parse of a list of members from the parses of its parts. */
  lemma MembersAssemble(s: Bytes, i: nat, ms: Members, v: nat, w: nat, k: nat, next: nat)
    requires i <= |s| && v <= |s| && w <= |s| && SkipWs(s, i) <= v <= w <= k
    requires s[i..SkipWs(s, i)] == ms.lead && ParseHead(s, SkipWs(s, i)) == Parsed(Head(ms.name, ms.gap, ms.before), v)
    requires ParseValue(s, v) == Parsed(ms.value, w) && SkipWs(s, w) == k && s[w..k] == ms.trail
    requires if ms.LastMember? then Is(s, k, 0x7d) && next == k + 1
             else Is(s, k, 0x2c) && ParseMembers(s, k + 1) == Parsed(ms.rest, next)
    ensures ParseMembers(s, i) == Parsed(ms, next)
  {
    hide ParseValue, ParseHead, SkipWs;
  }

  lemma {:induction false} MembersParse(s: Bytes, i: nat, ms: Members)
    requires MembersOk(ms) && StartsWith(s, i, MembersText(ms))
    ensures i <= |s| && ParseMembers(s, i) == Parsed(ms, i + |MembersText(ms)|)
    ensures !Is(s, SkipWs(s, i), 0x7d)
    decreases ms, 1
  {
    hide ParseValue, ParseHead, ParseMembers, JsonBytes, JsonOk, SkipWs, StartsWith, AllWs, PiecesOk, MemberHead, MembersText;
    MembersLength(ms);
    var v := i + |ms.lead| + |MemberHead(ms)|;
    var k := v + |JsonBytes(ms.value)| + |ms.trail|;
    var next := k + |MembersEnd(ms)|;
    MemberParses(s, i, ms, v, k);
    StartsByte(s, k, MembersEnd(ms));
    if ms.MoreMembers? {
      StartsJoin(s, k, [0x2c], MembersText(ms.rest));
      MembersParse(s, k + 1, ms.rest);
    }
    MembersAssemble(s, i, ms, v, k - |ms.trail|, k, next);
  }

  lemma StartsByte(s: Bytes, i: nat, text: Bytes)
    requires StartsWith(s, i, text) && text != []
    ensures Is(s, i, text[0])
  {
    FirstOf(s, i, text);
  }

  lemma SliceIs(s: Bytes, i: nat, text: Bytes)
    requires StartsWith(s, i, text)
    ensures i + |text| <= |s| && s[i..i + |text|] == text
  {
  }

  lemma QuoteAt(s: Bytes, i: nat, h: Head)
    requires StartsWith(s, i, HeadText(h))
    ensures i < |s| && s[i] == 0x22
  {
    FirstOf(s, i, HeadText(h));
  }

  lemma NotWs(s: Bytes, i: nat, t: Json)
    requires JsonOk(t) && StartsWith(s, i, JsonBytes(t))
    ensures !WsAt(s, i) && i < |s| && s[i] != 0x5d && s[i] != 0x7d
  {
    hide JsonBytes, JsonOk;
    FirstByte(s, i, t);
  }

  lemma WholeText(d: Document)
    ensures var s := DocumentText(d);
            && s == d.lead + (JsonBytes(d.value) + d.trail) && StartsWith(s, 0, s)
            && |s| == |d.lead| + |JsonBytes(d.value)| + |d.trail|
  {
    hide JsonBytes;
  }

  lemma TrailEnds(s: Bytes, k: nat, trail: Bytes)
    requires StartsWith(s, k, trail) && AllWs(trail) && k + |trail| == |s|
    ensures SkipWs(s, k) == |s| && NumberEnds(s, k)
  {
    hide SkipWs, StartsWith, AllWs;
    SkipWsExact(s, k, trail);
    if trail != [] {
      FirstOf(s, k, trail);
      FirstIsWs(trail);
    }
  }

  lemma DocumentParts(d: Document, s: Bytes, j: nat, k: nat)
    requires DocumentOk(d) && s == DocumentText(d) && j == |d.lead| && k == j + |JsonBytes(d.value)|
    ensures j <= k <= |s| && s[..j] == d.lead && s[k..] == d.trail
    ensures SkipWs(s, 0) == j && ParseValue(s, j) == Parsed(d.value, k) && SkipWs(s, k) == |s|
  {
    hide ParseValue, JsonOk, JsonBytes, SkipWs, StartsWith, AllWs, DocumentText, NumberEnds, WsAt;
    WholeText(d);
    StartsJoin(s, 0, d.lead, JsonBytes(d.value) + d.trail);
    StartsJoin(s, j, JsonBytes(d.value), d.trail);
    NotWs(s, j, d.value);
    SkipWsExact(s, 0, d.lead);
    TrailEnds(s, k, d.trail);
    ValueParses(s, j, d.value);
    SliceIs(s, 0, d.lead);
    SliceIs(s, k, d.trail);
    assert s[..j] == s[0..j] && s[k..] == s[k..|s|];
  }

  /** Parsing what was printed gives back the tree, spelling included. */
  lemma DocumentParses(d: Document)
    requires DocumentOk(d)
    ensures ParseDocument(DocumentText(d)) == Parsed(d, |DocumentText(d)|)
  {
    hide ParseValue, JsonOk, JsonBytes, SkipWs, DocumentText, DocumentOk;
    DocumentParts(d, DocumentText(d), |d.lead|, |d.lead| + |JsonBytes(d.value)|);
  }

  /** A text is accepted exactly when it is the printed form of some well-formed document, and of only one. */
  lemma AcceptedIffPrinted(s: Bytes)
    ensures ParseDocument(s).Parsed? <==> exists d :: DocumentOk(d) && DocumentText(d) == s
    ensures forall d, d' | DocumentOk(d) && DocumentOk(d') && DocumentText(d) == s && DocumentText(d') == s :: d == d'
  {
    hide ParseDocument, DocumentOk, DocumentText;
    if ParseDocument(s).Parsed? {
      DocumentSound(s);
    }
    forall d | DocumentOk(d) && DocumentText(d) == s
      ensures ParseDocument(s) == Parsed(d, |s|)
    {
      DocumentParses(d);
    }
  }
}
