/**
  The strict scanner: one pass over the bytes with a moving index, reporting repeated member names.

  Each method is proved against the parser: it fails exactly when the parser does, stops where the parser stops, and
  the flag becomes true exactly when the parsed tree repeats a member name in some object.
 */
module JsonScanner {
  import opened Basics
  import T = JsonText
  import opened JsonText
  import opened JsonGrammar

  // ------------------------------------------------- names seen so far, as a set

  /** What a scan with a set of seen names finds. */
  ghost predicate FindsDuplicate(ms: Members, seen: set<Name>, form: NameForm) {
    || form(Decoded(ms.name)) in seen || HasDuplicates(ms.value, form)
    || (ms.MoreMembers? && FindsDuplicate(ms.rest, seen + {form(Decoded(ms.name))}, form))
  }

  lemma RepeatsCons(n: Name, names: seq<Name>)
    ensures Repeats([n] + names) <==> n in names || Repeats(names)
  {
    var all := [n] + names;
    if n in names {
      var j :| 0 <= j < |names| && names[j] == n;
      assert all[0] == all[j + 1];
    }
    if Repeats(names) {
      var i, j :| 0 <= i < j < |names| && names[i] == names[j];
      assert all[i + 1] == all[j + 1];
    }
    if Repeats(all) {
      var i, j :| 0 <= i < j < |all| && all[i] == all[j];
      assert all[j] == names[j - 1];
      assert i > 0 ==> all[i] == names[i - 1];
    }
  }

  /** Keeping the set finds exactly the repeated names, those seen before, and the duplicates inside the values. */
  lemma {:induction false} SeenNamesFindRepeats(ms: Members, seen: set<Name>, form: NameForm)
    ensures FindsDuplicate(ms, seen, form) <==>
            Repeats(Names(ms, form)) || (exists n :: n in Names(ms, form) && n in seen) || ValuesHaveDuplicates(ms, form)
  {
    hide Decoded, Repeats, HasDuplicates;
    var n := form(Decoded(ms.name));
    if ms.MoreMembers? {
      SeenNamesFindRepeats(ms.rest, seen + {n}, form);
      RepeatsCons(n, Names(ms.rest, form));
      assert Names(ms, form) == [n] + Names(ms.rest, form);
      assert forall m :: m in Names(ms, form) <==> m == n || m in Names(ms.rest, form);
    } else {
      RepeatsCons(n, []);
      NoRepeats();
      assert Names(ms, form) == [n] + [];
    }
  }

  lemma NoRepeats()
    ensures !Repeats([])
  {
  }

  lemma ObjectDuplicates(ms: Members, form: NameForm)
    ensures HasDuplicates(Object(ms), form) <==> FindsDuplicate(ms, {}, form)
  {
    hide Repeats, Names;
    SeenNamesFindRepeats(ms, {}, form);
  }

  datatype Verdict = Bad | Good(duplicates: bool, next: nat)

  ghost function MembersVerdict(r: Parsed<Members>, seen: set<Name>, flag: bool, form: NameForm): Verdict {
    if r.Malformed? then Bad else Good(flag || FindsDuplicate(r.tree, seen, form), r.next)
  }

  ghost function ItemsVerdict(r: Parsed<Items>, flag: bool, form: NameForm): Verdict {
    if r.Malformed? then Bad else Good(flag || ItemsHaveDuplicates(r.tree, form), r.next)
  }

  ghost function ValueVerdict(r: Parsed<Json>, flag: bool, form: NameForm): Verdict {
    if r.Malformed? then Bad else Good(flag || HasDuplicates(r.tree, form), r.next)
  }

  /** The verdict on a string read from `i` with `name` decoded so far. */
  ghost function StringVerdict(r: Parsed<seq<Piece>>, name: Name): Parsed<Name> {
    if r.Malformed? then Malformed else Parsed(name + Decoded(r.tree), r.next)
  }

  lemma PieceAdds(s: Bytes, i: nat, name: Name, p: Piece)
    requires i < |s| && s[i] != 0x22 && ParsePiece(s, i) == Some(p)
    ensures StringVerdict(ParsePieces(s, i), name) == StringVerdict(ParsePieces(s, i + |PieceText(p)|), name + [Scalar(p)])
  {
    hide ParsePiece, Scalar;
    var rest := ParsePieces(s, i + |PieceText(p)|);
    if rest.Parsed? {
      assert ([p] + rest.tree)[1..] == rest.tree;
      assert name + ([Scalar(p)] + Decoded(rest.tree)) == (name + [Scalar(p)]) + Decoded(rest.tree);
    }
  }

  lemma HexPiece(s: Bytes, i: nat)
    requires Is(s, i, 0x5c) && Is(s, i + 1, 0x75)
    ensures var hex := i + 6 <= |s| && forall k | i + 2 <= k < i + 6 :: IsHex(s[k]);
            ParsePiece(s, i) == if hex && !IsSurrogate(HexValue(s[i + 2..i + 6])) then Some(Hex(s[i + 2..i + 6])) else None
  {
    hide HexValue;
    if i + 6 <= |s| {
      var digits := s[i + 2..i + 6];
      assert forall k | 0 <= k < 4 :: digits[k] == s[i + 2 + k];
      assert forall k | i + 2 <= k < i + 6 :: s[k] == digits[k - i - 2];
    }
  }

  /** One item, then a bracket, a comma, or an error. */
  lemma ItemStep(s: Bytes, from: nat, flag: bool, form: NameForm)
    requires from <= |s|
    ensures var v := T.ParseValue(s, SkipWs(s, from));
            var whole := ItemsVerdict(ParseItems(s, from), flag, form);
            if v.Malformed? then whole == Bad
            else
              var k, flag' := SkipWs(s, v.next), flag || HasDuplicates(v.tree, form);
              if Is(s, k, 0x5d) then whole == Good(flag', k + 1)
              else if Is(s, k, 0x2c) then whole == ItemsVerdict(ParseItems(s, k + 1), flag', form)
              else whole == Bad
  {
    hide T.ParseValue, SkipWs, HasDuplicates;
  }

  /** One member, then a brace, a comma, or an error. */
  lemma MemberStep(s: Bytes, from: nat, keys: set<Name>, flag: bool, name: Name, b: nat, form: NameForm)
    requires from <= |s| && StringVerdict(T.ParseString(s, SkipWs(s, from)), []) == Parsed(name, b) && b <= |s|
    ensures var colon := SkipWs(s, b);
            var whole := MembersVerdict(ParseMembers(s, from), keys, flag, form);
            if !Is(s, colon, 0x3a) then whole == Bad
            else
              var v := T.ParseValue(s, SkipWs(s, colon + 1));
              if v.Malformed? then whole == Bad
              else
                var k, flag' := SkipWs(s, v.next), flag || form(name) in keys || HasDuplicates(v.tree, form);
                if Is(s, k, 0x7d) then whole == Good(flag', k + 1)
                else if Is(s, k, 0x2c) then whole == MembersVerdict(ParseMembers(s, k + 1), keys + {form(name)}, flag', form)
                else whole == Bad
  {
    hide T.ParseValue, SkipWs, HasDuplicates, ParseHead, T.ParseString, Decoded, StringVerdict;
    HeadStep(s, SkipWs(s, from), name, b);
  }

  lemma HeadStep(s: Bytes, i: nat, name: Name, b: nat)
    requires i <= |s| && StringVerdict(T.ParseString(s, i), []) == Parsed(name, b) && b <= |s|
    ensures var colon, h := SkipWs(s, b), ParseHead(s, i);
            if !Is(s, colon, 0x3a) then h.Malformed?
            else h.Parsed? && h.next == SkipWs(s, colon + 1) && Decoded(h.tree.name) == name
  {
    hide SkipWs, T.ParseString, Decoded, StringVerdict;
    StringRead(T.ParseString(s, i));
  }

  lemma NoMember(s: Bytes, from: nat, keys: set<Name>, flag: bool, form: NameForm)
    requires from <= |s| && T.ParseString(s, SkipWs(s, from)).Malformed?
    ensures MembersVerdict(ParseMembers(s, from), keys, flag, form) == Bad
  {
    hide T.ParseValue, SkipWs, T.ParseString;
  }

  lemma ValueFlag(v: Parsed<Json>, flag: bool, form: NameForm)
    ensures ValueVerdict(v, flag, form) == if v.Malformed? then Bad else Good(flag || HasDuplicates(v.tree, form), v.next)
  {
  }

  lemma StringRead(r: Parsed<seq<Piece>>)
    ensures StringVerdict(r, []) == if r.Malformed? then Malformed else Parsed(Decoded(r.tree), r.next)
  {
    if r.Parsed? {
      assert [] + Decoded(r.tree) == Decoded(r.tree);
    }
  }

  lemma ArrayVerdict(s: Bytes, i: nat, flag: bool, form: NameForm)
    requires i < |s|
    ensures var j := SkipWs(s, i + 1);
            ValueVerdict(ParseArray(s, i), flag, form) ==
            if Is(s, j, 0x5d) then Good(flag, j + 1) else ItemsVerdict(ParseItems(s, i + 1), flag, form)
  {
    hide SkipWs, ParseItems, ItemsHaveDuplicates;
  }

  lemma ObjectVerdict(s: Bytes, i: nat, flag: bool, form: NameForm)
    requires i < |s|
    ensures var j := SkipWs(s, i + 1);
            ValueVerdict(T.ParseObject(s, i), flag, form) ==
            if Is(s, j, 0x7d) then Good(flag, j + 1) else MembersVerdict(ParseMembers(s, i + 1), {}, flag, form)
  {
    hide SkipWs, ParseMembers, FindsDuplicate, Repeats, Names, ValuesHaveDuplicates;
    var members := ParseMembers(s, i + 1);
    if members.Parsed? {
      ObjectDuplicates(members.tree, form);
    }
  }

  // ------------------------------------------------------------------ scanner

  class StrictScanner {
    const bytes: Bytes
    const form: NameForm
    var index: nat
    var duplicateObjectMembers: bool

    constructor (bytes: Bytes, form: NameForm)
      ensures this.bytes == bytes && this.form == form && index == 0 && !duplicateObjectMembers
    {
      this.bytes, this.form := bytes, form;
      index, duplicateObjectMembers := 0, false;
    }

    method SkipWhitespace()
      requires index <= |bytes|
      modifies this`index
      ensures index == SkipWs(bytes, old(index))
    {
      while index < |bytes| && IsWs(bytes[index])
        invariant index <= |bytes| && SkipWs(bytes, index) == SkipWs(bytes, old(index))
      {
        index := index + 1;
      }
    }

    method SkipDigitRun()
      requires index <= |bytes|
      modifies this`index
      ensures index == SkipDigits(bytes, old(index))
    {
      while index < |bytes| && IsDigit(bytes[index])
        invariant index <= |bytes| && SkipDigits(bytes, index) == SkipDigits(bytes, old(index))
      {
        index := index + 1;
      }
    }

    method Consume(b: byte) returns (ok: bool)
      requires index <= |bytes|
      modifies this`index
      ensures ok == Is(bytes, old(index), b)
      ensures index == if ok then old(index) + 1 else old(index)
    {
      ok := index < |bytes| && bytes[index] == b;
      if ok {
        index := index + 1;
      }
    }

    method ConsumeLiteral(text: Bytes) returns (ok: bool)
      requires index <= |bytes|
      modifies this`index
      ensures ok <==> StartsWith(bytes, old(index), text)
      ensures ok ==> index == old(index) + |text|
    {
      for k := 0 to |text|
        invariant index == old(index) + k <= |bytes| && bytes[old(index)..index] == text[..k]
      {
        if index == |bytes| || bytes[index] != text[k] {
          if StartsWith(bytes, old(index), text) {
            FirstDiffers(bytes, old(index), text, k);
          }
          return false;
        }
        index := index + 1;
      }
      return true;
    }

    method RequireDigits() returns (ok: bool)
      requires index <= |bytes|
      modifies this`index
      ensures ok <==> ParseDigits(bytes, old(index)).Parsed?
      ensures index == if ok then ParseDigits(bytes, old(index)).next else old(index)
    {
      ok := index < |bytes| && IsDigit(bytes[index]);
      if ok {
        SkipDigitRun();
      }
    }

    method ConsumeNumber() returns (ok: bool)
      requires index <= |bytes|
      modifies this`index
      ensures ok <==> ParseNumeral(bytes, old(index)).Parsed?
      ensures ok ==> index == ParseNumeral(bytes, old(index)).next
    {
      hide ParseDigits, ParseExponent;
      var minus := Consume(0x2d);
      var zero := Consume(0x30);
      if !zero {
        ok := RequireDigits();
        if !ok {
          return;
        }
      }
      var point := Consume(0x2e);
      if point {
        ok := RequireDigits();
        if !ok {
          return;
        }
      }
      ok := ConsumeExponent();
    }

    method ConsumeExponent() returns (ok: bool)
      requires index <= |bytes|
      modifies this`index
      ensures ok <==> ParseExponent(bytes, old(index)).Parsed?
      ensures ok ==> index == ParseExponent(bytes, old(index)).next
    {
      hide ParseDigits;
      var mark := Consume(0x65);
      if !mark {
        mark := Consume(0x45);
      }
      if !mark {
        return true;
      }
      var sign := Consume(0x2b);
      if !sign {
        sign := Consume(0x2d);
      }
      ok := RequireDigits();
    }

    /** Four hex digits and their value. */
    method ReadHex() returns (ok: bool, value: nat)
      requires index <= |bytes|
      modifies this`index
      ensures ok <==> old(index) + 4 <= |bytes| && forall k | old(index) <= k < old(index) + 4 :: IsHex(bytes[k])
      ensures ok ==> index == old(index) + 4 && value == HexValue(bytes[old(index)..index])
    {
      value := 0;
      for k := 0 to 4
        invariant index == old(index) + k <= |bytes|
        invariant forall m | old(index) <= m < index :: IsHex(bytes[m])
        invariant value == HexValue(bytes[old(index)..index])
      {
        if index == |bytes| || !IsHex(bytes[index]) {
          return false, 0;
        }
        value := 16 * value + HexDigit(bytes[index]);
        assert bytes[old(index)..index + 1][..k] == bytes[old(index)..index];
        index := index + 1;
      }
      return true, value;
    }

    /** One character of a string, or an escape. */
    method ReadPiece() returns (ok: bool, scalar: nat)
      requires index < |bytes| && bytes[index] != 0x22
      modifies this`index
      ensures var p := ParsePiece(bytes, old(index));
              (ok <==> p.Some?) && (ok ==> scalar == Scalar(p.value) && index == old(index) + |PieceText(p.value)|)
    {
      hide HexValue;
      var b := bytes[index];
      if b < 0x20 {
        return false, 0;
      }
      index := index + 1;
      if b != 0x5c {
        return true, b as int;
      }
      if index == |bytes| {
        return false, 0;
      }
      var escaped := bytes[index];
      index := index + 1;
      if escaped == 0x75 {
        ok, scalar := ReadHex();
        ok := ok && !IsSurrogate(scalar);
        HexPiece(bytes, old(index));
        return;
      }
      if escaped == 0x22 || escaped == 0x5c || escaped == 0x2f {
        return true, escaped as int;
      }
      match escaped
      case 0x62 => return true, 8;
      case 0x66 => return true, 12;
      case 0x6e => return true, 10;
      case 0x72 => return true, 13;
      case 0x74 => return true, 9;
      case _ => return false, 0;
    }

    method ParseString() returns (ok: bool, name: Name)
      requires index <= |bytes|
      modifies this`index
      ensures (if ok then Parsed(name, index) else Malformed) == StringVerdict(T.ParseString(bytes, old(index)), [])
    {
      hide ParsePiece, Scalar;
      name := [];
      ok := Consume(0x22);
      if !ok {
        return;
      }
      while index < |bytes|
        invariant old(index) < index <= |bytes|
        invariant StringVerdict(T.ParseString(bytes, old(index)), []) == StringVerdict(ParsePieces(bytes, index), name)
      {
        if bytes[index] == 0x22 {
          index := index + 1;
          assert name + [] == name;
          return true, name;
        }
        ghost var i := index;
        var scalar;
        ok, scalar := ReadPiece();
        if !ok {
          return;
        }
        PieceAdds(bytes, i, name, ParsePiece(bytes, i).value);
        name := name + [scalar];
      }
      return false, name;
    }

    method ParseValue() returns (ok: bool)
      requires index <= |bytes|
      modifies this
      ensures (if ok then Good(duplicateObjectMembers, index) else Bad) ==
              ValueVerdict(T.ParseValue(bytes, SkipWs(bytes, old(index))), old(duplicateObjectMembers), form)
      decreases |bytes| - index, 2
    {
      hide ParseArray, T.ParseObject, ParseNumeral, SkipWs, ParsePieces, StartsWith;
      SkipWhitespace();
      if index == |bytes| {
        return false;
      }
      var b := bytes[index];
      if b == 0x7b {
        ok := ParseObject();
      } else if b == 0x5b {
        ok := ParseList();
      } else if b == 0x22 {
        var name;
        ok, name := ParseString();
      } else if b == 0x74 {
        ok := ConsumeLiteral(TrueText);
      } else if b == 0x66 {
        ok := ConsumeLiteral(FalseText);
      } else if b == 0x6e {
        ok := ConsumeLiteral(NullText);
      } else if b == 0x2d || IsDigit(b) {
        ok := ConsumeNumber();
      } else {
        ok := false;
      }
    }

    method ParseList() returns (ok: bool)
      requires index < |bytes| && bytes[index] == 0x5b
      modifies this
      ensures (if ok then Good(duplicateObjectMembers, index) else Bad) ==
              ValueVerdict(ParseArray(bytes, old(index)), old(duplicateObjectMembers), form)
      decreases |bytes| - index, 1
    {
      hide T.ParseValue, SkipWs, ParseItems, ItemsVerdict, ValueVerdict, ParseArray, HasDuplicates;
      ArrayVerdict(bytes, index, duplicateObjectMembers, form);
      index := index + 1;
      ghost var from, items := index, ParseItems(bytes, index);
      SkipWhitespace();
      SkipWsTwice(bytes, from);
      var close := Consume(0x5d);
      if close {
        return true;
      }
      while true
        invariant old(index) < from <= index <= |bytes| && SkipWs(bytes, index) == SkipWs(bytes, from)
        invariant ItemsVerdict(ParseItems(bytes, from), duplicateObjectMembers, form) == ItemsVerdict(items, old(duplicateObjectMembers), form)
        decreases |bytes| - index
      {
        ItemStep(bytes, from, duplicateObjectMembers, form);
        ValueFlag(T.ParseValue(bytes, SkipWs(bytes, from)), duplicateObjectMembers, form);
        ok := ParseValue();
        if !ok {
          return;
        }
        SkipWhitespace();
        close := Consume(0x5d);
        if close {
          return true;
        }
        ok := Consume(0x2c);
        if !ok {
          return;
        }
        from := index;
        SkipWhitespace();
        SkipWsTwice(bytes, from);
      }
    }

    method ParseObject() returns (ok: bool)
      requires index < |bytes| && bytes[index] == 0x7b
      modifies this
      ensures (if ok then Good(duplicateObjectMembers, index) else Bad) ==
              ValueVerdict(T.ParseObject(bytes, old(index)), old(duplicateObjectMembers), form)
      decreases |bytes| - index, 1
    {
      hide SkipWs, MembersVerdict, ParseMembers, ValueVerdict, T.ParseObject;
      ObjectVerdict(bytes, index, duplicateObjectMembers, form);
      index := index + 1;
      ghost var from, members := index, ParseMembers(bytes, index);
      SkipWhitespace();
      var close := Consume(0x7d);
      if close {
        return true;
      }
      var keys: set<Name> := {};
      while true
        invariant old(index) < from <= index <= |bytes| && index == SkipWs(bytes, from)
        invariant MembersVerdict(ParseMembers(bytes, from), keys, duplicateObjectMembers, form) ==
                  MembersVerdict(members, {}, old(duplicateObjectMembers), form)
        decreases |bytes| - index
      {
        var name;
        ok, name := ParseMember(from, keys);
        if !ok {
          return;
        }
        keys := keys + {form(name)};
        close := Consume(0x7d);
        if close {
          return true;
        }
        ok := Consume(0x2c);
        if !ok {
          return;
        }
        from := index;
        SkipWhitespace();
      }
    }

    /** One `name : value` and the whitespace after it. */
    method ParseMember(ghost from: nat, keys: set<Name>) returns (ok: bool, name: Name)
      requires from <= |bytes| && index == SkipWs(bytes, from)
      modifies this
      ensures ok ==> old(index) < index <= |bytes|
      ensures MembersVerdict(ParseMembers(bytes, from), keys, old(duplicateObjectMembers), form) ==
              if !ok then Bad
              else if Is(bytes, index, 0x7d) then Good(duplicateObjectMembers, index + 1)
              else if Is(bytes, index, 0x2c) then
                MembersVerdict(ParseMembers(bytes, index + 1), keys + {form(name)}, duplicateObjectMembers, form)
              else Bad
      decreases |bytes| - index, 3
    {
      hide T.ParseValue, SkipWs, HasDuplicates, T.ParseString, MembersVerdict, ParseMembers, ValueVerdict, StringVerdict;
      ok, name := ParseString();
      StringRead(T.ParseString(bytes, SkipWs(bytes, from)));
      if !ok {
        NoMember(bytes, from, keys, duplicateObjectMembers, form);
        return;
      }
      MemberStep(bytes, from, keys, duplicateObjectMembers, name, index, form);
      if form(name) in keys {
        duplicateObjectMembers := true;
      }
      SkipWhitespace();
      ok := Consume(0x3a);
      if !ok {
        return;
      }
      ValueFlag(T.ParseValue(bytes, SkipWs(bytes, index)), duplicateObjectMembers, form);
      ok := ParseValue();
      if ok {
        SkipWhitespace();
      }
    }
  }

  lemma FirstDiffers(s: Bytes, i: nat, text: Bytes, k: nat)
    requires StartsWith(s, i, text) && k < |text|
    ensures i + k < |s| && s[i + k] == text[k]
  {
    assert s[i..i + |text|][k] == s[i + k];
  }

  lemma SkipWsTwice(s: Bytes, i: nat)
    requires i <= |s|
    ensures SkipWs(s, SkipWs(s, i)) == SkipWs(s, i)
  {
    SkipWsSound(s, i);
  }

  /** The scanner's answer; `None` is the malformed error. */
  ghost function ScanResult(data: Bytes, form: NameForm): Option<bool> {
    var r := ParseDocument(data);
    if r.Malformed? then None else Some(HasDuplicates(r.tree.value, form))
  }

  method HasDuplicateObjectMembers(data: Bytes, form: NameForm) returns (r: Option<bool>)
    ensures r == ScanResult(data, form)
  {
    hide T.ParseValue, SkipWs, HasDuplicates;
    var scanner := new StrictScanner(data, form);
    scanner.SkipWhitespace();
    SkipWsTwice(data, 0);
    var ok := scanner.ParseValue();
    if !ok {
      return None;
    }
    scanner.SkipWhitespace();
    if scanner.index != |data| {
      return None;
    }
    return Some(scanner.duplicateObjectMembers);
  }

  /** The printed form of a document is consumed whole, and duplicates are reported exactly when some object at any depth
      repeats a decoded member name. */
  lemma PrintedDocumentIsScanned(d: Document, form: NameForm)
    requires DocumentOk(d)
    ensures ScanResult(DocumentText(d), form) == Some(HasDuplicates(d.value, form))
  {
    hide ParseDocument, HasDuplicates, DocumentOk, DocumentText;
    DocumentParses(d);
  }

  /** For any bytes: the answer is `flag` exactly when they are the printed form of a document whose objects repeat a name,
      or do not, accordingly; and malformed exactly when they are the printed form of none. */
  lemma ScanMeaning(data: Bytes, form: NameForm, flag: bool)
    ensures ScanResult(data, form) == Some(flag) <==>
            exists d :: DocumentOk(d) && DocumentText(d) == data && HasDuplicates(d.value, form) == flag
    ensures ScanResult(data, form) == None <==> !exists d :: DocumentOk(d) && DocumentText(d) == data
  {
    hide ParseDocument, HasDuplicates, DocumentOk, DocumentText;
    if ParseDocument(data).Parsed? {
      DocumentSound(data);
    }
    forall d | DocumentOk(d) && DocumentText(d) == data
      ensures ParseDocument(data) == Parsed(d, |data|)
    {
      DocumentParses(d);
    }
  }
}
