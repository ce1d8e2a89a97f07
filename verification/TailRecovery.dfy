/** Reading the journal file back from its bytes, and what is kept of a torn final record. */
module TailRecovery {
  import opened Basics
  import opened PeerTypes

  /** The line format of one record, as far as recovery depends on it. */
  datatype Codec<!E> = Codec(encode: E -> Bytes, decode: Bytes -> Option<E>)

  const Newline: byte := 0x0a
  const OpenBrace: byte := 0x7b

  /** A record is encoded as one line that starts with a brace, and decoding gives it back. */
  ghost predicate LineCodec<E(!new)>(c: Codec<E>) {
    forall e: E :: |c.encode(e)| > 0 && c.encode(e)[0] == OpenBrace && Newline !in c.encode(e) && c.decode(c.encode(e)) == Some(e)
  }

  function Line<E>(c: Codec<E>, e: E): Bytes {
    c.encode(e) + [Newline]
  }

  /** The file that holds exactly the records `es`. */
  function Text<E>(c: Codec<E>, es: seq<E>): Bytes {
    if |es| == 0 then [] else Line(c, es[0]) + Text(c, es[1..])
  }

  predicate IsWhitespace(b: byte) {
    b == 0x20 || b == 0x09 || b == 0x0a || b == 0x0c || b == 0x0d
  }

  predicate IsBlank(s: Bytes) {
    forall i | 0 <= i < |s| :: IsWhitespace(s[i])
  }

  /** The end of the line that starts at `i`, its newline included. */
  function LineEnd(s: Bytes, i: nat): (n: nat)
    requires i < |s|
    ensures i < n <= |s| && (forall k | i <= k < n - 1 :: s[k] != Newline) && (s[n - 1] == Newline || n == |s|)
    decreases |s| - i
  {
    if s[i] == Newline || i + 1 == |s| then i + 1 else LineEnd(s, i + 1)
  }

  /** The records read and how many bytes of the file are kept, or a record that must not be skipped. */
  datatype Recovery<+E> = Recovered(entries: seq<E>, keep: nat) | Corrupt(badAt: nat)

  function BodyOf(line: Bytes): Bytes {
    if |line| > 0 && line[|line| - 1] == Newline then line[..|line| - 1] else line
  }

  predicate Terminated(line: Bytes) {
    |line| > 0 && line[|line| - 1] == Newline
  }

  /** Reading on from `offset`, with `bad` the start of the first unreadable record so far. */
  function Scan<E>(c: Codec<E>, s: Bytes, offset: nat, bad: Option<nat>, entries: seq<E>): Recovery<E>
    requires offset <= |s|
    decreases |s| - offset
  {
    if offset == |s| then Recovered(entries, if bad.Some? then bad.value else |s|) else
    var end := LineEnd(s, offset);
    var line := s[offset..end];
    if IsBlank(BodyOf(line)) then Scan(c, s, end, bad, entries)
    else if bad.Some? then Corrupt(bad.value)
    else
      var parsed := if Terminated(line) then c.decode(BodyOf(line)) else None;
      if parsed.Some? then Scan(c, s, end, bad, entries + [parsed.value]) else Scan(c, s, end, Some(offset), entries)
  }

  /** Streams the file line by line, as the journal does when it opens. */
  method ReadRecoveringTail<E>(c: Codec<E>, s: Bytes) returns (r: Recovery<E>)
    ensures r == Scan(c, s, 0, None, [])
  {
    hide Scan, IsBlank, LineEnd;
    var offset, bad: Option<nat>, entries := 0, None, [];
    while offset < |s|
      invariant offset <= |s|
      invariant Scan(c, s, 0, None, []) == Scan(c, s, offset, bad, entries)
    {
      var start := offset;
      ScanStep(c, s, offset, bad, entries);
      offset := LineEnd(s, start);
      var line := s[start..offset];
      var terminated := line[|line| - 1] == Newline;
      var body := if terminated then line[..|line| - 1] else line;
      if IsBlank(body) {
        continue;
      }
      if bad.Some? {
        return Corrupt(bad.value);
      }
      var parsed := if terminated then c.decode(body) else None;
      if parsed.Some? {
        entries := entries + [parsed.value];
      } else {
        bad := Some(start);
      }
    }
    ScanEnds(c, s, bad, entries);
    return Recovered(entries, if bad.Some? then bad.value else |s|);
  }

  /** One line of the scan. */
  lemma ScanStep<E>(c: Codec<E>, s: Bytes, offset: nat, bad: Option<nat>, entries: seq<E>)
    requires offset < |s|
    ensures var end := LineEnd(s, offset);
            var line := s[offset..end];
            Scan(c, s, offset, bad, entries) ==
            if IsBlank(BodyOf(line)) then Scan(c, s, end, bad, entries)
            else if bad.Some? then Corrupt(bad.value)
            else
              var parsed := if Terminated(line) then c.decode(BodyOf(line)) else None;
              if parsed.Some? then Scan(c, s, end, bad, entries + [parsed.value]) else Scan(c, s, end, Some(offset), entries)
  {
    hide IsBlank, LineEnd, BodyOf, Terminated;
  }

  lemma ScanEnds<E>(c: Codec<E>, s: Bytes, bad: Option<nat>, entries: seq<E>)
    ensures Scan(c, s, |s|, bad, entries) == Recovered(entries, if bad.Some? then bad.value else |s|)
  {
  }

  // ----------------------------------------------------------------- proofs

  /** A line with no newline inside ends where its newline is. */
  lemma {:induction false} LineEndAt(s: Bytes, i: nat, n: nat)
    requires i <= n < |s| && s[n] == Newline && forall k | i <= k < n :: s[k] != Newline
    ensures LineEnd(s, i) == n + 1
    decreases n - i
  {
    if i < n {
      LineEndAt(s, i + 1, n);
    }
  }

  lemma {:induction false} LineEndNone(s: Bytes, i: nat)
    requires i < |s| && forall k | i <= k < |s| :: s[k] != Newline
    ensures LineEnd(s, i) == |s|
    decreases |s| - i
  {
    if i + 1 < |s| {
      LineEndNone(s, i + 1);
    }
  }

  lemma RecordLine<E(!new)>(c: Codec<E>, e: E)
    requires LineCodec(c)
    ensures var body := c.encode(e);
            Newline !in body && !IsBlank(body) && c.decode(body) == Some(e) && Line(c, e) == body + [Newline]
  {
    var body := c.encode(e);
    assert !IsWhitespace(body[0]);
  }

  /** A newline-free body and its newline are the first line of what starts with them. */
  lemma FirstLine(s: Bytes, offset: nat, body: Bytes, rest: Bytes)
    requires offset <= |s| && s[offset..] == body + [Newline] + rest && Newline !in body
    ensures var end := offset + |body| + 1;
            end <= |s| && LineEnd(s, offset) == end && s[offset..end] == body + [Newline] && s[end..] == rest
  {
    var n := offset + |body|;
    var tail := body + [Newline] + rest;
    assert forall k | offset <= k < |s| :: s[k] == tail[k - offset];
    assert forall k | offset <= k < n :: s[k] == body[k - offset];
    LineEndAt(s, offset, n);
  }

  lemma BodyOfLine(body: Bytes)
    ensures BodyOf(body + [Newline]) == body && Terminated(body + [Newline])
  {
  }

  lemma ScanOneRecord<E(!new)>(c: Codec<E>, s: Bytes, offset: nat, e: E, rest: Bytes, entries: seq<E>)
    requires LineCodec(c) && offset <= |s| && s[offset..] == Line(c, e) + rest
    ensures offset + |Line(c, e)| <= |s| && s[offset + |Line(c, e)|..] == rest
    ensures Scan(c, s, offset, None, entries) == Scan(c, s, offset + |Line(c, e)|, None, entries + [e])
  {
    hide LineCodec, Scan, IsBlank, LineEnd, BodyOf, Terminated, Line;
    var body := c.encode(e);
    RecordLine(c, e);
    FirstLine(s, offset, body, rest);
    BodyOfLine(body);
    ScanStep(c, s, offset, None, entries);
  }

  lemma {:induction false} ScanRecords<E(!new)>(c: Codec<E>, s: Bytes, offset: nat, es: seq<E>, rest: Bytes, entries: seq<E>)
    requires LineCodec(c) && offset <= |s| && s[offset..] == Text(c, es) + rest
    ensures offset + |Text(c, es)| <= |s| && s[offset + |Text(c, es)|..] == rest
    ensures Scan(c, s, offset, None, entries) == Scan(c, s, offset + |Text(c, es)|, None, entries + es)
    decreases |es|
  {
    hide Scan, LineCodec, Line;
    if |es| == 0 {
      assert Text(c, es) + rest == rest && entries + es == entries;
    } else {
      var tail := es[1..];
      assert Text(c, es) + rest == Line(c, es[0]) + (Text(c, tail) + rest);
      ScanOneRecord(c, s, offset, es[0], Text(c, tail) + rest, entries);
      ScanRecords(c, s, offset + |Line(c, es[0])|, tail, rest, entries + [es[0]]);
      assert entries + [es[0]] + tail == entries + es;
    }
  }

  lemma ScanUnterminated<E>(c: Codec<E>, s: Bytes, at: nat, entries: seq<E>)
    requires at < |s| && Newline !in s[at..] && !IsBlank(s[at..])
    ensures Scan(c, s, at, None, entries) == Recovered(entries, at)
  {
    assert forall k | at <= k < |s| :: s[k] == s[at..][k - at];
    LineEndNone(s, at);
    assert s[at..|s|] == s[at..] && BodyOf(s[at..]) == s[at..];
  }

  lemma TornPrefix<E(!new)>(c: Codec<E>, e: E, n: nat)
    requires LineCodec(c) && 0 < n < |Line(c, e)|
    ensures Newline !in Line(c, e)[..n] && !IsBlank(Line(c, e)[..n])
  {
    var torn := Line(c, e)[..n];
    assert torn == c.encode(e)[..n] && torn[0] == OpenBrace;
  }

  /** Torn tail: after the records `es` and any first `n` bytes of one more line, recovery yields exactly `es`, plus that
      record if its whole line is there, and keeps the file up to the record boundary. */
  lemma TornTailIsRecovered<E(!new)>(c: Codec<E>, es: seq<E>, e: E, n: nat)
    requires LineCodec(c) && n <= |Line(c, e)|
    ensures var s := Text(c, es) + Line(c, e)[..n];
            && Scan(c, s, 0, None, []) ==
                 (if n == |Line(c, e)| then Recovered(es + [e], |s|) else Recovered(es, |Text(c, es)|))
            && s[..|Text(c, es)|] == Text(c, es)
  {
    hide LineCodec, Line, Text, IsBlank, Scan;
    var torn := Line(c, e)[..n];
    var s, at := Text(c, es) + torn, |Text(c, es)|;
    assert s[0..] == s && [] + es == es;
    ScanRecords(c, s, 0, es, torn, []);
    if n == |Line(c, e)| {
      assert torn == Line(c, e) + [];
      ScanOneRecord(c, s, at, e, [], es);
      ScanEnds(c, s, None, es + [e]);
    } else if n == 0 {
      assert s == Text(c, es);
      ScanEnds(c, s, None, es);
    } else {
      TornPrefix(c, e, n);
      ScanUnterminated(c, s, at, es);
    }
  }

  /** Once a record is bad, only blank lines may follow. */
  lemma {:induction false} ScanAfterBad<E>(c: Codec<E>, s: Bytes, offset: nat, bad: nat, entries: seq<E>)
    requires offset <= |s|
    ensures Scan(c, s, offset, Some(bad), entries) == if IsBlank(s[offset..]) then Recovered(entries, bad) else Corrupt(bad)
    decreases |s| - offset
  {
    if offset < |s| {
      var end := LineEnd(s, offset);
      var line := s[offset..end];
      assert s[offset..] == line + s[end..];
      assert IsBlank(BodyOf(line)) <==> IsBlank(line) by {
        assert Terminated(line) ==> line == BodyOf(line) + [Newline];
      }
      assert IsBlank(s[offset..]) <==> IsBlank(line) && IsBlank(s[end..]) by {
        BlankConcat(line, s[end..]);
      }
      ScanAfterBad(c, s, end, bad, entries);
    }
  }

  lemma BlankConcat(a: Bytes, b: Bytes)
    ensures IsBlank(a + b) <==> IsBlank(a) && IsBlank(b)
  {
    assert forall i | 0 <= i < |a| :: (a + b)[i] == a[i];
    assert forall i | 0 <= i < |b| :: (a + b)[|a| + i] == b[i];
  }

  /** A complete but unreadable record after the records `es` is truncated away if only blank lines follow, and refused
      as corruption if anything else follows. */
  lemma BadRecordIsFatalUnlessLast<E(!new)>(c: Codec<E>, es: seq<E>, body: Bytes, rest: Bytes)
    requires LineCodec(c) && Newline !in body && !IsBlank(body) && c.decode(body) == None
    ensures var s, at := Text(c, es) + (body + [Newline] + rest), |Text(c, es)|;
            Scan(c, s, 0, None, []) == if IsBlank(rest) then Recovered(es, at) else Corrupt(at)
  {
    hide Scan, Text, LineCodec;
    var tail := body + [Newline] + rest;
    var s, at := Text(c, es) + tail, |Text(c, es)|;
    assert s[0..] == s && [] + es == es;
    ScanRecords(c, s, 0, es, tail, []);
    ScanBadRecord(c, s, at, body, rest, es);
  }

  lemma ScanBadRecord<E>(c: Codec<E>, s: Bytes, at: nat, body: Bytes, rest: Bytes, entries: seq<E>)
    requires at <= |s| && s[at..] == body + [Newline] + rest
    requires Newline !in body && !IsBlank(body) && c.decode(body) == None
    ensures Scan(c, s, at, None, entries) == if IsBlank(rest) then Recovered(entries, at) else Corrupt(at)
  {
    hide Scan, IsBlank, LineEnd, BodyOf, Terminated;
    FirstLine(s, at, body, rest);
    BodyOfLine(body);
    ScanStep(c, s, at, None, entries);
    ScanAfterBad(c, s, at + |body| + 1, at, entries);
  }
}
