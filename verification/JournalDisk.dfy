/** The file of a journal as bytes: what a restart reads back is what the state machine says it does. */
module JournalDisk {
  import opened Basics
  import opened PeerTypes
  import opened JournalSpec
  import opened TailRecovery

  /** The durable lines, then the first `n` bytes of a line whose append failed, if there is one. */
  function DiskBytes(c: Codec<Entry>, j: JournalState, n: nat): Bytes {
    Text(c, j.file) + match j.torn
                      case None => []
                      case Some(e) => if n <= |Line(c, e)| then Line(c, e)[..n] else Line(c, e)
  }

  predicate TornSurvives(c: Codec<Entry>, j: JournalState, n: nat) {
    j.torn.Some? && n >= |Line(c, j.torn.value)|
  }

  lemma {:induction false} TextSnoc<E>(c: Codec<E>, es: seq<E>, e: E)
    ensures Text(c, es + [e]) == Text(c, es) + Line(c, e)
  {
    if es == [] {
      assert es + [e] == [e] && Text(c, [e]) == Line(c, e) + Text(c, []);
    } else {
      TextSnoc(c, es[1..], e);
      assert (es + [e])[1..] == es[1..] + [e];
    }
  }

  /** Whatever part of a failed record is on disk, recovery reads the entries a restart continues with, and the bytes it
      keeps are exactly those entries. */
  lemma RestartReadsDisk(c: Codec<Entry>, j: JournalState, n: nat)
    requires LineCodec(c)
    ensures var s, es := DiskBytes(c, j, n), j.file + SurvivingTail(j, TornSurvives(c, j, n));
            Scan(c, s, 0, None, []) == Recovered(es, |Text(c, es)|) && |Text(c, es)| <= |s| && s[..|Text(c, es)|] == Text(c, es)
  {
    hide LineCodec, Scan, Text, Line;
    var e := if j.torn.Some? then j.torn.value else Entry(0, Checkpoint, [], NoDigest, None, None, None, None, None, 0);
    var all := |Line(c, e)|;
    var kept := if j.torn.None? then 0 else if n <= all then n else all;
    TornTailIsRecovered(c, j.file, e, kept);
    assert DiskBytes(c, j, n) == Text(c, j.file) + Line(c, e)[..kept];
    if kept == all {
      LineNotEmpty(c, e);
      TextSnoc(c, j.file, e);
      assert Line(c, e)[..kept] == Line(c, e);
    } else {
      assert j.file + [] == j.file;
    }
  }

  lemma LineNotEmpty<E>(c: Codec<E>, e: E)
    ensures |Line(c, e)| > 0
  {
  }
}
