/** What the Ledger driver makes of any stream of bytes (ledgerExchange in
    ledger/usbwallet/ledger.go): when reading ends with which outcome, and what a reply
    consists of. */
module LedgerReplies {
  import opened Bits
  import opened Endian
  import opened LedgerFraming

  // ----------------------------------------------------------------- when it gives up

  /** At `p` the driver gives up: the stream ends within the packet, or the packet does not
      start with channel 0x0101 and tag 0x05. */
  predicate GivesUp(d: Bytes, p: nat, o: Outcome) {
    if o == ReadError then p + 64 > |d| else p + 64 <= |d| && d[p..p + 3] != [0x01, 0x01, 0x05]
  }

  /** It does so at a packet that it comes to while the reply is incomplete. */
  ghost predicate MeetsEnd(d: Bytes, pos: nat, left: int, o: Outcome) {
    exists k: nat :: Incomplete(d, pos, left, k) && GivesUp(d, pos + PACKET * k, o)
  }

  lemma {:induction false} HeaderIs(d: Bytes, pos: nat, o: Outcome)
    requires pos <= |d| && (o == ReadError || o == BadHeader)
    ensures Readable(d, pos) ==> !GivesUp(d, pos, o)
    ensures !Readable(d, pos) ==> (GivesUp(d, pos, o) <==> o == if pos + PACKET > |d| then ReadError else BadHeader)
  {
    if pos + PACKET <= |d| {
      var h := d[pos..pos + 3];
      assert h[0] == d[pos] && h[1] == d[pos + 1] && h[2] == d[pos + 2];
    }
  }

  lemma {:induction false} EndNext(d: Bytes, pos: nat, left: int, o: Outcome)
    requires pos <= |d| && (o == ReadError || o == BadHeader)
    ensures MeetsEnd(d, pos, left, o) <==>
              || GivesUp(d, pos, o)
              || (&& Readable(d, pos) && LeftAfter(d, pos, left) > 0
                  && MeetsEnd(d, pos + PACKET, LeftAfter(d, pos, left), o))
  {
    HeaderIs(d, pos, o);
    hide GivesUp, Readable, LeftAfter;
    if GivesUp(d, pos, o) {
      assert Incomplete(d, pos, left, 0) && GivesUp(d, pos + PACKET * 0, o);
    }
    if Readable(d, pos) && LeftAfter(d, pos, left) > 0 && MeetsEnd(d, pos + PACKET, LeftAfter(d, pos, left), o) {
      var k: nat :| && Incomplete(d, pos + PACKET, LeftAfter(d, pos, left), k)
                    && GivesUp(d, pos + PACKET + PACKET * k, o);
      assert pos + PACKET + PACKET * k == pos + PACKET * (k + 1);
      assert Incomplete(d, pos, left, k + 1) && GivesUp(d, pos + PACKET * (k + 1), o);
    }
    if MeetsEnd(d, pos, left, o) && !GivesUp(d, pos, o) {
      var k: nat :| Incomplete(d, pos, left, k) && GivesUp(d, pos + PACKET * k, o);
      assert pos + PACKET * 0 == pos;
      assert pos + PACKET + PACKET * (k - 1) == pos + PACKET * k;
      assert Incomplete(d, pos + PACKET, LeftAfter(d, pos, left), k - 1);
    }
  }

  lemma {:induction false} EndsFrom(d: Bytes, pos: nat, cap: nat, got: Bytes, o: Outcome)
    requires pos <= |d| && |got| <= cap && (o == ReadError || o == BadHeader)
    ensures ReadFrom(d, pos, cap, got).0 == o <==> MeetsEnd(d, pos, cap - |got|, o)
    decreases |d| - pos
  {
    EndNext(d, pos, cap - |got|, o);
    HeaderIs(d, pos, o);
    hide MeetsEnd, GivesUp, Announced, GoodHeader, Announces;
    if Readable(d, pos) && LeftAfter(d, pos, cap - |got|) > 0 {
      if Announces(d, pos) {
        EndsFrom(d, pos + PACKET, Announced(d, pos), [] + d[pos + 7..pos + PACKET], o);
      } else {
        EndsFrom(d, pos + PACKET, cap, got + d[pos + 5..pos + PACKET], o);
      }
    }
  }

  /** Reading fails exactly when the stream ends while the reply is incomplete, and the
      reply is refused for its header exactly when a packet met while it is incomplete does
      not start with channel and tag. */
  lemma {:induction false} GivesUpExactly(d: Bytes, pos: nat)
    requires pos <= |d|
    ensures ReadFrom(d, pos, 0, []).0 == ReadError <==> MeetsEnd(d, pos, 0, ReadError)
    ensures ReadFrom(d, pos, 0, []).0 == BadHeader <==> MeetsEnd(d, pos, 0, BadHeader)
  {
    hide ReadFrom, MeetsEnd;
    EndsFrom(d, pos, 0, [], ReadError);
    EndsFrom(d, pos, 0, [], BadHeader);
  }

  // ---------------------------------------------------------------- what a reply holds

  /** What has been collected after `k` packets: a packet number 0 starts afresh behind its
      length, any other number adds its payload, whatever that number is. */
  function Collected(d: Bytes, pos: nat, got: Bytes, k: nat): Bytes
    requires pos + 64 * k <= |d|
    decreases k
  {
    if k == 0 then got
    else
      var p := pos + 64 * (k - 1);
      if d[p + 3] == 0 && d[p + 4] == 0 then d[p + 7..p + 64] else Collected(d, pos, got, k - 1) + d[p + 5..p + 64]
  }

  /** The length announced last. */
  function Wanted(d: Bytes, pos: nat, cap: nat, k: nat): nat
    requires pos + 64 * k <= |d|
    decreases k
  {
    if k == 0 then cap
    else
      var p := pos + 64 * (k - 1);
      if d[p + 3] == 0 && d[p + 4] == 0 then 256 * d[p + 5] + d[p + 6] else Wanted(d, pos, cap, k - 1)
  }

  lemma {:induction false} CollectedShift(d: Bytes, pos: nat, cap: nat, got: Bytes, k: nat)
    requires pos + 64 + 64 * k <= |d|
    ensures Collected(d, pos, got, k + 1) == Collected(d, pos + 64, Collected(d, pos, got, 1), k)
    ensures Wanted(d, pos, cap, k + 1) == Wanted(d, pos + 64, Wanted(d, pos, cap, 1), k)
    decreases k
  {
    if k > 0 {
      var p := pos + 64 * k;
      assert p == pos + 64 * (k + 1 - 1) && p == pos + 64 + 64 * (k - 1);
      CollectedShift(d, pos, cap, got, k - 1);
    }
  }

  lemma {:induction false} OnePacket(d: Bytes, pos: nat, cap: nat, got: Bytes)
    requires pos + 64 <= |d|
    ensures Wanted(d, pos, cap, 1) == if Announces(d, pos) then Announced(d, pos) else cap
    ensures Collected(d, pos, got, 1)
            == (if Announces(d, pos) then [] else got) + d[pos + (if Announces(d, pos) then 7 else 5)..pos + 64]
  {
    var w := d[pos + 5..pos + 7];
    var high: int := w[0];
    assert w[..1][..0] == [] && FromBigEndian(w[..1]) == w[0];
    assert FromBigEndian(w) == 256 * high + w[1];
    assert pos + 64 * (1 - 1) == pos;
    assert [] + d[pos + 7..pos + 64] == d[pos + 7..pos + 64];
  }

  /** One turn of the loop in these terms. */
  lemma {:induction false} ReadNext(d: Bytes, pos: nat, cap: nat, got: Bytes)
    requires Readable(d, pos) && |got| <= cap
    ensures var cap', got' := Wanted(d, pos, cap, 1), Collected(d, pos, got, 1);
            && LeftAfter(d, pos, cap - |got|) == cap' - |got'|
            && ReadFrom(d, pos, cap, got)
               == if cap' > |got'| then ReadFrom(d, pos + 64, cap', got')
                  else if cap' < 2 then (Panic, pos + 64)
                  else (Reply(got'[..cap' - 2]), pos + 64)
  {
    hide Announced, GoodHeader, Wanted, Collected;
    OnePacket(d, pos, cap, got);
    var first := Announces(d, pos);
    var cap', was := Wanted(d, pos, cap, 1), if first then [] else got;
    var payload := d[pos + (if first then 7 else 5)..pos + PACKET];
    if |was| <= cap' <= |was + payload| && cap' >= 2 {
      assert (was + payload[..cap' - |was|])[..cap' - 2] == (was + payload)[..cap' - 2];
    }
  }

  /** `r` is what `k` packets make of a reply: they are readable, all but the last leave it
      incomplete, and it is what was collected since the last packet number 0, cut to the
      length announced there less the two status bytes. */
  ghost predicate Assembled(d: Bytes, pos: nat, cap: nat, got: Bytes, k: nat, r: Bytes) {
    && 1 <= k && pos + 64 * k <= |d| && |got| <= cap && Incomplete(d, pos, cap - |got|, k - 1)
    && var n := Wanted(d, pos, cap, k);
       2 <= n <= |Collected(d, pos, got, k)| && r == Collected(d, pos, got, k)[..n - 2]
  }

  lemma {:induction false} IncompleteNext(d: Bytes, pos: nat, left: int, k: nat)
    requires Readable(d, pos) && LeftAfter(d, pos, left) > 0 && Incomplete(d, pos + 64, LeftAfter(d, pos, left), k)
    ensures Incomplete(d, pos, left, k + 1)
  {
  }

  lemma {:induction false} IncompleteNone(d: Bytes, pos: nat, left: int)
    ensures Incomplete(d, pos, left, 0)
  {
  }

  lemma {:induction false} AssembledNext(d: Bytes, pos: nat, cap: nat, got: Bytes, k: nat, r: Bytes)
    requires Readable(d, pos) && |got| <= cap
    requires var cap', got' := Wanted(d, pos, cap, 1), Collected(d, pos, got, 1);
             && cap' > |got'| && LeftAfter(d, pos, cap - |got|) == cap' - |got'|
             && Assembled(d, pos + 64, cap', got', k, r)
    ensures Assembled(d, pos, cap, got, k + 1, r)
  {
    hide Incomplete, LeftAfter, GoodHeader, Wanted, Collected;
    CollectedShift(d, pos, cap, got, k);
    IncompleteNext(d, pos, cap - |got|, k - 1);
  }

  /** Reading from within a reply. */
  lemma {:induction false} ReplyFrom(d: Bytes, pos: nat, cap: nat, got: Bytes) returns (k: nat)
    requires pos <= |d| && |got| <= cap && ReadFrom(d, pos, cap, got).0.Reply?
    ensures var (r, end) := ReadFrom(d, pos, cap, got);
            Assembled(d, pos, cap, got, k, r.bytes) && end == pos + 64 * k
    decreases |d| - pos
  {
    assert Readable(d, pos);
    ReadNext(d, pos, cap, got);
    var cap', got' := Wanted(d, pos, cap, 1), Collected(d, pos, got, 1);
    var r := ReadFrom(d, pos, cap, got).0.bytes;
    hide LeftAfter, ReadFrom, Wanted, Collected, GoodHeader, Assembled;
    if cap' > |got'| {
      var j := ReplyFrom(d, pos + 64, cap', got');
      AssembledNext(d, pos, cap, got, j, r);
      k := j + 1;
    } else {
      k := 1;
      AssembledOne(d, pos, cap, got);
    }
  }

  lemma {:induction false} AssembledOne(d: Bytes, pos: nat, cap: nat, got: Bytes)
    requires pos + 64 <= |d| && |got| <= cap && 2 <= Wanted(d, pos, cap, 1) <= |Collected(d, pos, got, 1)|
    ensures Assembled(d, pos, cap, got, 1, Collected(d, pos, got, 1)[..Wanted(d, pos, cap, 1) - 2])
  {
    hide Wanted, Collected;
    IncompleteNone(d, pos, cap - |got|);
  }

  /** Whatever is returned as a reply was put together from the packets that were read. */
  lemma {:induction false} ReplySound(d: Bytes, pos: nat) returns (k: nat)
    requires pos <= |d| && ReadFrom(d, pos, 0, []).0.Reply?
    ensures var (r, end) := ReadFrom(d, pos, 0, []);
            Assembled(d, pos, 0, [], k, r.bytes) && end == pos + 64 * k
  {
    k := ReplyFrom(d, pos, 0, []);
  }
}
