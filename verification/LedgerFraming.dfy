/** Data exchange with a Ledger device (ledger/usbwallet/ledger.go): requests are cut
    into numbered packets, replies are put together from 64-byte packets. */
module LedgerFraming {
  import opened Bits
  import opened Endian
  import opened Options

  const PACKET: nat := 64
  const SPACE: nat := 59
  const TWO_16: int := 0x1_0000

  // --------------------------------------------------------------------- requests

  datatype Request = Request(opcode: byte, p1: byte, p2: byte, data: Bytes)

  /** The APDU with its length in front; both length fields keep their low bits only. */
  function Apdu(q: Request): (a: Bytes)
    ensures |a| == 7 + |q.data|
  {
    BigEndian((5 + |q.data|) % TWO_16, 2) + [0xe0, q.opcode, q.p1, q.p2, |q.data| % 256] + q.data
  }

  /** Channel, command tag and packet number. */
  function Header(i: nat): (h: Bytes)
    ensures |h| == 5
  {
    [1, 1, 5] + BigEndian(i % TWO_16, 2)
  }

  /** The packets that carry `a`, numbered from `i`. */
  function Packets(a: Bytes, i: nat): (ps: seq<Bytes>)
    decreases |a|
  {
    if a == [] then []
    else if |a| > SPACE then [Header(i) + a[..SPACE]] + Packets(a[SPACE..], i + 1)
    else [Header(i) + a]
  }

  /** The payloads of packets, one after the other. */
  function Payloads(ps: seq<Bytes>): Bytes
    requires forall k :: 0 <= k < |ps| ==> |ps[k]| >= 5
  {
    if ps == [] then [] else ps[0][5..] + Payloads(ps[1..])
  }

  /** How many packets of `space` bytes `n` bytes need. */
  function PacketCount(n: nat): nat {
    (n + SPACE - 1) / SPACE
  }

  /** At `pos` stand channel 0x0101, tag 0x05 and the packet number `i`, high byte first. */
  predicate Numbered(d: Bytes, pos: nat, i: nat) {
    && pos + 5 <= |d| && d[pos] == 0x01 && d[pos + 1] == 0x01 && d[pos + 2] == 0x05
    && d[pos + 3] == i % 65536 / 256 && d[pos + 4] == i % 256
  }

  lemma {:induction false} TwoBytes(i: nat)
    requires i < TWO_16
    ensures BigEndian(i, 2) == [i / 256, i % 256]
  {
    assert BigEndian(i / 256, 1) == BigEndian(i / 256 / 256, 0) + [i / 256 % 256];
  }

  lemma {:induction false} HeaderNumbered(i: nat)
    ensures Numbered(Header(i), 0, i)
  {
    TwoBytes(i % TWO_16);
    hide BigEndian;
  }

  /** Packets are numbered in order, two bytes high byte first, and hold 64 bytes, the last
      perhaps fewer. */
  lemma {:induction false} PacketsShape(a: Bytes, i: nat, k: nat)
    requires k < |Packets(a, i)|
    ensures var p := Packets(a, i)[k];
            5 < |p| <= 64 && Numbered(p, 0, i + k) && (k + 1 < |Packets(a, i)| ==> |p| == 64)
    decreases |a|
  {
    hide Header;
    var ps := Packets(a, i);
    if k == 0 {
      HeaderNumbered(i);
      assert ps[0][..5] == Header(i);
    } else {
      PacketsShape(a[SPACE..], i + 1, k - 1);
      assert ps[k] == Packets(a[SPACE..], i + 1)[k - 1];
    }
  }

  lemma {:induction false} PacketsCount(a: Bytes, i: nat)
    ensures |Packets(a, i)| == PacketCount(|a|)
    decreases |a|
  {
    hide Header;
    if |a| > SPACE { PacketsCount(a[SPACE..], i + 1); }
  }

  /** Packets stripped of their headers add up to the APDU. */
  lemma {:induction false} PacketsCarry(a: Bytes, i: nat)
    ensures forall k :: 0 <= k < |Packets(a, i)| ==> |Packets(a, i)[k]| >= 5
    ensures Payloads(Packets(a, i)) == a
    decreases |a|
  {
    hide Header;
    forall k | 0 <= k < |Packets(a, i)| ensures |Packets(a, i)[k]| >= 5 { PacketsShape(a, i, k); }
    var ps := Packets(a, i);
    if |a| > SPACE {
      PacketsCarry(a[SPACE..], i + 1);
      assert ps[1..] == Packets(a[SPACE..], i + 1);
      assert ps[0][5..] == a[..SPACE];
      assert a == a[..SPACE] + a[SPACE..];
    } else if a != [] {
      assert ps[0][5..] == a;
      assert ps[1..] == [];
    }
  }

  // ------------------------------------------------------- what the device makes of it

  predicate WellNumbered(ps: seq<Bytes>) {
    forall k :: 0 <= k < |ps| ==> Numbered(ps[k], 0, k)
  }

  /** An APDU as the device reads it: both lengths must agree with what follows. */
  function ParseApdu(a: Bytes): Option<Request> {
    if |a| < 7 || FromBigEndian(a[..2]) != |a| - 2 || a[2] != 0xe0 || a[6] != |a| - 7 then None
    else Some(Request(a[3], a[4], a[5], a[7..]))
  }

  function ParsePackets(ps: seq<Bytes>): Option<Request> {
    if WellNumbered(ps) then ParseApdu(Payloads(ps)) else None
  }

  /** The device recovers opcode, parameters and data exactly when the data is short
      enough for its one-byte length; longer requests are rejected, never misread. */
  lemma {:induction false} RequestRecovered(q: Request)
    ensures ParsePackets(Packets(Apdu(q), 0)) == if |q.data| < 256 then Some(q) else None
  {
    hide Header, Packets, BigEndian, FromBigEndian;
    var a := Apdu(q);
    var ps := Packets(a, 0);
    PacketsCarry(a, 0);
    forall k | 0 <= k < |ps| ensures Numbered(ps[k], 0, k) { PacketsShape(a, 0, k); }
    ApduParts(q);
  }

  lemma {:induction false} ApduParts(q: Request)
    ensures var a := Apdu(q);
            && a[2] == 0xe0 && a[3] == q.opcode && a[4] == q.p1 && a[5] == q.p2
            && a[6] == |q.data| % 256 && a[7..] == q.data
            && FromBigEndian(a[..2]) == (5 + |q.data|) % TWO_16
  {
    hide FromBigEndian;
    var n := (5 + |q.data|) % TWO_16;
    assert Pow256(2) == 256 * Pow256(1) == TWO_16;
    BigEndianInverse(n, 2);
    hide BigEndian;
    assert Apdu(q)[..2] == BigEndian(n, 2);
  }

  // ------------------------------------------------------------- derivation paths

  type Path = seq<uint32>

  function Components(path: Path): (s: Bytes)
    ensures |s| == 4 * |path|
  {
    if path == [] then [] else Components(path[..|path| - 1]) + BigEndian(path[|path| - 1], 4)
  }

  /** The number of components, in one byte, and the components. */
  function PathBytes(path: Path): Bytes {
    [|path| % 256] + Components(path)
  }

  function ParseComponents(s: Bytes, n: nat): (p: Path)
    requires |s| == 4 * n
    ensures |p| == n
  {
    if n == 0 then []
    else
      Word(s[4 * n - 4..]);
      ParseComponents(s[..4 * n - 4], n - 1) + [FromBigEndian(s[4 * n - 4..])]
  }

  lemma {:induction false} Word(s: Bytes)
    requires |s| == 4
    ensures FromBigEndian(s) < TWO_32
  {
    assert s[..3][..2] == s[..2] && s[..2][..1] == s[..1] && s[..1][..0] == [];
    assert FromBigEndian(s[..1]) == s[0];
    var a: int, b: int := s[0], s[1];
    assert FromBigEndian(s[..2]) == 256 * a + b;
    assert FromBigEndian(s[..3]) == 256 * (256 * a + b) + s[2];
  }

  lemma {:induction false} WordInverse(v: uint32)
    ensures FromBigEndian(BigEndian(v, 4)) == v
  {
    hide BigEndian, FromBigEndian;
    assert Pow256(4) == 256 * Pow256(3) == 0x1_0000 * Pow256(2) == 0x100_0000 * Pow256(1) == TWO_32;
    BigEndianInverse(v, 4);
  }

  lemma {:induction false} ParseSnoc(front: Bytes, w: Bytes, n: nat)
    requires |front| == 4 * n && |w| == 4
    ensures FromBigEndian(w) < TWO_32
    ensures ParseComponents(front + w, n + 1) == ParseComponents(front, n) + [FromBigEndian(w)]
  {
    hide FromBigEndian;
    Word(w);
    var s := front + w;
    assert s[..|front|] == front && s[|front|..] == w;
  }

  lemma {:induction false} ComponentsInverse(path: Path)
    ensures ParseComponents(Components(path), |path|) == path
  {
    hide BigEndian, FromBigEndian, ParseComponents;
    if path == [] {
      EmptyPath();
    } else {
      var n := |path| - 1;
      ComponentsInverse(path[..n]);
      WordInverse(path[n]);
      ParseSnoc(Components(path[..n]), BigEndian(path[n], 4), n);
    }
  }

  lemma {:induction false} EmptyPath()
    ensures ParseComponents([], 0) == []
  {
  }

  /** The data of a signing request: path, then two 32-byte hashes. */
  function SignData(path: Path, domainHash: Bytes, messageHash: Bytes): Bytes {
    PathBytes(path) + domainHash + messageHash
  }

  /** The device's reading of it. */
  function ParseSignData(s: Bytes): Option<(Path, Bytes, Bytes)> {
    if |s| < 1 then None
    else
      var n: nat := s[0];
      var m := 1 + 4 * n;
      if |s| != m + 64 then None else Some((ParseComponents(s[1..m], n), s[m..m + 32], s[m + 32..]))
  }

  function ParsePath(s: Bytes): Option<Path> {
    if |s| < 1 then None
    else
      var n: nat := s[0];
      if |s| != 1 + 4 * n then None else Some(ParseComponents(s[1..], n))
  }

  lemma {:induction false} PathRecovered(path: Path)
    requires |path| < 256
    ensures ParsePath(PathBytes(path)) == Some(path)
  {
    hide Components, ParseComponents;
    ComponentsInverse(path);
    assert PathBytes(path)[1..] == Components(path);
  }

  lemma {:induction false} SignDataRecovered(path: Path, domainHash: Bytes, messageHash: Bytes)
    requires |path| < 256 && |domainHash| == 32 && |messageHash| == 32
    ensures ParseSignData(SignData(path, domainHash, messageHash)) == Some((path, domainHash, messageHash))
  {
    hide Components, ParseComponents;
    var s := SignData(path, domainHash, messageHash);
    var m := 1 + 4 * |path|;
    ComponentsInverse(path);
    assert s[1..m] == Components(path);
    assert s[m..m + 32] == domainHash;
    assert s[m + 32..] == messageHash;
  }

  const OP_RETRIEVE_ADDRESS: byte := 0x02
  const OP_SIGN_TYPED_MESSAGE: byte := 0x0c

  /** ledgerDerive: no confirmation on the device, no chain code. */
  function DeriveRequest(path: Path): Request {
    Request(OP_RETRIEVE_ADDRESS, 0, 0, PathBytes(path))
  }

  /** ledgerSignTypedMessage. */
  function SignRequest(path: Path, domainHash: Bytes, messageHash: Bytes): Request {
    Request(OP_SIGN_TYPED_MESSAGE, 0, 0, SignData(path, domainHash, messageHash))
  }

  /** From the packets of a derivation request the device recovers opcode 2 and the path
      exactly when it has at most 63 components, well above the ten the protocol allows. */
  lemma {:induction false} DeriveRecovered(path: Path)
    ensures var got := ParsePackets(Packets(Apdu(DeriveRequest(path)), 0));
            && (got.Some? <==> |path| <= 63)
            && (got.Some? ==>
                  && (got.value.opcode, got.value.p1, got.value.p2) == (2, 0, 0)
                  && ParsePath(got.value.data) == Some(path))
  {
    hide ParsePackets, Packets, Apdu, Components, ParsePath;
    RequestRecovered(DeriveRequest(path));
    if |path| <= 63 { PathRecovered(path); }
  }

  /** From the packets of a signing request it recovers opcode 12, path and hashes, in this
      order, exactly up to 47 components. */
  lemma {:induction false} SignRecovered(path: Path, domainHash: Bytes, messageHash: Bytes)
    requires |domainHash| == 32 && |messageHash| == 32
    ensures var got := ParsePackets(Packets(Apdu(SignRequest(path, domainHash, messageHash)), 0));
            && (got.Some? <==> |path| <= 47)
            && (got.Some? ==>
                  && (got.value.opcode, got.value.p1, got.value.p2) == (12, 0, 0)
                  && ParseSignData(got.value.data) == Some((path, domainHash, messageHash)))
  {
    hide ParsePackets, Packets, Apdu, Components, ParseSignData;
    RequestRecovered(SignRequest(path, domainHash, messageHash));
    if |path| <= 47 { SignDataRecovered(path, domainHash, messageHash); }
  }

  // ---------------------------------------------------------------------- replies

  /** How reading a reply ends; the driver panics when it cuts two status bytes off a
      reply that is shorter. */
  datatype Outcome = Reply(bytes: Bytes) | ReadError | BadHeader | Panic

  predicate GoodHeader(d: Bytes, pos: nat)
    requires pos + PACKET <= |d|
  {
    d[pos] == 1 && d[pos + 1] == 1 && d[pos + 2] == 5
  }

  /** A packet with number 0 announces the length of the reply. */
  predicate Announces(d: Bytes, pos: nat)
    requires pos + PACKET <= |d|
  {
    d[pos + 3] == 0 && d[pos + 4] == 0
  }

  function Announced(d: Bytes, pos: nat): nat
    requires pos + PACKET <= |d|
  {
    FromBigEndian(d[pos + 5..pos + 7])
  }

  /** The reading loop on the device's byte stream `d` at `pos`, with a reply of
      capacity `cap` of which `got` is filled; also where it stops reading. */
  function ReadFrom(d: Bytes, pos: nat, cap: nat, got: Bytes): (r: (Outcome, nat))
    requires pos <= |d| && |got| <= cap
    ensures r.0 == ReadError || r.1 >= pos + PACKET
    decreases |d| - pos
  {
    if pos + PACKET > |d| then (ReadError, |d|)
    else if !GoodHeader(d, pos) then (BadHeader, pos + PACKET)
    else
      var first := Announces(d, pos);
      var cap' := if first then Announced(d, pos) else cap;
      var got' := if first then [] else got;
      var payload := d[pos + (if first then 7 else 5)..pos + PACKET];
      var left := cap' - |got'|;
      if left > |payload| then ReadFrom(d, pos + PACKET, cap', got' + payload)
      else if cap' < 2 then (Panic, pos + PACKET)
      else (Reply((got' + payload[..left])[..cap' - 2]), pos + PACKET)
  }

  /** From `pos` on, `d` carries `reply` from its byte `done` on, in packets numbered
      from `i`, each padded to 64 bytes with anything. */
  ghost predicate Continues(d: Bytes, pos: nat, reply: Bytes, done: nat, i: nat)
    decreases |d| - pos
  {
    && done <= |reply| && pos + PACKET <= |d|
    && Numbered(d, pos, i)
    && var n := if |reply| - done < SPACE then |reply| - done else SPACE;
       && At(d, pos + 5, reply[done..done + n])
       && (|reply| - done > SPACE ==> Continues(d, pos + PACKET, reply, done + SPACE, i + 1))
  }

  /** The device's framing of a whole reply: its length, 57 bytes, then 59 a packet. */
  ghost predicate Framed(d: Bytes, pos: nat, reply: Bytes) {
    && pos + PACKET <= |d| && |reply| < TWO_16
    && Numbered(d, pos, 0) && d[pos + 5] == |reply| / 256 && d[pos + 6] == |reply| % 256
    && var n := if |reply| < 57 then |reply| else 57;
       && At(d, pos + 7, reply[..n])
       && (|reply| > 57 ==> Continues(d, pos + PACKET, reply, 57, 1))
  }

  function ReplyPackets(n: nat): nat {
    if n <= 57 then 1 else 1 + PacketCount(n - 57)
  }

  lemma {:induction false} ReadContinues(d: Bytes, pos: nat, reply: Bytes, done: nat, i: nat)
    requires Continues(d, pos, reply, done, i)
    requires 2 <= |reply| && done < |reply| && 0 < i && SPACE * i + (|reply| - done) < SPACE * TWO_16
    ensures ReadFrom(d, pos, |reply|, reply[..done])
            == (Reply(reply[..|reply| - 2]), pos + PACKET * PacketCount(|reply| - done))
    decreases |d| - pos
  {
    assert i % 65536 == i;
    var n := if |reply| - done < SPACE then |reply| - done else SPACE;
    var payload := d[pos + 5..pos + PACKET];
    AtSlicePrefix(d, pos + 5, reply[done..done + n], pos + PACKET);
    assert payload[..n] == reply[done..done + n];
    assert reply[..done] + reply[done..done + n] == reply[..done + n];
    if |reply| - done > SPACE {
      assert payload[..n] == payload;
      ReadContinues(d, pos + PACKET, reply, done + SPACE, i + 1);
    } else {
      assert reply[..done + n] == reply;
    }
  }

  lemma {:induction false} AtSlicePrefix(d: Bytes, pos: nat, s: Bytes, end: nat)
    requires At(d, pos, s) && pos + |s| <= end <= |d|
    ensures d[pos..end][..|s|] == s
  {
  }

  /** Every framed reply of 2 to 65535 bytes is read back without its two status bytes,
      from exactly the packets it fills, whatever the padding and whatever follows. */
  lemma {:induction false} ReplyRead(d: Bytes, pos: nat, reply: Bytes)
    requires Framed(d, pos, reply) && |reply| >= 2
    ensures ReadFrom(d, pos, 0, []) == (Reply(reply[..|reply| - 2]), pos + PACKET * ReplyPackets(|reply|))
  {
    FirstHeader(d, pos, |reply|);
    hide Continues, PacketCount;
    var n := if |reply| < 57 then |reply| else 57;
    var payload := d[pos + 7..pos + PACKET];
    AtSlicePrefix(d, pos + 7, reply[..n], pos + PACKET);
    assert [] + payload == payload && [] + payload[..n] == payload[..n];
    if |reply| > 57 {
      assert payload == reply[..57];
      ReadContinues(d, pos + PACKET, reply, 57, 1);
    } else {
      assert reply[..n] == reply;
    }
  }

  lemma {:induction false} FirstHeader(d: Bytes, pos: nat, n: nat)
    requires pos + PACKET <= |d| && n < TWO_16 && Numbered(d, pos, 0)
    requires d[pos + 5] == n / 256 && d[pos + 6] == n % 256
    ensures GoodHeader(d, pos) && Announces(d, pos) && Announced(d, pos) == n
  {
    var w := d[pos + 5..pos + 7];
    assert w[..1][..0] == [] && FromBigEndian(w[..1]) == w[0];
  }

  /** A whole packet with the right channel and tag. */
  predicate Readable(d: Bytes, pos: nat) {
    pos + PACKET <= |d| && GoodHeader(d, pos)
  }

  /** How many bytes the reply still lacks behind the packet at `pos`, when it lacked
      `left` in front of it. */
  function LeftAfter(d: Bytes, pos: nat, left: int): int
    requires Readable(d, pos)
  {
    if Announces(d, pos) then Announced(d, pos) - 57 else left - SPACE
  }

  /** `k` packets from `pos` on are readable, and after each of them the reply still lacks
      bytes, so that the driver goes on to the next one. */
  ghost predicate Incomplete(d: Bytes, pos: nat, left: int, k: nat)
    decreases k
  {
    k == 0 || (&& Readable(d, pos) && LeftAfter(d, pos, left) > 0
               && Incomplete(d, pos + PACKET, LeftAfter(d, pos, left), k - 1))
  }

  /** A packet that starts a reply shorter than the two status bytes. */
  predicate TooShort(d: Bytes, pos: nat) {
    Readable(d, pos) && Announces(d, pos) && Announced(d, pos) < 2
  }

  ghost predicate MeetsTooShort(d: Bytes, pos: nat, left: int) {
    exists k: nat :: Incomplete(d, pos, left, k) && TooShort(d, pos + PACKET * k)
  }

  /** Whether a short announcement is met is settled one packet at a time. */
  lemma {:induction false} MeetsNext(d: Bytes, pos: nat, left: int)
    ensures MeetsTooShort(d, pos, left) <==>
              || TooShort(d, pos)
              || (&& Readable(d, pos) && LeftAfter(d, pos, left) > 0
                  && MeetsTooShort(d, pos + PACKET, LeftAfter(d, pos, left)))
  {
    hide TooShort, Readable, LeftAfter;
    if TooShort(d, pos) {
      assert Incomplete(d, pos, left, 0) && TooShort(d, pos + PACKET * 0);
    }
    if Readable(d, pos) && LeftAfter(d, pos, left) > 0 && MeetsTooShort(d, pos + PACKET, LeftAfter(d, pos, left)) {
      var k: nat :| && Incomplete(d, pos + PACKET, LeftAfter(d, pos, left), k)
                    && TooShort(d, pos + PACKET + PACKET * k);
      assert pos + PACKET + PACKET * k == pos + PACKET * (k + 1);
      assert Incomplete(d, pos, left, k + 1) && TooShort(d, pos + PACKET * (k + 1));
    }
    if MeetsTooShort(d, pos, left) && !TooShort(d, pos) {
      var k: nat :| Incomplete(d, pos, left, k) && TooShort(d, pos + PACKET * k);
      assert pos + PACKET * 0 == pos;
      assert pos + PACKET + PACKET * (k - 1) == pos + PACKET * k;
      assert Incomplete(d, pos + PACKET, LeftAfter(d, pos, left), k - 1);
    }
  }

  lemma {:induction false} PanicsLater(d: Bytes, pos: nat, cap: nat, got: Bytes)
    requires pos <= |d| && |got| <= cap && cap >= 2
    ensures ReadFrom(d, pos, cap, got).0 == Panic <==> MeetsTooShort(d, pos, cap - |got|)
    decreases |d| - pos
  {
    MeetsNext(d, pos, cap - |got|);
    hide MeetsTooShort, Announced, GoodHeader, Announces;
    if Readable(d, pos) && !TooShort(d, pos) && LeftAfter(d, pos, cap - |got|) > 0 {
      if Announces(d, pos) {
        PanicsLater(d, pos + PACKET, Announced(d, pos), [] + d[pos + 7..pos + PACKET]);
      } else {
        PanicsLater(d, pos + PACKET, cap, got + d[pos + 5..pos + PACKET]);
      }
    }
  }

  /** On any stream of bytes the driver panics exactly when the first packet is readable
      but not number 0, or some packet met while the reply is incomplete is number 0 and
      announces fewer than the two status bytes. */
  lemma {:induction false} PanicsExactly(d: Bytes, pos: nat)
    requires pos <= |d|
    ensures ReadFrom(d, pos, 0, []).0 == Panic <==>
              (Readable(d, pos) && !Announces(d, pos)) || MeetsTooShort(d, pos, 0)
  {
    MeetsNext(d, pos, 0);
    hide MeetsTooShort, Announced, GoodHeader, Announces;
    if Readable(d, pos) && Announces(d, pos) && Announced(d, pos) > 57 {
      PanicsLater(d, pos + PACKET, Announced(d, pos), [] + d[pos + 7..pos + PACKET]);
    }
  }

  // -------------------------------------------------------------------- the driver

  /** The device as the driver sees it: what it will send and the packets it got. The
      write with number `failing` fails. */
  class Device {
    const stream: Bytes
    const failing: int
    var pos: nat
    var sent: seq<Bytes>

    constructor (stream: Bytes, failing: int)
      ensures this.stream == stream && this.failing == failing && pos == 0 && sent == []
    {
      this.stream, this.failing, pos, sent := stream, failing, 0, [];
    }

    method Write(packet: Bytes) returns (ok: bool)
      modifies this
      ensures ok == (old(|sent|) != failing) && pos == old(pos)
      ensures sent == if ok then old(sent) + [packet] else old(sent)
    {
      ok := |sent| != failing;
      if ok { sent := sent + [packet]; }
    }

    /** Streams the APDU in chunks of at most 64 bytes. */
    method Send(q: Request) returns (ok: bool)
      requires sent == []
      modifies this
      ensures pos == old(pos)
      ensures ok == !(0 <= failing < |Packets(Apdu(q), 0)|)
      ensures sent == if ok then Packets(Apdu(q), 0) else Packets(Apdu(q), 0)[..failing]
    {
      hide Apdu, Header;
      var apdu := Apdu(q);
      ghost var all := Packets(apdu, 0);
      var i := 0;
      while apdu != []
        invariant pos == old(pos) && i == |sent| && all == sent + Packets(apdu, i)
        invariant !(0 <= failing < i)
        decreases |apdu|
      {
        var chunk := Header(i);
        ghost var rest := apdu;
        if |apdu| > SPACE {
          chunk := chunk + apdu[..SPACE];
          apdu := apdu[SPACE..];
        } else {
          chunk := chunk + apdu;
          apdu := [];
        }
        assert Packets(rest, i) == [chunk] + Packets(apdu, i + 1);
        ConcatAssoc(sent, [chunk], Packets(apdu, i + 1));
        ok := Write(chunk);
        if !ok {
          assert all[..failing] == sent;
          return;
        }
        i := i + 1;
      }
      assert sent + [] == sent;
      ok := true;
    }

    /** Reads packets until the announced reply is complete. */
    method Receive() returns (r: Outcome)
      requires pos <= |stream|
      modifies this
      ensures (r, pos) == ReadFrom(stream, old(pos), 0, []) && sent == old(sent)
    {
      hide FromBigEndian;
      var reply: Bytes, capacity: nat := [], 0;
      while true
        invariant pos <= |stream| && |reply| <= capacity && sent == old(sent)
        invariant ReadFrom(stream, pos, capacity, reply) == ReadFrom(stream, old(pos), 0, [])
        decreases |stream| - pos
      {
        if pos + PACKET > |stream| {
          pos := |stream|;
          return ReadError;
        }
        var chunk := stream[pos..pos + PACKET];
        ghost var at := pos;
        pos := pos + PACKET;
        if chunk[0] != 1 || chunk[1] != 1 || chunk[2] != 5 { return BadHeader; }
        var payload;
        if chunk[3] == 0 && chunk[4] == 0 {
          assert chunk[5..7] == stream[at + 5..at + 7] && chunk[7..] == stream[at + 7..at + PACKET];
          reply, capacity := [], FromBigEndian(chunk[5..7]);
          payload := chunk[7..];
        } else {
          assert chunk[5..] == stream[at + 5..at + PACKET];
          payload := chunk[5..];
        }
        var left := capacity - |reply|;
        if left > |payload| {
          reply := reply + payload;
        } else {
          reply := reply + payload[..left];
          if |reply| < 2 { return Panic; }
          return Reply(reply[..|reply| - 2]);
        }
      }
    }

    /** ledgerExchange. */
    method Exchange(q: Request) returns (r: Option<Outcome>)
      requires sent == [] && pos <= |stream|
      modifies this
      ensures r == None <==> 0 <= failing < |Packets(Apdu(q), 0)|
      ensures r != None ==> sent == Packets(Apdu(q), 0) && (r.value, pos) == ReadFrom(stream, old(pos), 0, [])
    {
      var ok := Send(q);
      if !ok { return None; }
      var o := Receive();
      r := Some(o);
    }
  }

  method PutUint32(buffer: array<byte>, at: nat, w: Bytes)
    requires |w| == 4 && at + 4 <= buffer.Length
    modifies buffer
    ensures buffer[..at + 4] == old(buffer[..at]) + w
  {
    buffer[at], buffer[at + 1], buffer[at + 2], buffer[at + 3] := w[0], w[1], w[2], w[3];
  }

  /** The two path encoders fill their buffer in place, one component at a time. */
  method FlattenPath(path: Path) returns (buffer: array<byte>)
    ensures fresh(buffer) && buffer[..] == PathBytes(path)
  {
    hide BigEndian;
    buffer := new byte[1 + 4 * |path|];
    buffer[0] := |path| % 256;
    assert path[..0] == [] && buffer[..1] == [|path| % 256];
    ghost var count: Bytes := [|path| % 256];
    var at := 1;
    for i := 0 to |path|
      invariant at == 1 + 4 * i && at + 4 * (|path| - i) == buffer.Length
      invariant buffer[..at] == count + Components(path[..i])
    {
      var w := BigEndian(path[i], 4);
      PutUint32(buffer, at, w);
      assert path[..i + 1][..i] == path[..i];
      ConcatAssoc(count, Components(path[..i]), w);
      at := at + 4;
    }
    assert path[..|path|] == path && buffer[..at] == buffer[..];
  }
}
