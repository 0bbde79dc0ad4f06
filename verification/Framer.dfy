/** The IP framer over the tunnel's byte stream (pkg/tundevice/framer.go) and
    the destination check of the sending side (pkg/tundevice/router.go). */
module Framer {

  type Byte = b: int | 0 <= b < 256

  const MAX_PACKET: nat := 65535

  function Uint16(hi: Byte, lo: Byte): nat { hi * 256 + lo }

  /** What the first bytes of the buffer say about the packet that starts there. */
  datatype Header = NeedMore | Malformed | Total(n: nat)

  function Inspect(buf: seq<Byte>): (h: Header)
    requires buf != []
    ensures h.Total? ==> 20 <= h.n <= MAX_PACKET
    ensures h.NeedMore? ==> |buf| < 60
  {
    if buf[0] / 16 == 4 then
      if |buf| < 20 then NeedMore
      else
        var headerLen := buf[0] % 16 * 4;
        if headerLen < 20 then Malformed
        else if |buf| < headerLen then NeedMore
        else
          var total := Uint16(buf[2], buf[3]);
          if total < headerLen || total > MAX_PACKET then Malformed else Total(total)
    else if buf[0] / 16 == 6 then
      if |buf| < 40 then NeedMore
      else
        var payload := Uint16(buf[4], buf[5]);
        if payload == 0 && buf[6] == 0 then Malformed
        else if 40 + payload > MAX_PACKET then Malformed else Total(40 + payload)
    else Malformed
  }

  /** One pass over a buffer; `discarded` tells that a malformed header emptied it. */
  datatype Parsed = Parsed(packets: seq<seq<Byte>>, rest: seq<Byte>, discarded: bool)

  function Parse(buf: seq<Byte>): Parsed
    decreases |buf|
  {
    if buf == [] then Parsed([], [], false)
    else
      match Inspect(buf)
      case Malformed => Parsed([], [], true)
      case NeedMore => Parsed([], buf, false)
      case Total(n) =>
        if |buf| < n then Parsed([], buf, false)
        else
          var tail := Parse(buf[n..]);
          Parsed([buf[..n]] + tail.packets, tail.rest, tail.discarded)
  }

  /** One turn of the loop. */
  lemma ParseStep(buf: seq<Byte>)
    requires buf != []
    ensures Parse(buf) ==
      match Inspect(buf)
      case Malformed => Parsed([], [], true)
      case NeedMore => Parsed([], buf, false)
      case Total(n) =>
        if |buf| < n then Parsed([], buf, false)
        else Parsed([buf[..n]] + Parse(buf[n..]).packets, Parse(buf[n..]).rest, Parse(buf[n..]).discarded)
  {
  }

  lemma Regroup(a: seq<seq<Byte>>, p: seq<Byte>, b: seq<seq<Byte>>)
    ensures a + ([p] + b) == a + [p] + b
  {
  }

  class IpFramer {
    var buf: seq<Byte>

    constructor ()
      ensures buf == []
    {
      buf := [];
    }

    /** feed: appends the bytes and cuts off every complete packet. */
    method Feed(b: seq<Byte>) returns (out: seq<seq<Byte>>)
      modifies this
      ensures out == Parse(old(buf) + b).packets && buf == Parse(old(buf) + b).rest
    {
      buf := buf + b;
      ghost var all := Parse(buf);
      RestShort(buf);
      out := [];
      var more := true;
      while more && |buf| > 0
        invariant all.packets == out + Parse(buf).packets && all.rest == Parse(buf).rest
        invariant !more ==> Parse(buf).packets == [] && Parse(buf).rest == buf
        decreases more, |buf|
      {
        var header := Inspect(buf);
        ParseStep(buf);
        if header == Malformed {
          buf := [];
          return;
        }
        if header == NeedMore || |buf| < header.n {
          more := false;
        } else {
          Regroup(out, buf[..header.n], Parse(buf[header.n..]).packets);
          out := out + [buf[..header.n]];
          buf := buf[header.n..];
        }
      }
      // The final trim of an oversized leftover never has anything to do.
      assert |buf| <= MAX_PACKET;
    }
  }

  /** What stays in the buffer is shorter than the largest packet. */
  lemma RestShort(buf: seq<Byte>)
    ensures |Parse(buf).rest| < MAX_PACKET
    decreases |buf|
  {
  }

  // ---- well-formed packets ----

  /** Section 3.1 of RFC 791: header length and total length agree with the bytes. */
  predicate Ipv4Packet(p: seq<Byte>) {
    && 20 <= |p| && p[0] / 16 == 4
    && 5 <= p[0] % 16 && p[0] % 16 * 4 <= |p|
    && Uint16(p[2], p[3]) == |p|
  }

  /** Section 3 of RFC 8200, without Hop-by-Hop headers on an empty payload
      length (jumbograms) and within the largest packet. */
  predicate Ipv6Packet(p: seq<Byte>) {
    && 40 <= |p| <= MAX_PACKET && p[0] / 16 == 6
    && Uint16(p[4], p[5]) == |p| - 40
    && !(|p| == 40 && p[6] == 0)
  }

  predicate WellFormed(p: seq<Byte>) {
    Ipv4Packet(p) || Ipv6Packet(p)
  }

  /** The bytes at hand do not cover the fixed header, or the options it announces. */
  predicate HeaderIncomplete(p: seq<Byte>)
    requires p != []
  {
    (p[0] / 16 == 4 && (|p| < 20 || (5 <= p[0] % 16 && |p| < p[0] % 16 * 4))) || (p[0] / 16 == 6 && |p| < 40)
  }

  /** Exactly the complete well-formed packets announce their own length, and the
      verdict waits exactly while the header is incomplete. */
  lemma InspectExactly(p: seq<Byte>)
    requires p != []
    ensures WellFormed(p) <==> Inspect(p) == Total(|p|)
    ensures Inspect(p) == NeedMore <==> HeaderIncomplete(p)
  {
  }

  /** More bytes never change what a header says. */
  lemma InspectStable(p: seq<Byte>, more: seq<Byte>)
    requires p != [] && Inspect(p) != NeedMore
    ensures Inspect(p + more) == Inspect(p)
  {
  }

  // ---- chunks ----

  /** The first packet of a buffer comes off whatever follows. */
  lemma ParseHead(x: seq<Byte>, y: seq<Byte>)
    requires x != [] && Inspect(x).Total? && |x| >= Inspect(x).n
    ensures var n := Inspect(x).n; var tail := Parse(x[n..] + y);
      Parse(x + y) == Parsed([x[..n]] + tail.packets, tail.rest, tail.discarded)
  {
    var n := Inspect(x).n;
    InspectStable(x, y);
    assert (x + y)[..n] == x[..n] && (x + y)[n..] == x[n..] + y;
  }

  /** A parse that discards nothing can be continued from its leftover. */
  lemma {:induction false} ParseContinues(x: seq<Byte>, y: seq<Byte>)
    requires !Parse(x).discarded
    ensures Parse(x + y) == Resumed(Parse(x), Parse(Parse(x).rest + y))
    decreases |x|
  {
    if x == [] {
      assert x + y == y;
    } else if Inspect(x).Total? && |x| >= Inspect(x).n {
      var n := Inspect(x).n;
      ParseHead(x, y);
      ParseContinues(x[n..], y);
      ResumedCons(x[..n], Parse(x[n..]), Parse(Parse(x[n..]).rest + y));
    } else {
      assert Parse(x).rest == x;
    }
  }

  function Resumed(first: Parsed, second: Parsed): Parsed {
    Parsed(first.packets + second.packets, second.rest, second.discarded)
  }

  lemma ResumedCons(p: seq<Byte>, first: Parsed, second: Parsed)
    ensures Resumed(first.(packets := [p] + first.packets), second).packets == [p] + Resumed(first, second).packets
  {
  }

  /** After a malformed header nothing that follows in the same buffer is seen. */
  lemma {:induction false} DiscardAbsorbs(x: seq<Byte>, y: seq<Byte>)
    requires Parse(x).discarded
    ensures Parse(x + y) == Parse(x) && Parse(x).rest == []
    decreases |x|
  {
    if Inspect(x).Total? {
      ParseHead(x, y);
      DiscardAbsorbs(x[Inspect(x).n..], y);
    } else {
      InspectStable(x, y);
    }
  }

  ghost function Flatten(parts: seq<seq<Byte>>): seq<Byte> {
    if parts == [] then [] else parts[0] + Flatten(parts[1..])
  }

  /** Successive feeds: all packets emitted and the final buffer. */
  ghost function FeedAll(buf: seq<Byte>, chunks: seq<seq<Byte>>): Parsed
    decreases |chunks|
  {
    if chunks == [] then Parsed([], buf, false)
    else
      var now := Parse(buf + chunks[0]);
      var later := FeedAll(now.rest, chunks[1..]);
      Parsed(now.packets + later.packets, later.rest, now.discarded || later.discarded)
  }

  lemma {:induction false} ChunksDoNotMatter(buf: seq<Byte>, chunks: seq<seq<Byte>>)
    requires Parse(buf) == Parsed([], buf, false)
    requires !Parse(buf + Flatten(chunks)).discarded
    ensures FeedAll(buf, chunks) == Parse(buf + Flatten(chunks))
    decreases |chunks|
  {
    if chunks == [] {
      assert buf + Flatten(chunks) == buf;
    } else {
      var x, rest := buf + chunks[0], Flatten(chunks[1..]);
      assert buf + Flatten(chunks) == x + rest;
      if Parse(x).discarded { DiscardAbsorbs(x, rest); }
      ParseContinues(x, rest);
      LeftoverStays(x);
      ChunksDoNotMatter(Parse(x).rest, chunks[1..]);
    }
  }

  lemma {:induction false} LeftoverStays(x: seq<Byte>)
    ensures Parse(Parse(x).rest) == Parsed([], Parse(x).rest, false)
    decreases |x|
  {
    if x != [] && Inspect(x).Total? && |x| >= Inspect(x).n { LeftoverStays(x[Inspect(x).n..]); }
  }

  lemma {:induction false} ParsePackets(ps: seq<seq<Byte>>, tail: seq<Byte>)
    requires forall i :: 0 <= i < |ps| ==> WellFormed(ps[i])
    requires Parse(tail) == Parsed([], tail, false)
    ensures Parse(Flatten(ps) + tail) == Parsed(ps, tail, false)
    decreases |ps|
  {
    if ps == [] {
      assert Flatten(ps) + tail == tail;
    } else {
      var p, rest := ps[0], Flatten(ps[1..]) + tail;
      assert Flatten(ps) + tail == p + rest;
      InspectExactly(p);
      InspectStable(p, rest);
      assert (p + rest)[..|p|] == p && (p + rest)[|p|..] == rest;
      ParsePackets(ps[1..], tail);
      assert ps == [p] + ps[1..];
    }
  }

  lemma IncompleteTail(q: seq<Byte>, k: nat)
    requires WellFormed(q) && k < |q|
    ensures Parse(q[..k]) == Parsed([], q[..k], false)
  {
    InspectExactly(q);
    if k > 0 && Inspect(q[..k]) != NeedMore {
      InspectStable(q[..k], q[k..]);
      assert q[..k] + q[k..] == q;
    }
  }

  /** Any chunking of well-formed packets, followed by the start of one more,
      yields exactly those packets and keeps exactly that start. */
  lemma FramesExactly(ps: seq<seq<Byte>>, q: seq<Byte>, k: nat, chunks: seq<seq<Byte>>)
    requires forall i :: 0 <= i < |ps| ==> WellFormed(ps[i])
    requires WellFormed(q) && k < |q|
    requires Flatten(chunks) == Flatten(ps) + q[..k]
    ensures FeedAll([], chunks) == Parsed(ps, q[..k], false)
    ensures k < MAX_PACKET
  {
    IncompleteTail(q, k);
    ParsePackets(ps, q[..k]);
    assert [] + Flatten(chunks) == Flatten(chunks);
    ChunksDoNotMatter([], chunks);
  }

  lemma FeedOne(buf: seq<Byte>, y: seq<Byte>)
    ensures FeedAll(buf, [y]) == Parse(buf + y)
  {
    assert [y][1..] == [];
    assert Parse(buf + y).packets + [] == Parse(buf + y).packets;
  }

  lemma FeedTwo(buf: seq<Byte>, x: seq<Byte>, y: seq<Byte>)
    ensures var first, split := Parse(buf + x), FeedAll(buf, [x, y]);
      split.packets == first.packets + Parse(first.rest + y).packets && split.rest == Parse(first.rest + y).rest
  {
    var later := Parse(buf + x).rest;
    FeedOne(later, y);
    assert [x, y][1..] == [y];
  }

  /** Feeding two chunks or their concatenation gives the same packets and the
      same buffer exactly when the first chunk met no malformed header, or the
      second one alone yields nothing at all. */
  lemma ChunkIndependentExactly(buf: seq<Byte>, x: seq<Byte>, y: seq<Byte>)
    ensures
      var once, split := Parse(buf + (x + y)), FeedAll(buf, [x, y]);
      once.packets == split.packets && once.rest == split.rest <==>
        !Parse(buf + x).discarded || (Parse(y).packets == [] && Parse(y).rest == [])
  {
    var first := Parse(buf + x);
    assert buf + (x + y) == (buf + x) + y;
    var split := FeedAll(buf, [x, y]);
    FeedTwo(buf, x, y);
    assert split.packets == first.packets + Parse(first.rest + y).packets && split.rest == Parse(first.rest + y).rest;
    if first.discarded {
      DiscardAbsorbs(buf + x, y);
      assert first.rest + y == y;
      assert |first.packets + Parse(y).packets| == |first.packets| + |Parse(y).packets|;
    } else {
      ParseContinues(buf + x, y);
    }
  }

  // ---- the destination of emitted packets ----

  datatype Destination = Addr(bytes: seq<Byte>) | Unsupported | Rejected

  /** packetDestination. */
  function PacketDestination(p: seq<Byte>): Destination {
    if |p| == 0 then Rejected
    else if p[0] / 16 == 4 then
      if |p| < 20 then Rejected
      else
        var headerLen, totalLen := p[0] % 16 * 4, Uint16(p[2], p[3]);
        if headerLen < 20 || |p| < headerLen then Rejected
        else if totalLen < headerLen || totalLen > |p| then Rejected
        else Addr(p[16..20])
    else if p[0] / 16 == 6 then
      if |p| < 40 then Rejected
      else
        var payload := Uint16(p[4], p[5]);
        if payload == 0 && p[6] == 0 && |p| > 40 then Unsupported
        else if payload + 40 > |p| then Rejected
        else Addr(p[24..40])
    else Unsupported
  }

  /** Whatever the stream holds, every emitted packet is well-formed and has a destination. */
  lemma {:induction false} EmittedAccepted(buf: seq<Byte>, i: nat)
    requires i < |Parse(buf).packets|
    ensures var p := Parse(buf).packets[i];
      WellFormed(p) && PacketDestination(p) == Addr(if p[0] / 16 == 4 then p[16..20] else p[24..40])
    decreases |buf|
  {
    var n := Inspect(buf).n;
    if i == 0 {
      assert buf[..n] + buf[n..] == buf;
      InspectExactly(buf[..n]);
    } else {
      EmittedAccepted(buf[n..], i - 1);
    }
  }

  /** An IPv4 packet whose header lengths fit into the bytes at hand. */
  predicate FitsV4(p: seq<Byte>) {
    && |p| >= 20 && p[0] / 16 == 4 && 5 <= p[0] % 16
    && p[0] % 16 * 4 <= Uint16(p[2], p[3]) <= |p|
  }

  /** An empty IPv6 payload length with a Hop-by-Hop header and bytes behind it. */
  predicate Jumbogram(p: seq<Byte>) {
    |p| > 40 && p[0] / 16 == 6 && Uint16(p[4], p[5]) == 0 && p[6] == 0
  }

  predicate FitsV6(p: seq<Byte>) {
    |p| >= 40 && p[0] / 16 == 6 && !Jumbogram(p) && Uint16(p[4], p[5]) + 40 <= |p|
  }

  /** A destination is found exactly for packets that fit; the sender drops what it
      does not support and refuses the rest. */
  lemma DestinationExactly(p: seq<Byte>)
    ensures var d := PacketDestination(p);
      && (d.Addr? <==> FitsV4(p) || FitsV6(p))
      && (FitsV4(p) ==> d == Addr(p[16..20])) && (FitsV6(p) ==> d == Addr(p[24..40]))
      && (d == Unsupported <==> p != [] && (Jumbogram(p) || (p[0] / 16 != 4 && p[0] / 16 != 6)))
  {
  }
}
