/** A socket transport that pads its packets to powers of two. */
module PaddedTransport {
  import opened Types
  import opened Powers

  const NEWLINE: Byte := 10
  const SPACE: Byte := 32
  const BRACE: Byte := 125
  const BRACKET: Byte := 93

  const MIN_PACKET_SIZE := 1024
  const WAIT_FOR_BUFFER_GROWTH_SECONDS := 1.0
  const WARMUP_BUDGET_SIZE := 1024

  /** "}\n" or "]\n" */
  predicate IsTerminator(s: Bytes) {
    |s| == 2 && (s[0] == BRACE || s[0] == BRACKET) && s[1] == NEWLINE
  }

  /** A framed message: ends in a terminator and has no other newline. */
  ghost predicate IsMessage(m: Bytes) {
    && |m| >= 2 && m[|m| - 1] == 10 && (m[|m| - 2] == 125 || m[|m| - 2] == 93)
    && forall i :: 0 <= i < |m| - 1 ==> m[i] != 10
  }

  ghost predicate AllMessages(ms: seq<Bytes>) {
    forall i :: 0 <= i < |ms| ==> IsMessage(ms[i])
  }

  ghost function Flat(ms: seq<Bytes>): Bytes {
    if ms == [] then [] else Flat(ms[..|ms| - 1]) + ms[|ms| - 1]
  }

  ghost function Concat(groups: seq<seq<Bytes>>): seq<Bytes> {
    if groups == [] then [] else Concat(groups[..|groups| - 1]) + groups[|groups| - 1]
  }

  function Spaces(n: nat): (r: Bytes)
    ensures |r| == n && forall i :: 0 <= i < n ==> r[i] == 32
  {
    if n == 0 then [] else Spaces(n - 1) + [SPACE]
  }

  /** A power of two, and at least 1024. */
  ghost predicate IsPacketSize(n: nat) {
    n >= 1024 && exists k :: n == Pow2(k)
  }

  /** The payload with spaces inserted before its last two bytes. */
  ghost predicate IsPadded(packet: Bytes, payload: Bytes) {
    var n, end := |payload| - 2, |packet| - 2;
    && 0 <= n <= end
    && packet[..n] == payload[..n] && packet[end..] == payload[n..]
    && forall i :: n <= i < end ==> packet[i] == 32
  }

  /** A packet holds whole messages, padded to a packet size. */
  ghost predicate IsPacket(packet: Bytes, ms: seq<Bytes>) {
    ms != [] && AllMessages(ms) && IsPacketSize(|packet|) && IsPadded(packet, Flat(ms))
  }

  /** The last newline of the buffer before `end`. */
  ghost predicate LastNewline(buf: Bytes, end: nat, p: nat) {
    p < |buf| && p < end && buf[p] == 10 && forall i :: p < i < |buf| && i < end ==> buf[i] != 10
  }

  ghost predicate NoNewline(buf: Bytes, end: nat) {
    forall i :: 0 <= i < |buf| && i < end ==> buf[i] != 10
  }

  /** The packet to send: the whole buffer padded up, or, if that pads less, what
      ends at the last newline before half that size. */
  ghost predicate Chosen(buf: Bytes, force: bool, plan: Plan)
    requires buf != []
  {
    var n, whole, half := |buf|, WholeSize(|buf|), HalfSize(|buf|);
    && (NoNewline(buf, half) ==> plan.take == n && plan.take + plan.npad == whole)
    && forall p: nat :: LastNewline(buf, half, p) ==>
         if force || whole - n <= half - (p + 1) then plan.take == n && plan.take + plan.npad == whole
         else plan.take == p + 1 && plan.take + plan.npad == half
  }

  /** Position of the last newline before `end`, -1 if there is none. */
  method RFind(buf: Bytes, end: nat) returns (p: int)
    ensures -1 <= p < |buf| && p < end
    ensures p >= 0 ==> buf[p] == NEWLINE
    ensures forall i :: p < i < |buf| && i < end ==> buf[i] != NEWLINE
  {
    p := (if end <= |buf| then end else |buf|) - 1;
    while p >= 0 && buf[p] != NEWLINE
      invariant -1 <= p < |buf| && p < end
      invariant forall i :: p < i < |buf| && i < end ==> buf[i] != NEWLINE
    {
      p := p - 1;
    }
  }

  /** How a payload is to be sent: bytes consumed and spaces added. */
  datatype Plan = Plan(take: nat, npad: nat)

  class Transport {
    var sbuffer: Bytes
    var hasData: bool
    var lastSend: real
    var forceSend: bool
    /** What has been written to the socket. */
    var wire: seq<Bytes>

    /** Messages written, by packet; messages still in the buffer. */
    ghost var sent: seq<seq<Bytes>>
    ghost var pending: seq<Bytes>

    constructor (now: real)
      ensures Valid() && sent == [] && pending == [] && wire == [] && !forceSend
    {
      sbuffer, hasData, lastSend, forceSend, wire := [], false, now, false, [];
      sent, pending := [], [];
    }

    /** The packets and the buffer hold exactly the messages written, whole and in order. */
    ghost predicate Valid()
      reads this
    {
      && AllMessages(pending) && sbuffer == Flat(pending)
      && (hasData <==> sbuffer != [])
      && |sent| == |wire|
      && forall i :: 0 <= i < |wire| ==> IsPacket(wire[i], sent[i])
    }

    ghost function Written(): seq<Bytes>
      reads this
    {
      Concat(sent) + pending
    }

    /** Whether there is reason to send now: a forced send, enough in the buffer, a
        second since the last send, or the first kilobyte of the session. */
    predicate Due(now: real, sendSize: nat)
      reads this
    {
      || forceSend
      || |sbuffer| >= MIN_PACKET_SIZE
      || lastSend + WAIT_FOR_BUFFER_GROWTH_SECONDS < now
      || sendSize < WARMUP_BUDGET_SIZE
    }

    /** Choose between padding the whole buffer up and a packet of half the size
        that leaves the last messages for later: whichever pads less. */
    method Choose() returns (plan: Plan)
      requires Valid() && sbuffer != []
      ensures Chosen(sbuffer, forceSend, plan)
      ensures 2 <= plan.take <= |sbuffer| && IsTerminator(sbuffer[plan.take - 2..plan.take])
      ensures IsPacketSize(plan.take + plan.npad)
      ensures forceSend ==> plan.take == |sbuffer|
    {
      hide IsTerminator, IsPacketSize, WholeSize, HalfSize, AllMessages, Flat, IsPacket;
      EmptyBuffer(pending);
      LastTerminator(pending);
      assert sbuffer[|sbuffer| - 2..] == sbuffer[|sbuffer| - 2..|sbuffer|];
      SizesArePowers(|sbuffer|);
      var payloadLsize := |sbuffer|;
      var totalLsize := WholeSize(payloadLsize);
      var npadLsize := totalLsize - payloadLsize;
      var totalSsize := HalfSize(payloadLsize);
      var payloadSsize := RFind(sbuffer, totalSsize);
      if payloadSsize == -1 {
        return Plan(payloadLsize, npadLsize);
      }
      BoundaryAt(pending, payloadSsize);
      payloadSsize := payloadSsize + 1;
      var npadSsize := totalSsize - payloadSsize;
      plan := if forceSend || npadLsize <= npadSsize
        then Plan(payloadLsize, npadLsize) else Plan(payloadSsize, npadSsize);
    }

    /** Maybe take some data from the buffer and send it as one packet. */
    method MaybeConsume(canSend: bool, closing: bool, now: real, sendSize: nat, sentAt: real)
      requires Valid()
      modifies this
      ensures Valid() && Written() == old(Written()) && forceSend == old(forceSend)
      ensures var sends := canSend && !closing && old(sbuffer) != []
          && (forceSend || |old(sbuffer)| >= 1024 || old(lastSend) + 1.0 < now || sendSize < 1024);
        && (sends ==> SentOne(old(sbuffer), old(wire), old(sent), old(pending)) && lastSend == sentAt)
        && (!sends ==>
              && wire == old(wire) && sent == old(sent) && pending == old(pending)
              && sbuffer == old(sbuffer) && lastSend == old(lastSend))
    {
      hide IsPacket, IsMessage, AllMessages, Flat, Concat, IsPacketSize, Spaces;
      if !canSend || closing {
        return;
      }
      var buf := sbuffer;
      if buf == [] {
        return;
      }
      if !Due(now, sendSize) {
        return;
      }
      Send(sentAt);
    }

    /** One packet more: it takes what Chosen says from the front of the buffer. */
    ghost predicate SentOne(buf: Bytes, wire0: seq<Bytes>, sent0: seq<seq<Bytes>>, pending0: seq<Bytes>)
      reads this
    {
      && buf != [] && |wire| == |wire0| + 1 && wire0 <= wire && sent0 <= sent
      && |pending| < |pending0| && |sbuffer| < |buf| && buf[|buf| - |sbuffer|..] == sbuffer
      && var take, size := |buf| - |sbuffer|, |wire[|wire| - 1]|;
      && take <= size && Chosen(buf, forceSend, Plan(take, size - take))
      && (forceSend ==> pending == [])
    }

    /** Take data from the buffer and send it as one packet. */
    method Send(sentAt: real)
      requires Valid() && sbuffer != []
      modifies this
      ensures Valid() && Written() == old(Written()) && forceSend == old(forceSend)
      ensures SentOne(old(sbuffer), old(wire), old(sent), old(pending)) && lastSend == sentAt
    {
      hide IsPacket, IsMessage, AllMessages, Flat, Concat, IsPacketSize, Spaces, Chosen, IsTerminator;
      var buf := sbuffer;
      EmptyBuffer(pending);
      LastTerminator(pending);
      assert IsTerminator(buf[|buf| - 2..]);
      var plan := Choose();
      var terminator := buf[plan.take - 2..plan.take];
      assert IsTerminator(terminator);
      var buf2 := buf[..plan.take - 2] + Spaces(plan.npad) + terminator;
      wire := wire + [buf2];
      lastSend := sentAt;
      sbuffer := sbuffer[plan.take..];
      if sbuffer == [] {
        hasData := false;
      }
      ghost var n := SplitAt(pending, plan.take);
      PacketMade(pending, n, plan, buf2);
      ConcatPush(sent, pending[..n], pending[n..], pending);
      sent, pending := sent + [pending[..n]], pending[n..];
    }

    /** Write a framed message, unless the transport is closing. */
    method Write(framed: Bytes, closing: bool, now: real, sendSize: nat, sentAt: real)
      requires Valid() && IsMessage(framed)
      modifies this
      ensures Valid() && Written() == old(Written()) + (if closing then [] else [framed])
      ensures forceSend == old(forceSend) && old(wire) <= wire && old(sent) <= sent
      ensures var buf := old(sbuffer) + framed;
        if !closing && (forceSend || |buf| >= 1024 || old(lastSend) + 1.0 < now || sendSize < 1024)
        then SentOne(buf, old(wire), old(sent), old(pending) + [framed]) && lastSend == sentAt
        else wire == old(wire) && sbuffer == (if closing then old(sbuffer) else buf) && lastSend == old(lastSend)
    {
      hide IsPacket, IsMessage, AllMessages, Flat, Concat, IsPacketSize;
      if closing {
        return;
      }
      sbuffer := sbuffer + framed;
      hasData := true;
      ghost var before := pending;
      pending := pending + [framed];
      Pushed(sent, before, framed);
      MaybeConsume(true, closing, now, sendSize, sentAt);
    }

    /** Flush the buffer in one packet, whatever its size, if it can be sent. */
    method Close(canSend: bool, closing: bool, now: real, sendSize: nat, sentAt: real)
      requires Valid()
      modifies this
      ensures Valid() && Written() == old(Written()) && old(wire) <= wire && old(sent) <= sent
      ensures canSend && !closing ==> sbuffer == [] && pending == []
      ensures if canSend && !closing && old(sbuffer) != []
        then |wire| == |old(wire)| + 1 && lastSend == sentAt else wire == old(wire) && sbuffer == old(sbuffer)
      ensures forceSend
    {
      hide IsPacket, IsMessage, AllMessages, Flat, Concat, IsPacketSize;
      forceSend := true;
      EmptyBuffer(pending);
      MaybeConsume(canSend, closing, now, sendSize, sentAt);
      EmptyBuffer(pending);
    }
  }

  /** The least power of two above n that is a packet size. */
  function WholeSize(n: nat): (r: nat)
    requires n >= 1
  {
    Max(MIN_PACKET_SIZE, Pow2(Log2(n) + 1))
  }

  function HalfSize(n: nat): (r: nat)
    requires n >= 1
  {
    Max(MIN_PACKET_SIZE, WholeSize(n) / 2)
  }

  // ---- whole runs ----

  datatype Event =
    | Send(framed: Bytes, closing: bool, now: real, sendSize: nat, sentAt: real)
    | Poll(canSend: bool, closing: bool, now: real, sendSize: nat, sentAt: real)
    | Shut(canSend: bool, closing: bool, now: real, sendSize: nat, sentAt: real)

  /** The messages accepted for sending. */
  ghost function Accepted(events: seq<Event>): seq<Bytes> {
    if events == [] then []
    else
      var e := events[|events| - 1];
      Accepted(events[..|events| - 1]) + (if e.Send? && !e.closing then [e.framed] else [])
  }

  /** Over any run, the packets followed by the buffer are the messages accepted. */
  method Run(t: Transport, events: seq<Event>)
    requires t.Valid() && t.Written() == []
    requires forall i :: 0 <= i < |events| && events[i].Send? ==> IsMessage(events[i].framed)
    modifies t
    ensures t.Valid() && t.Written() == Accepted(events)
  {
    hide Transport.Valid, Transport.Written;
    for i := 0 to |events|
      invariant t.Valid() && t.Written() == Accepted(events[..i])
    {
      assert events[..i + 1][..i] == events[..i];
      match events[i] {
      case Send(framed, closing, now, sendSize, sentAt) => t.Write(framed, closing, now, sendSize, sentAt);
      case Poll(canSend, closing, now, sendSize, sentAt) => t.MaybeConsume(canSend, closing, now, sendSize, sentAt);
      case Shut(canSend, closing, now, sendSize, sentAt) => t.Close(canSend, closing, now, sendSize, sentAt);
      }
    }
    assert events[..|events|] == events;
  }

  /** Whatever is buffered is sent by polls that can send and come more than a
      second after the send before them: each takes at least one message. */
  method Drain(t: Transport, polls: seq<Event>)
    requires t.Valid() && |polls| >= |t.pending|
    requires forall e :: e in polls ==> e.Poll? && e.canSend && !e.closing
    requires polls != [] ==> polls[0].now > t.lastSend + 1.0
    requires forall i :: 0 < i < |polls| ==> polls[i].now > polls[i - 1].sentAt + 1.0
    modifies t
    ensures t.Valid() && t.sbuffer == [] && t.Written() == old(t.Written())
  {
    hide IsMessage, AllMessages, Flat, Transport.SentOne, Transport.Valid, Transport.Written;
    for i := 0 to |polls|
      invariant t.Valid() && t.Written() == old(t.Written())
      invariant |t.pending| <= |polls| - i
      invariant t.pending == [] || t.lastSend == if i == 0 then old(t.lastSend) else polls[i - 1].sentAt
    {
      BufferIs(t);
      ghost var buf, wire, sent, pending := t.sbuffer, t.wire, t.sent, t.pending;
      t.MaybeConsume(true, false, polls[i].now, polls[i].sendSize, polls[i].sentAt);
      if buf != [] {
        Fewer(t, buf, wire, sent, pending);
      }
    }
    BufferIs(t);
  }

  lemma BufferIs(t: Transport)
    requires t.Valid()
    ensures t.sbuffer == [] <==> t.pending == []
  {
    EmptyBuffer(t.pending);
  }

  lemma Fewer(t: Transport, buf: Bytes, wire: seq<Bytes>, sent: seq<seq<Bytes>>, pending: seq<Bytes>)
    requires t.SentOne(buf, wire, sent, pending)
    ensures |t.pending| < |pending|
  {
  }

  // ---- lemmas ----

  lemma Pushed(sent: seq<seq<Bytes>>, ms: seq<Bytes>, m: Bytes)
    requires AllMessages(ms) && IsMessage(m)
    ensures AllMessages(ms + [m]) && Flat(ms + [m]) == Flat(ms) + m != []
    ensures Concat(sent) + (ms + [m]) == (Concat(sent) + ms) + [m]
  {
    assert (ms + [m])[..|ms|] == ms;
  }

  lemma EmptyBuffer(ms: seq<Bytes>)
    requires AllMessages(ms)
    ensures Flat(ms) == [] <==> ms == []
  {
    if ms != [] {
      assert IsMessage(ms[|ms| - 1]);
    }
  }

  lemma LastTerminator(ms: seq<Bytes>)
    requires AllMessages(ms)
    ensures ms != [] ==> |Flat(ms)| >= 2 && IsTerminator(Flat(ms)[|Flat(ms)| - 2..])
  {
    if ms != [] {
      var m := ms[|ms| - 1];
      assert IsMessage(m);
      var f := Flat(ms);
      assert f[|f| - 2..] == m[|m| - 2..];
    }
  }

  lemma SizesArePowers(n: nat)
    requires n >= 1
    ensures WholeSize(n) > n && IsPacketSize(WholeSize(n)) && IsPacketSize(HalfSize(n))
    ensures if WholeSize(n) == 1024 then HalfSize(n) == 1024 else 2 * HalfSize(n) == WholeSize(n)
  {
    Log2Is(n, Log2(n));
    var k := Log2(n) + 1;
    Thousand();
    assert WholeSize(n) == Pow2(if Pow2(k) >= 1024 then k else 10);
    assert Pow2(k) / 2 == Pow2(k - 1);
    assert HalfSize(n) == Pow2(if Pow2(k) >= 2048 then k - 1 else 10) by {
      if 1024 < Pow2(k) < 2048 {
        BetweenPowers(k);
      }
    }
    if Pow2(k) < 2048 {
      BetweenPowers(k);
    }
  }

  /** No smaller power of two would do. */
  lemma LeastAbove(n: nat, j: nat)
    requires 1 <= n < Pow2(j) && Pow2(j) >= 1024
    ensures WholeSize(n) <= Pow2(j)
  {
    Log2Is(n, Log2(n));
    if j <= Log2(n) {
      Pow2Grows(j, Log2(n));
    } else {
      Pow2Grows(Log2(n) + 1, j);
    }
  }

  lemma Thousand()
    ensures Pow2(10) == 1024
  {
    assert Pow2(5) == 32;
    assert Pow2(8) == 256;
  }

  lemma BetweenPowers(k: nat)
    ensures !(1024 < Pow2(k) < 2048)
  {
    Thousand();
    if k <= 10 {
      Pow2Grows(k, 10);
    } else {
      Pow2Grows(11, k);
    }
  }

  /** A newline ends a message. */
  lemma {:induction false} BoundaryAt(ms: seq<Bytes>, p: nat)
    requires AllMessages(ms) && p < |Flat(ms)| && Flat(ms)[p] == NEWLINE
    ensures p >= 1 && IsTerminator(Flat(ms)[p - 1..p + 1])
    ensures exists n :: 0 < n <= |ms| && |Flat(ms[..n])| == p + 1
  {
    hide IsTerminator, IsMessage;
    var k := |ms| - 1;
    var f, m := Flat(ms[..k]), ms[k];
    assert IsMessage(m);
    if p < |f| {
      BoundaryAt(ms[..k], p);
      var n :| 0 < n <= k && |Flat(ms[..k][..n])| == p + 1;
      assert ms[..k][..n] == ms[..n];
      SliceOfFirst(f, m, p);
    } else {
      OnlyNewline(m, p - |f|);
      SliceOfLast(f, m);
      assert ms[..|ms|] == ms;
    }
  }

  lemma SliceOfFirst(f: Bytes, m: Bytes, p: nat)
    requires 1 <= p < |f|
    ensures (f + m)[p - 1..p + 1] == f[p - 1..p + 1]
  {
  }

  lemma SliceOfLast(f: Bytes, m: Bytes)
    requires |m| >= 2
    ensures (f + m)[|f| + |m| - 2..|f| + |m|] == m[|m| - 2..]
  {
  }

  lemma OnlyNewline(m: Bytes, i: nat)
    requires IsMessage(m) && i < |m| && m[i] == NEWLINE
    ensures i == |m| - 1 && |m| >= 2 && IsTerminator(m[|m| - 2..])
  {
  }

  /** How many messages the first `take` bytes hold, when a terminator ends there. */
  ghost function SplitAt(ms: seq<Bytes>, take: nat): (n: nat)
    requires AllMessages(ms) && 2 <= take <= |Flat(ms)| && IsTerminator(Flat(ms)[take - 2..take])
    ensures 0 < n <= |ms| && |Flat(ms[..n])| == take
  {
    assert Flat(ms)[take - 1] == Flat(ms)[take - 2..take][1] == NEWLINE;
    BoundaryAt(ms, take - 1);
    var n :| 0 < n <= |ms| && |Flat(ms[..n])| == take;
    n
  }

  lemma {:induction false} FlatSplit(ms: seq<Bytes>, n: nat)
    requires n <= |ms|
    ensures Flat(ms) == Flat(ms[..n]) + Flat(ms[n..])
  {
    if n == |ms| {
      assert ms[..n] == ms;
    } else {
      var k := |ms| - 1;
      FlatSplit(ms[..k], n);
      assert ms[..k][..n] == ms[..n];
      assert ms[n..][..|ms[n..]| - 1] == ms[..k][n..];
    }
  }

  lemma PacketMade(ms: seq<Bytes>, n: nat, plan: Plan, packet: Bytes)
    requires AllMessages(ms) && 0 < n <= |ms| && |Flat(ms[..n])| == plan.take && 2 <= plan.take <= |Flat(ms)|
    requires IsPacketSize(plan.take + plan.npad)
    requires packet == Flat(ms)[..plan.take - 2] + Spaces(plan.npad) + Flat(ms)[plan.take - 2..plan.take]
    ensures IsPacket(packet, ms[..n]) && AllMessages(ms[n..]) && Flat(ms)[plan.take..] == Flat(ms[n..])
    ensures plan.take == |Flat(ms)| ==> ms[n..] == []
  {
    hide Flat, Spaces, IsPacketSize, IsMessage;
    FlatSplit(ms, n);
    var f, g := Flat(ms[..n]), Flat(ms[n..]);
    CutFront(f, g);
    EmptyBuffer(ms[n..]);
  }

  lemma CutFront(f: Bytes, g: Bytes)
    requires |f| >= 2
    ensures (f + g)[..|f| - 2] == f[..|f| - 2] && (f + g)[|f| - 2..|f|] == f[|f| - 2..] && (f + g)[|f|..] == g
  {
  }

  lemma ConcatPush(groups: seq<seq<Bytes>>, a: seq<Bytes>, b: seq<Bytes>, ms: seq<Bytes>)
    requires a + b == ms
    ensures Concat(groups + [a]) + b == Concat(groups) + ms
  {
    assert (groups + [a])[..|groups|] == groups;
  }
}
