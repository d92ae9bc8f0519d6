/** Runs of two endpoints of opposite sides joined by two reliable FIFO links.

    An endpoint's `out` is everything it ever wrote, so a link is the peer's
    `out` together with the number of packets already delivered. */
module MuxProtocol {
  import opened Wire
  import opened MuxSpec

  /** `got[i]` counts the packets of the other endpoint delivered to i. */
  datatype World = World(peer: seq<MuxView>, got: seq<nat>)

  datatype Step =
    | UserOpen(at: nat, path: bytes)
    | UserSend(at: nat, chan: nat, payload: bytes)
    | UserClose(at: nat, chan: nat)
    | Deliver(at: nat, size: int)

  ghost predicate Shaped(w: World) {
    |w.peer| == 2 && |w.got| == 2
    && w.got[0] <= |w.peer[1].out| && w.got[1] <= |w.peer[0].out|
  }

  function Start(): (w: World)
  {
    World([InitMux(0), InitMux(1)], [0, 0])
  }

  ghost predicate InFlight(w: World, i: nat)
    requires Shaped(w) && i < 2
  {
    w.got[i] < |w.peer[1 - i].out|
  }

  ghost function NextPacket(w: World, i: nat): Packet
    requires Shaped(w) && i < 2 && InFlight(w, i)
  {
    w.peer[1 - i].out[w.got[i]]
  }

  /** The step can be taken and reaches no failing assert. */
  ghost predicate Enabled(w: World, s: Step)
    requires Shaped(w)
  {
    s.at < 2 &&
    match s
    case UserOpen(i, path) => |path| <= MAX_PATH
    case UserSend(i, c, payload) => c in w.peer[i].chans && |payload| <= MAX_PAYLOAD
    case UserClose(i, c) => c in w.peer[i].chans
    case Deliver(i, size) => InFlight(w, i) && AssertsHold(w.peer[i], NextPacket(w, i), size)
  }

  ghost function Endpoint(w: World, s: Step): MuxView
    requires Shaped(w) && Enabled(w, s)
  {
    var m := w.peer[s.at];
    match s
    case UserOpen(i, path) => OpenRequest(m, path)
    case UserSend(i, c, payload) => SendOn(m, c, Data(payload))
    case UserClose(i, c) => CloseRequest(m, c)
    case Deliver(i, size) => Handle(m, NextPacket(w, i), size)
  }

  lemma OutGrows(m: MuxView, id: nat, body: Body)
    requires HasChannel(m, id)
    ensures m.out <= SendOn(m, id, body).out
  {
  }

  lemma HandleGrows(m: MuxView, p: Packet, size: int)
    ensures m.out <= Handle(m, p, size).out
  {
    hide BumpPeer, BumpSend, IdAfter;
    if p.chan == 0 && p.body.OpenChan? {
      var m1 := m.(control := m.control.(peerSeq := BumpPeer(m.control.peerSeq)));
      OutGrows(m1, 0, OpenReply(p.stamp, 1, 0, 0));
    }
  }

  /** No step rewrites what was already on a link. */
  lemma StepExtends(w: World, s: Step)
    requires Shaped(w) && Enabled(w, s)
    ensures w.peer[s.at].out <= Endpoint(w, s).out
  {
    match s
    case UserOpen(i, path) => OutGrows(w.peer[i], 0, OpenChan(path));
    case UserSend(i, c, payload) => OutGrows(w.peer[i], c, Data(payload));
    case UserClose(i, c) => OutGrows(w.peer[i], c, CloseChan);
    case Deliver(i, size) => HandleGrows(w.peer[i], NextPacket(w, i), size);
  }

  ghost function Next(w: World, s: Step): (w': World)
    requires Shaped(w) && Enabled(w, s)
    ensures Shaped(w')
  {
    StepExtends(w, s);
    World(w.peer[s.at := Endpoint(w, s)],
          if s.Deliver? then w.got[s.at := w.got[s.at] + 1] else w.got)
  }

  // ------------------------------------------------------------------
  // Reading a log: every function looks at the first n packets of it.

  predicate On(p: Packet, c: nat) {
    p.chan == c && !p.body.Nak?
  }

  predicate IsReply(p: Packet, c: nat) {
    p.body.OpenReply? && p.body.errno == 0 && p.body.dataChan == c
  }

  predicate IsClose(p: Packet, c: nat) {
    p.chan == c && p.body.CloseChan?
  }

  /** Numbered packets of channel c. */
  ghost function CountOn(log: seq<Packet>, n: nat, c: nat): (r: nat)
    requires n <= |log|
    ensures r <= n
  {
    if n == 0 then 0 else CountOn(log, n - 1, c) + if On(log[n - 1], c) then 1 else 0
  }

  /** Payloads sent on channel c, in order. */
  ghost function Payloads(log: seq<Packet>, n: nat, c: nat): seq<Body>
    requires n <= |log|
  {
    if n == 0 then []
    else if log[n - 1].chan == c && log[n - 1].body.Data? then Payloads(log, n - 1, c) + [log[n - 1].body]
    else Payloads(log, n - 1, c)
  }

  /** The requests made, each with its number and path. */
  ghost function Opens(log: seq<Packet>, n: nat): (r: seq<(nat, bytes)>)
    requires n <= |log|
    ensures |r| <= n
  {
    if n == 0 then []
    else if log[n - 1].body.OpenChan? then Opens(log, n - 1) + [(log[n - 1].stamp, log[n - 1].body.path)]
    else Opens(log, n - 1)
  }

  /** The replies given, accepting or not. */
  ghost function Replies(log: seq<Packet>, n: nat): (r: seq<Body>)
    requires n <= |log|
    ensures |r| <= n
    ensures forall k :: 0 <= k < |r| ==> r[k].OpenReply?
  {
    if n == 0 then []
    else if log[n - 1].body.OpenReply? then Replies(log, n - 1) + [log[n - 1].body]
    else Replies(log, n - 1)
  }

  /** How many replies accepted. */
  ghost function Accepts(log: seq<Packet>, n: nat): (r: nat)
    requires n <= |log|
    ensures r <= |Replies(log, n)|
  {
    if n == 0 then 0
    else Accepts(log, n - 1) + if log[n - 1].body.OpenReply? && log[n - 1].body.errno == 0 then 1 else 0
  }

  ghost predicate ReplyBefore(log: seq<Packet>, n: nat, c: nat)
    requires n <= |log|
  {
    exists k :: 0 <= k < n && IsReply(log[k], c)
  }

  ghost predicate CloseBefore(log: seq<Packet>, n: nat, c: nat)
    requires n <= |log|
  {
    exists k :: 0 <= k < n && IsClose(log[k], c)
  }

  /** What the listener of channel c was handed. */
  ghost function Handed(events: seq<Event>, c: nat): seq<Body> {
    if events == [] then []
    else
      var e := events[|events| - 1];
      var before := Handed(events[..|events| - 1], c);
      if e.Received? && e.chan == c then before + [e.body] else before
  }

  // ------------------------------------------------------------------
  // Numbers and identifiers, as functions of how many were used.

  /** The sender's counter after n packets. */
  function CounterOf(n: nat): nat {
    (FIRST_SEQ + n) % TWO32
  }

  /** The number on the packet that follows n earlier ones. */
  function StampOf(n: nat): nat {
    StampFor(CounterOf(n))
  }

  /** The number the receiver waits for after n packets. */
  function ExpectOf(n: nat): nat {
    1 + n % (TWO32 - 1)
  }

  /** Endpoint i's (k+1)-st identifier; the server's search jumps over 0. */
  function IdOf(i: nat, k: nat): nat {
    if i == 0 && k >= TWO31 - 2 then 2 * (k - (TWO31 - 2)) + 2
    else (4 + i + 2 * k) % TWO32
  }

  /** Identifiers do not repeat up to here, and one is left to move on to. */
  const MAX_OPENS: nat := TWO31 - 2

  /** Sender and receiver agree on the first 2^32 packets of a channel, and
      disagree on the next one. */
  lemma StampsAgree(n: nat)
    ensures n < TWO32 ==> StampOf(n) == ExpectOf(n)
    ensures n == TWO32 ==> StampOf(n) != ExpectOf(n)
    ensures BumpPeer(ExpectOf(n)) == ExpectOf(n + 1)
    ensures BumpSend(CounterOf(n)) == CounterOf(n + 1)
  {
    ModStep(n, TWO32 - 1);
    ModStep(FIRST_SEQ + n, TWO32);
  }

  lemma StampIs(n: nat)
    requires n < TWO32 - 1
    ensures StampOf(n) == n + 1
  {
  }

  lemma IdsDiffer(i: nat, k: nat, l: nat)
    requires i < 2 && k < l <= MAX_OPENS
    ensures IdOf(i, k) != IdOf(i, l)
    ensures IdOf(i, k) != 0 && IdOf(i, k) % 2 == i && IdOf(i, l) != 0 && IdOf(i, l) % 2 == i
  {
  }

  // ------------------------------------------------------------------
  // The invariant.

  /** Endpoint i has set channel c up, judging by the first k packets it wrote
      and the first n it was delivered. */
  ghost predicate Created(i: nat, log: seq<Packet>, k: nat, plog: seq<Packet>, n: nat, c: nat)
    requires k <= |log| && n <= |plog|
  {
    if c % 2 == i then ReplyBefore(log, k, c) else ReplyBefore(plog, n, c)
  }

  ghost predicate Live(i: nat, log: seq<Packet>, plog: seq<Packet>, n: nat, c: nat)
    requires n <= |plog|
  {
    Created(i, log, |log|, plog, n, c) && !CloseBefore(log, |log|, c) && !CloseBefore(plog, n, c)
  }

  ghost predicate EntryOk(i: nat, log: seq<Packet>, k: nat, plog: seq<Packet>, n: nat)
    requires k < |log| && n <= |plog|
  {
    var p := log[k];
    && (!p.body.Nak? ==> p.stamp == StampOf(CountOn(log, k, p.chan)))
    && (p.chan == 0 ==> p.body.OpenChan? || p.body.OpenReply?)
    && (p.chan != 0 ==> p.body.Data? || p.body.CloseChan? || p.body.Nak?)
    && (p.chan != 0 && !p.body.Nak? ==>
          Created(i, log, k, plog, n, p.chan) && !CloseBefore(log, k, p.chan))
    && (p.body.Nak? ==> CloseBefore(log, k, p.chan))
    && (p.body.OpenReply? ==>
          p.body.dataChan == if p.body.errno == 0 then IdOf(i, Accepts(log, k)) else 0)
  }

  ghost predicate LogOk(i: nat, log: seq<Packet>, plog: seq<Packet>, n: nat)
    requires n <= |plog|
  {
    forall k :: 0 <= k < |log| ==> EntryOk(i, log, k, plog, n)
  }

  ghost predicate CountersOk(c: ChannelView, id: nat, log: seq<Packet>, plog: seq<Packet>, n: nat)
    requires n <= |plog|
  {
    && c.id == id
    && c.valid
    && c.nextSeq == CounterOf(CountOn(log, |log|, id))
    && c.peerSeq == ExpectOf(CountOn(plog, n, id))
  }

  /** All that is kept about one data channel of endpoint i. */
  ghost predicate ChanOk(i: nat, m: MuxView, plog: seq<Packet>, n: nat, c: nat)
    requires n <= |plog|
  {
    && (c != 0 ==> (c in m.chans <==> Live(i, m.out, plog, n, c)))
    && (c in m.chans ==> c != 0 && CountersOk(m.chans[c], c, m.out, plog, n))
    && Handed(m.events, c) <= Payloads(plog, n, c)
    && (c in m.chans ==> Handed(m.events, c) == Payloads(plog, n, c))
  }

  ghost predicate StateOk(i: nat, m: MuxView, plog: seq<Packet>, n: nat)
    requires n <= |plog|
  {
    && m.side == i
    && CountersOk(m.control, 0, m.out, plog, n)
    && (forall c :: ChanOk(i, m, plog, n, c))
    && m.nextId == IdOf(i, Accepts(m.out, |m.out|))
    && (forall k :: 0 <= k < |m.events| ==> !m.events[k].Errored?)
  }

  /** Requests number `answered` and later are the ones waited for. */
  ghost predicate WaitsFor(waiting: map<nat, bytes>, opens: seq<(nat, bytes)>, answered: nat) {
    && answered <= |opens|
    && (forall k :: answered <= k < |opens| ==> opens[k].0 in waiting && waiting[opens[k].0] == opens[k].1)
    && (forall s :: s in waiting ==> exists k :: answered <= k < |opens| && opens[k].0 == s)
  }

  ghost predicate RequestsOk(m: MuxView, plog: seq<Packet>, n: nat)
    requires n <= |plog|
  {
    var replies, asked := Replies(m.out, |m.out|), Opens(plog, n);
    && |replies| == |asked|
    && (forall k :: 0 <= k < |asked| ==> replies[k].reqSeq == asked[k].0)
    && WaitsFor(m.waiting, Opens(m.out, |m.out|), |Replies(plog, n)|)
  }

  ghost predicate Half(i: nat, m: MuxView, plog: seq<Packet>, n: nat) {
    && n <= |plog|
    && LogOk(i, m.out, plog, n)
    && StateOk(i, m, plog, n)
    && RequestsOk(m, plog, n)
  }

  ghost predicate Inv(w: World) {
    && Shaped(w)
    && Half(0, w.peer[0], w.peer[1].out, w.got[0])
    && Half(1, w.peer[1], w.peer[0].out, w.got[1])
  }

  /** The run so far is within the 32-bit limits. */
  ghost predicate InBudget(log: seq<Packet>) {
    && |Opens(log, |log|)| <= MAX_OPENS
    && forall c :: CountOn(log, |log|, c) <= TWO32
  }

  ghost predicate Budget(w: World)
    requires Shaped(w)
  {
    InBudget(w.peer[0].out) && InBudget(w.peer[1].out)
  }

  // ------------------------------------------------------------------
  // Nothing said about a prefix changes when the log grows.

  lemma {:induction false} PrefixStable(log: seq<Packet>, log': seq<Packet>, n: nat, c: nat)
    requires log <= log' && n <= |log|
    ensures CountOn(log', n, c) == CountOn(log, n, c)
    ensures Payloads(log', n, c) == Payloads(log, n, c)
    ensures Opens(log', n) == Opens(log, n)
    ensures Replies(log', n) == Replies(log, n)
    ensures Accepts(log', n) == Accepts(log, n)
    ensures ReplyBefore(log', n, c) == ReplyBefore(log, n, c)
    ensures CloseBefore(log', n, c) == CloseBefore(log, n, c)
  {
    if n > 0 {
      PrefixStable(log, log', n - 1, c);
    }
  }

  /** The peer writing more does not disturb what i knows. */
  lemma HalfStable(i: nat, m: MuxView, plog: seq<Packet>, plog': seq<Packet>, n: nat)
    requires Half(i, m, plog, n) && plog <= plog'
    ensures Half(i, m, plog', n)
  {
    forall k | 0 <= k < |m.out| ensures EntryOk(i, m.out, k, plog', n) {
      assert EntryOk(i, m.out, k, plog, n);
      PrefixStable(plog, plog', n, m.out[k].chan);
    }
    forall c ensures ChanOk(i, m, plog', n, c) {
      assert ChanOk(i, m, plog, n, c);
      PrefixStable(plog, plog', n, c);
    }
    PrefixStable(plog, plog', n, 0);
  }

  lemma LogDelivered(i: nat, log: seq<Packet>, plog: seq<Packet>, n: nat, n': nat)
    requires n <= n' <= |plog|
    requires LogOk(i, log, plog, n)
    ensures LogOk(i, log, plog, n')
  {
    forall k | 0 <= k < |log| ensures EntryOk(i, log, k, plog, n') {
      assert EntryOk(i, log, k, plog, n);
    }
  }

  /** Writing one more packet, perhaps after one more delivery; the demands on
      the new packet are read off the old log. */
  lemma NewEntry(i: nat, log: seq<Packet>, p: Packet, plog: seq<Packet>, n: nat, n': nat)
    requires n <= n' <= |plog|
    requires LogOk(i, log, plog, n)
    requires !p.body.Nak? ==> p.stamp == StampOf(CountOn(log, |log|, p.chan))
    requires p.chan == 0 ==> p.body.OpenChan? || p.body.OpenReply?
    requires p.chan != 0 ==> p.body.Data? || p.body.CloseChan? || p.body.Nak?
    requires p.chan != 0 && !p.body.Nak? ==>
               Created(i, log, |log|, plog, n', p.chan) && !CloseBefore(log, |log|, p.chan)
    requires p.body.Nak? ==> CloseBefore(log, |log|, p.chan)
    requires p.body.OpenReply? ==>
               p.body.dataChan == if p.body.errno == 0 then IdOf(i, Accepts(log, |log|)) else 0
    ensures LogOk(i, log + [p], plog, n')
  {
    var log' := log + [p];
    LogDelivered(i, log, plog, n, n');
    forall k | 0 <= k < |log'| ensures EntryOk(i, log', k, plog, n') {
      PrefixStable(log, log', k, log'[k].chan);
      assert k < |log| ==> EntryOk(i, log, k, plog, n');
    }
  }

  // ------------------------------------------------------------------
  // One more packet at the end of a log.

  lemma Appended(log: seq<Packet>, p: Packet, c: nat)
    ensures var log', n := log + [p], |log|;
      && CountOn(log', n + 1, c) == CountOn(log, n, c) + (if On(p, c) then 1 else 0)
      && Opens(log', n + 1) == (if p.body.OpenChan? then Opens(log, n) + [(p.stamp, p.body.path)] else Opens(log, n))
      && Replies(log', n + 1) == (if p.body.OpenReply? then Replies(log, n) + [p.body] else Replies(log, n))
      && Accepts(log', n + 1) == Accepts(log, n) + (if p.body.OpenReply? && p.body.errno == 0 then 1 else 0)
      && (ReplyBefore(log', n + 1, c) <==> ReplyBefore(log, n, c) || IsReply(p, c))
      && (CloseBefore(log', n + 1, c) <==> CloseBefore(log, n, c) || IsClose(p, c))
  {
    var log', n := log + [p], |log|;
    PrefixStable(log, log', n, c);
    assert log'[n] == p;
  }

  /** One more packet delivered. */
  lemma Advanced(plog: seq<Packet>, n: nat, c: nat)
    requires n < |plog|
    ensures var p := plog[n];
      && CountOn(plog, n + 1, c) == CountOn(plog, n, c) + (if On(p, c) then 1 else 0)
      && Payloads(plog, n + 1, c) == (if p.chan == c && p.body.Data? then Payloads(plog, n, c) + [p.body] else Payloads(plog, n, c))
      && Opens(plog, n + 1) == (if p.body.OpenChan? then Opens(plog, n) + [(p.stamp, p.body.path)] else Opens(plog, n))
      && Replies(plog, n + 1) == (if p.body.OpenReply? then Replies(plog, n) + [p.body] else Replies(plog, n))
      && (ReplyBefore(plog, n + 1, c) <==> ReplyBefore(plog, n, c) || IsReply(p, c))
      && (CloseBefore(plog, n + 1, c) <==> CloseBefore(plog, n, c) || IsClose(p, c))
  {
  }

  lemma HandedAppend(events: seq<Event>, e: Event, c: nat)
    ensures Handed(events + [e], c) == if e.Received? && e.chan == c then Handed(events, c) + [e.body] else Handed(events, c)
  {
    assert (events + [e])[..|events|] == events;
  }

  // ------------------------------------------------------------------
  // User calls.

  lemma SendKeeps(i: nat, m: MuxView, plog: seq<Packet>, n: nat, c: nat, body: Body)
    requires i < 2 && Half(i, m, plog, n)
    requires c in m.chans && body.Data?
    ensures Half(i, SendOn(m, c, body), plog, n)
  {
    hide BumpSend, BumpPeer, CounterOf, ExpectOf, IdOf, StampFor, CountOn, Handed, Payloads, Opens, Replies, Accepts;
    assert ChanOk(i, m, plog, n, c);
    var m', log := SendOn(m, c, body), m.out;
    var p := Packet(c, StampFor(m.chans[c].nextSeq), body);
    assert m'.out == log + [p];
    assert p.stamp == StampOf(CountOn(log, |log|, c));
    NewEntry(i, log, p, plog, n, n);
    StampsAgree(CountOn(log, |log|, c));
    forall d ensures ChanOk(i, m', plog, n, d) {
      assert ChanOk(i, m, plog, n, d);
      Appended(log, p, d);
    }
    Appended(log, p, 0);
  }

  lemma CloseKeeps(i: nat, m: MuxView, plog: seq<Packet>, n: nat, c: nat)
    requires i < 2 && Half(i, m, plog, n)
    requires c in m.chans
    ensures Half(i, CloseRequest(m, c), plog, n)
  {
    hide BumpSend, BumpPeer, CounterOf, ExpectOf, IdOf, StampFor, CountOn, Handed, Payloads, Opens, Replies, Accepts;
    assert ChanOk(i, m, plog, n, c);
    var m', log := CloseRequest(m, c), m.out;
    var p := Packet(c, StampFor(m.chans[c].nextSeq), CloseChan);
    assert m'.out == log + [p];
    assert p.stamp == StampOf(CountOn(log, |log|, c));
    NewEntry(i, log, p, plog, n, n);
    forall d ensures ChanOk(i, m', plog, n, d) {
      assert ChanOk(i, m, plog, n, d);
      Appended(log, p, d);
      HandedAppend(m.events, Closed(c), d);
    }
    Appended(log, p, 0);
  }

  /** Nobody's request number comes up twice. */
  lemma {:induction false} OpensIncrease(i: nat, log: seq<Packet>, plog: seq<Packet>, got: nat, n: nat)
    requires got <= |plog| && LogOk(i, log, plog, got)
    requires n <= |log| && CountOn(log, n, 0) < TWO32
    ensures forall k :: 0 <= k < |Opens(log, n)| ==> Opens(log, n)[k].0 <= CountOn(log, n, 0)
    ensures forall k, l :: 0 <= k < l < |Opens(log, n)| ==> Opens(log, n)[k].0 < Opens(log, n)[l].0
  {
    if n > 0 {
      assert EntryOk(i, log, n - 1, plog, got);
      OpensIncrease(i, log, plog, got, n - 1);
    }
  }

  lemma {:induction false} ControlTraffic(i: nat, log: seq<Packet>, plog: seq<Packet>, got: nat, n: nat)
    requires got <= |plog| && LogOk(i, log, plog, got)
    requires n <= |log|
    ensures CountOn(log, n, 0) == |Opens(log, n)| + |Replies(log, n)|
  {
    if n > 0 {
      assert EntryOk(i, log, n - 1, plog, got);
      ControlTraffic(i, log, plog, got, n - 1);
    }
  }

  lemma {:induction false} CountsGrow(log: seq<Packet>, n: nat, n': nat)
    requires n <= n' <= |log|
    ensures Opens(log, n) <= Opens(log, n')
    ensures Replies(log, n) <= Replies(log, n')
    decreases n'
  {
    if n < n' {
      CountsGrow(log, n, n' - 1);
    }
  }

  /** The control channel stays below 2^32 packets: each side's requests and
      the other side's are both bounded. */
  lemma ControlInBudget(i: nat, m: MuxView, plog: seq<Packet>, n: nat)
    requires Half(i, m, plog, n) && InBudget(m.out) && InBudget(plog)
    ensures CountOn(m.out, |m.out|, 0) < TWO32 - 2
  {
    ControlTraffic(i, m.out, plog, n, |m.out|);
    CountsGrow(plog, n, |plog|);
  }

  lemma OpenKeeps(i: nat, m: MuxView, plog: seq<Packet>, n: nat, path: bytes)
    requires i < 2 && Half(i, m, plog, n)
    requires InBudget(m.out) && InBudget(plog)
    ensures Half(i, OpenRequest(m, path), plog, n)
  {
    hide BumpSend, BumpPeer, CounterOf, ExpectOf, IdOf, StampFor, CountOn, Handed, Payloads, Opens, Replies, Accepts;
    var m', log := OpenRequest(m, path), m.out;
    var p := Packet(0, StampFor(m.control.nextSeq), OpenChan(path));
    assert m'.out == log + [p];
    assert p.stamp == StampOf(CountOn(log, |log|, 0));
    NewEntry(i, log, p, plog, n, n);
    StampsAgree(CountOn(log, |log|, 0));
    forall d ensures ChanOk(i, m', plog, n, d) {
      assert ChanOk(i, m, plog, n, d);
      Appended(log, p, d);
    }
    Appended(log, p, 0);
    ControlInBudget(i, m, plog, n);
    OpensIncrease(i, log, plog, n, |log|);
    StampIs(CountOn(log, |log|, 0));
    WaitsAlsoFor(m.waiting, Opens(log, |log|), |Replies(plog, n)|, p.stamp, path);
  }

  lemma WaitsAlsoFor(waiting: map<nat, bytes>, opens: seq<(nat, bytes)>, answered: nat, s: nat, path: bytes)
    requires WaitsFor(waiting, opens, answered)
    requires forall k :: 0 <= k < |opens| ==> opens[k].0 < s
    ensures WaitsFor(waiting[s := path], opens + [(s, path)], answered)
  {
    var opens' := opens + [(s, path)];
    assert opens'[|opens|].0 == s;
    forall t: nat {:trigger t in waiting} | t in waiting || t == s ensures exists k :: answered <= k < |opens'| && opens'[k].0 == t {
      if t != s {
        var k :| answered <= k < |opens| && opens[k].0 == t;
        assert opens'[k].0 == t;
      }
    }
  }

  // ------------------------------------------------------------------
  // Deliveries.  Endpoint i is handed packet number n of its peer, whose own
  // half of the invariant says what the peer may have written there.

  lemma DeliverClose(i: nat, m: MuxView, pm: MuxView, n: nat, pn: nat)
    requires i < 2 && Half(i, m, pm.out, n) && Half(1 - i, pm, m.out, pn)
    requires n < |pm.out| && pm.out[n].body.CloseChan?
    ensures pm.out[n].chan != 0
    ensures Half(i, DropChannel(m, pm.out[n].chan), pm.out, n + 1)
  {
    hide BumpSend, BumpPeer, CounterOf, ExpectOf, IdOf, StampFor, CountOn, Handed, Payloads, Opens, Replies, Accepts;
    var n' := n + 1;
    var plog, p := pm.out, pm.out[n];
    var m' := DropChannel(m, p.chan);
    assert EntryOk(1 - i, plog, n, m.out, pn);
    LogDelivered(i, m.out, plog, n, n + 1);
    forall d ensures ChanOk(i, m', plog, n', d) {
      assert ChanOk(i, m, plog, n, d);
      HandedAppend(m.events, Closed(p.chan), d);
      Advanced(plog, n, d);
    }
    Advanced(plog, n, 0);
  }

  /** A nak only ever follows the writer's own close: it hits no live channel. */
  lemma DeliverNak(i: nat, m: MuxView, pm: MuxView, n: nat, pn: nat)
    requires i < 2 && Half(i, m, pm.out, n) && Half(1 - i, pm, m.out, pn)
    requires n < |pm.out| && pm.out[n].body.Nak?
    ensures pm.out[n].chan != 0 && pm.out[n].chan !in m.chans
    ensures Half(i, m, pm.out, n + 1)
  {
    hide BumpSend, BumpPeer, CounterOf, ExpectOf, IdOf, StampFor, CountOn, Handed, Payloads, Opens, Replies, Accepts;
    var n' := n + 1;
    var plog, p := pm.out, pm.out[n];
    assert EntryOk(1 - i, plog, n, m.out, pn);
    assert ChanOk(i, m, plog, n, p.chan);
    assert !Live(i, m.out, plog, n, p.chan);
    LogDelivered(i, m.out, plog, n, n + 1);
    forall d ensures ChanOk(i, m, plog, n', d) {
      assert ChanOk(i, m, plog, n, d);
      Advanced(plog, n, d);
    }
    Advanced(plog, n, 0);
  }

  lemma DeliverData(i: nat, m: MuxView, pm: MuxView, n: nat, pn: nat, size: int)
    requires i < 2 && Half(i, m, pm.out, n) && Half(1 - i, pm, m.out, pn)
    requires n < |pm.out| && pm.out[n].body.Data? && pm.out[n].chan in m.chans
    ensures Half(i, Handle(m, pm.out[n], size), pm.out, n + 1)
  {
    hide BumpSend, BumpPeer, CounterOf, ExpectOf, IdOf, StampFor, CountOn, Handed, Payloads, Opens, Replies, Accepts;
    var n' := n + 1;
    var plog, p := pm.out, pm.out[n];
    var c := p.chan;
    var m' := Handle(m, p, size);
    assert EntryOk(1 - i, plog, n, m.out, pn);
    assert ChanOk(i, m, plog, n, c);
    assert m'.events == m.events + [Received(c, p.body)];
    StampsAgree(CountOn(plog, n, c));
    LogDelivered(i, m.out, plog, n, n + 1);
    forall d ensures ChanOk(i, m', plog, n', d) {
      assert ChanOk(i, m, plog, n, d);
      HandedAppend(m.events, Received(c, p.body), d);
      Advanced(plog, n, d);
    }
    Advanced(plog, n, 0);
  }

  /** Data for a channel that is gone: this endpoint closed it itself. */
  lemma DeliverStray(i: nat, m: MuxView, pm: MuxView, n: nat, pn: nat)
    requires i < 2 && Half(i, m, pm.out, n) && Half(1 - i, pm, m.out, pn)
    requires n < |pm.out| && pm.out[n].body.Data? && pm.out[n].chan !in m.chans
    ensures Half(i, NakFor(m, pm.out[n]), pm.out, n + 1)
  {
    hide BumpSend, BumpPeer, CounterOf, ExpectOf, IdOf, StampFor, CountOn, Handed, Payloads, Opens, Replies, Accepts;
    var n' := n + 1;
    var plog, p, log := pm.out, pm.out[n], m.out;
    var m', q := NakFor(m, p), Packet(p.chan, p.stamp, Nak);
    assert EntryOk(1 - i, plog, n, log, pn);
    assert ChanOk(i, m, plog, n, p.chan);
    assert CloseBefore(log, |log|, p.chan) by {
      if p.chan % 2 == i {
        var k :| 0 <= k < pn && IsReply(log[k], p.chan);
        assert ReplyBefore(log, |log|, p.chan);
      }
    }
    NewEntry(i, log, q, plog, n, n + 1);
    forall d ensures ChanOk(i, m', plog, n', d) {
      assert ChanOk(i, m, plog, n, d);
      Appended(log, q, d);
      Advanced(plog, n, d);
    }
    Appended(log, q, 0);
    Advanced(plog, n, 0);
  }

  lemma {:induction false} AcceptsGrow(log: seq<Packet>, n: nat, n': nat)
    requires n <= n' <= |log|
    ensures Accepts(log, n) <= Accepts(log, n')
    decreases n'
  {
    if n < n' {
      AcceptsGrow(log, n, n' - 1);
    }
  }

  lemma {:induction false} CountGrows(log: seq<Packet>, n: nat, n': nat, c: nat)
    requires n <= n' <= |log|
    ensures CountOn(log, n, c) <= CountOn(log, n', c)
    decreases n'
  {
    if n < n' {
      CountGrows(log, n, n' - 1, c);
    }
  }

  /** Endpoint i's later identifiers are in no reply it has written. */
  lemma FreshId(i: nat, log: seq<Packet>, plog: seq<Packet>, got: nat, n: nat, l: nat)
    requires i < 2 && got <= |plog| && LogOk(i, log, plog, got)
    requires n <= |log| && Accepts(log, n) <= l <= MAX_OPENS
    ensures !ReplyBefore(log, n, IdOf(i, l))
    ensures IdOf(i, l) != 0 && IdOf(i, l) % 2 == i
  {
    forall k | 0 <= k < n ensures !IsReply(log[k], IdOf(i, l)) {
      if IsReply(log[k], IdOf(i, l)) {
        assert EntryOk(i, log, k, plog, got);
        AcceptsGrow(log, k + 1, n);
        IdsDiffer(i, Accepts(log, k), l);
      }
    }
    if l > 0 { IdsDiffer(i, l - 1, l); }
  }

  /** A channel without a reply has carried nothing. */
  lemma Unreplied(i: nat, m: MuxView, pm: MuxView, n: nat, pn: nat, c: nat)
    requires i < 2 && Half(i, m, pm.out, n) && Half(1 - i, pm, m.out, pn)
    requires c != 0
    requires if c % 2 == i then !ReplyBefore(m.out, |m.out|, c) else !ReplyBefore(pm.out, n, c)
    ensures CountOn(m.out, |m.out|, c) == 0 && !CloseBefore(m.out, |m.out|, c)
    ensures CountOn(pm.out, n, c) == 0 && !CloseBefore(pm.out, n, c)
    ensures Payloads(pm.out, n, c) == []
  {
    forall k | 0 <= k < |m.out| ensures !On(m.out[k], c) {
      assert EntryOk(i, m.out, k, pm.out, n);
    }
    forall k | 0 <= k < n ensures !On(pm.out[k], c) {
      assert EntryOk(1 - i, pm.out, k, m.out, pn);
    }
    Unused(m.out, |m.out|, c);
    Unused(pm.out, n, c);
  }

  lemma {:induction false} Unused(log: seq<Packet>, n: nat, c: nat)
    requires n <= |log| && forall k :: 0 <= k < n ==> !On(log[k], c)
    ensures CountOn(log, n, c) == 0 && Payloads(log, n, c) == [] && !CloseBefore(log, n, c)
  {
    if n > 0 {
      Unused(log, n - 1, c);
    }
  }

  /** The number of accepted requests is bounded by the peer's budget. */
  lemma AcceptsInBudget(i: nat, m: MuxView, plog: seq<Packet>, n: nat)
    requires Half(i, m, plog, n) && InBudget(plog)
    ensures Accepts(m.out, |m.out|) <= |Opens(plog, n)| <= MAX_OPENS
  {
    CountsGrow(plog, n, |plog|);
  }

  /** The search stops at once, or right after jumping over 0. */
  lemma SearchFinds(i: nat, chans: set<nat>, a: nat)
    requires i < 2 && a + 1 <= MAX_OPENS
    requires IdOf(i, a + 1) !in chans
    ensures SearchEnds(chans, (IdOf(i, a) + 2) % TWO32)
    ensures NextFree(chans, (IdOf(i, a) + 2) % TWO32, TWO31) == IdOf(i, a + 1)
  {
    var x := (IdOf(i, a) + 2) % TWO32;
    if i == 0 && a == TWO31 - 3 {
      assert x == 0 && IdOf(i, a + 1) == 2;
      assert NextFree(chans, 2, TWO31 - 1) == 2;
      assert SearchStopsAfter(chans, x, 1);
    } else {
      assert x == IdOf(i, a + 1);
      IdsDiffer(i, a, a + 1);
      assert SearchStopsAfter(chans, x, 0);
    }
  }

  /** The request is the next one to answer, and the identifier is unused. */
  lemma OpenFacts(i: nat, m: MuxView, pm: MuxView, n: nat, pn: nat)
    requires i < 2 && Half(i, m, pm.out, n) && Half(1 - i, pm, m.out, pn)
    requires n < |pm.out| && pm.out[n].body.OpenChan? && InBudget(pm.out)
    ensures pm.out[n].chan == 0
    ensures var a := Accepts(m.out, |m.out|);
      && a + 1 <= MAX_OPENS
      && m.nextId == IdOf(i, a) && m.nextId != 0 && m.nextId % 2 == i
      && !ReplyBefore(m.out, |m.out|, m.nextId)
      && m.nextId !in m.chans && IdOf(i, a + 1) !in m.chans.Keys + {m.nextId}
      && IdAfter(m.chans.Keys, m.nextId) == IdOf(i, a + 1)
  {
    hide BumpSend, BumpPeer, CounterOf, ExpectOf, IdOf, NextFree, CountOn, Handed, Payloads, Opens, Replies, Accepts, CloseBefore, RequestsOk, StampFor;
    var a := Accepts(m.out, |m.out|);
    assert EntryOk(1 - i, pm.out, n, m.out, pn);
    AcceptsInBudget(i, m, pm.out, n);
    CountsGrow(pm.out, n + 1, |pm.out|);
    Advanced(pm.out, n, 0);
    FreshId(i, m.out, pm.out, n, |m.out|, a);
    FreshId(i, m.out, pm.out, n, |m.out|, a + 1);
    IdsDiffer(i, a, a + 1);
    assert ChanOk(i, m, pm.out, n, m.nextId);
    assert ChanOk(i, m, pm.out, n, IdOf(i, a + 1));
    assert IdAfter(m.chans.Keys, m.nextId) == IdOf(i, a + 1) by {
      SearchFinds(i, m.chans.Keys + {m.nextId}, a);
    }
  }

  lemma DeliverOpen(i: nat, m: MuxView, pm: MuxView, n: nat, pn: nat, size: int)
    requires i < 2 && Half(i, m, pm.out, n) && Half(1 - i, pm, m.out, pn)
    requires n < |pm.out| && pm.out[n].body.OpenChan? && InBudget(pm.out)
    requires size >= 0
    ensures Half(i, Handle(m, pm.out[n], size), pm.out, n + 1)
  {
    hide BumpSend, BumpPeer, CounterOf, ExpectOf, IdOf, IdAfter, StampFor, CountOn, Handed, Payloads, Opens, Replies, Accepts;
    var plog, p, log, n' := pm.out, pm.out[n], m.out, n + 1;
    var m', id := Handle(m, p, size), m.nextId;
    var q := Packet(0, StampFor(m.control.nextSeq), OpenReply(p.stamp, 0, size, id));
    OpenFacts(i, m, pm, n, pn);
    Unreplied(i, m, pm, n, pn, id);
    assert m'.out == log + [q] && m'.events == m.events + [Opened(p.stamp, 0, id, false)];
    StampsAgree(CountOn(log, |log|, 0));
    StampsAgree(CountOn(plog, n, 0));
    NewEntry(i, log, q, plog, n, n');
    forall d ensures ChanOk(i, m', plog, n', d) {
      assert ChanOk(i, m, plog, n, d);
      HandedAppend(m.events, Opened(p.stamp, 0, id, false), d);
      Appended(log, q, d);
      Advanced(plog, n, d);
      FreshCounters();
    }
    Appended(log, q, 0);
    Advanced(plog, n, 0);
  }

  lemma FreshCounters()
    ensures CounterOf(0) == FIRST_SEQ && ExpectOf(0) == FIRST_SEQ
  {
  }

  lemma DeliverRefusedOpen(i: nat, m: MuxView, pm: MuxView, n: nat, pn: nat, size: int)
    requires i < 2 && Half(i, m, pm.out, n) && Half(1 - i, pm, m.out, pn)
    requires n < |pm.out| && pm.out[n].body.OpenChan?
    requires size < 0
    ensures Half(i, Handle(m, pm.out[n], size), pm.out, n + 1)
  {
    hide BumpSend, BumpPeer, CounterOf, ExpectOf, IdOf, IdAfter, NextFree, ReplyBefore, CloseBefore, StampFor, CountOn,
         Handed, Payloads, Opens, Replies, Accepts;
    var plog, p, log, n' := pm.out, pm.out[n], m.out, n + 1;
    var m' := Handle(m, p, size);
    var q := Packet(0, StampFor(m.control.nextSeq), OpenReply(p.stamp, 1, 0, 0));
    assert EntryOk(1 - i, plog, n, log, pn);
    assert m'.out == log + [q];
    StampsAgree(CountOn(log, |log|, 0));
    StampsAgree(CountOn(plog, n, 0));
    NewEntry(i, log, q, plog, n, n');
    forall d ensures ChanOk(i, m', plog, n', d) {
      assert ChanOk(i, m, plog, n, d);
      Appended(log, q, d);
      Advanced(plog, n, d);
    }
    Appended(log, q, 0);
    Advanced(plog, n, 0);
  }

  /** An accepting reply answers the oldest waiting request and names a channel
      nobody has used. */
  lemma ReplyFacts(i: nat, m: MuxView, pm: MuxView, n: nat, pn: nat)
    requires i < 2 && Half(i, m, pm.out, n) && Half(1 - i, pm, m.out, pn)
    requires n < |pm.out| && pm.out[n].body.OpenReply? && pm.out[n].body.errno == 0
    requires InBudget(m.out)
    ensures var r := pm.out[n].body;
      && pm.out[n].chan == 0
      && r.dataChan != 0 && r.dataChan % 2 == 1 - i && r.dataChan !in m.chans
      && !ReplyBefore(pm.out, n, r.dataChan)
  {
    var plog, r := pm.out, pm.out[n].body;
    assert EntryOk(1 - i, plog, n, m.out, pn);
    AcceptsInBudget(1 - i, pm, m.out, pn);
    AcceptsGrow(plog, n, |plog|);
    FreshId(1 - i, plog, m.out, pn, n, Accepts(plog, n));
    assert ChanOk(i, m, plog, n, r.dataChan);
  }

  lemma ReplyAnswers(i: nat, m: MuxView, pm: MuxView, n: nat, pn: nat)
    requires i < 2 && Half(i, m, pm.out, n) && Half(1 - i, pm, m.out, pn)
    requires n < |pm.out| && pm.out[n].body.OpenReply?
    requires InBudget(m.out) && InBudget(pm.out)
    ensures pm.out[n].body.reqSeq in m.waiting
    ensures WaitsFor(m.waiting - {pm.out[n].body.reqSeq}, Opens(m.out, |m.out|), |Replies(pm.out, n)| + 1)
  {
    hide BumpSend, BumpPeer, CounterOf, ExpectOf, IdOf, StampFor, CountOn, Handed, Payloads;
    var plog, s, opens := pm.out, pm.out[n].body.reqSeq, Opens(m.out, |m.out|);
    var r := |Replies(plog, n)|;
    CountsGrow(plog, n + 1, |plog|);
    assert Replies(plog, n + 1)[r] == plog[n].body;
    assert Replies(plog, |plog|)[r] == plog[n].body;
    CountsGrow(m.out, pn, |m.out|);
    assert opens[r].0 == s;
    ControlInBudget(i, m, plog, n);
    OpensIncrease(i, m.out, plog, n, |m.out|);
  }

  lemma DeliverReply(i: nat, m: MuxView, pm: MuxView, n: nat, pn: nat, size: int)
    requires i < 2 && Half(i, m, pm.out, n) && Half(1 - i, pm, m.out, pn)
    requires n < |pm.out| && pm.out[n].body.OpenReply? && pm.out[n].body.errno == 0
    requires InBudget(m.out) && InBudget(pm.out)
    ensures Half(i, Handle(m, pm.out[n], size), pm.out, n + 1)
  {
    hide BumpSend, BumpPeer, CounterOf, ExpectOf, IdOf, StampFor, CountOn, Handed, Payloads, Opens, Replies, Accepts;
    var plog, p, n' := pm.out, pm.out[n], n + 1;
    var m', c := Handle(m, p, size), p.body.dataChan;
    ReplyFacts(i, m, pm, n, pn);
    ReplyAnswers(i, m, pm, n, pn);
    Unreplied(i, m, pm, n, pn, c);
    var e := Opened(p.body.reqSeq, 0, c, true);
    assert m'.out == m.out && m'.events == m.events + [e];
    StampsAgree(CountOn(plog, n, 0));
    LogDelivered(i, m.out, plog, n, n');
    forall d ensures ChanOk(i, m', plog, n', d) {
      assert ChanOk(i, m, plog, n, d);
      HandedAppend(m.events, e, d);
      Advanced(plog, n, d);
      FreshCounters();
    }
    Advanced(plog, n, 0);
  }
}
