/** Runs of two endpoints: which deliveries are safe, what listeners are handed,
    and how deliveries come to an end. */
module MuxRuns {
  import opened Wire
  import opened MuxSpec
  import opened MuxProtocol

  // ------------------------------------------------------------------
  // Every run.

  predicate IsRefusal(p: Packet) {
    p.body.OpenReply? && p.body.errno != 0
  }

  /** The sequence number on a routed packet is the one waited for. */
  lemma StampExpected(i: nat, m: MuxView, pm: MuxView, n: nat, pn: nat)
    requires i < 2 && Half(i, m, pm.out, n) && Half(1 - i, pm, m.out, pn)
    requires n < |pm.out| && InBudget(pm.out)
    requires !pm.out[n].body.Nak? && Routed(m, pm.out[n])
    ensures pm.out[n].stamp == Channel(m, pm.out[n].chan).peerSeq
  {
    var c := pm.out[n].chan;
    assert EntryOk(1 - i, pm.out, n, m.out, pn);
    assert ChanOk(i, m, pm.out, n, c);
    CountGrows(pm.out, n + 1, |pm.out|, c);
    StampsAgree(CountOn(pm.out, n, c));
  }

  /** Delivering the next packet trips no assert, unless the packet refuses an
      open: then it always trips the one that looks the reply's channel 0 up. */
  lemma DeliverySafe(w: World, i: nat, size: int)
    requires Inv(w) && Budget(w) && i < 2 && InFlight(w, i)
    ensures AssertsHold(w.peer[i], NextPacket(w, i), size) <==> !IsRefusal(NextPacket(w, i))
  {
    hide BumpSend, BumpPeer, CounterOf, ExpectOf, IdOf, IdAfter, NextFree, CountOn, Handed, Payloads, Opens, Replies, Accepts, RequestsOk;
    var m, pm, n, pn := w.peer[i], w.peer[1 - i], w.got[i], w.got[1 - i];
    var p := pm.out[n];
    assert EntryOk(1 - i, pm.out, n, m.out, pn);
    if !p.body.CloseChan? && !p.body.Nak? && Routed(m, p) {
      StampExpected(i, m, pm, n, pn);
      if p.body.OpenChan? {
        OpenFacts(i, m, pm, n, pn);
        SearchFinds(i, m.chans.Keys + {m.nextId}, Accepts(m.out, |m.out|));
      } else if p.body.OpenReply? && p.body.errno == 0 {
        ReplyFacts(i, m, pm, n, pn);
        ReplyAnswers(i, m, pm, n, pn);
      }
    }
  }

  lemma DeliverKeeps(w: World, i: nat, size: int)
    requires Inv(w) && Budget(w) && Enabled(w, Deliver(i, size))
    ensures Half(i, Handle(w.peer[i], NextPacket(w, i), size), w.peer[1 - i].out, w.got[i] + 1)
  {
    var m, pm, n, pn := w.peer[i], w.peer[1 - i], w.got[i], w.got[1 - i];
    var p := pm.out[n];
    DeliverySafe(w, i, size);
    assert EntryOk(1 - i, pm.out, n, m.out, pn);
    if p.body.CloseChan? {
      DeliverClose(i, m, pm, n, pn);
    } else if p.body.Nak? {
      DeliverNak(i, m, pm, n, pn);
    } else if p.body.OpenChan? {
      if size < 0 { DeliverRefusedOpen(i, m, pm, n, pn, size); } else { DeliverOpen(i, m, pm, n, pn, size); }
    } else if p.body.OpenReply? {
      DeliverReply(i, m, pm, n, pn, size);
    } else if p.chan in m.chans {
      DeliverData(i, m, pm, n, pn, size);
    } else {
      DeliverStray(i, m, pm, n, pn);
    }
  }

  lemma {:induction false} BudgetShrinks(log: seq<Packet>, log': seq<Packet>)
    requires log <= log' && InBudget(log')
    ensures InBudget(log)
  {
    PrefixStable(log, log', |log|, 0);
    CountsGrow(log', |log|, |log'|);
    forall c ensures CountOn(log, |log|, c) <= TWO32 {
      PrefixStable(log, log', |log|, c);
      CountGrows(log', |log|, |log'|, c);
    }
  }

  lemma StepKeepsInv(w: World, s: Step)
    requires Inv(w) && Enabled(w, s) && Budget(Next(w, s))
    ensures Inv(Next(w, s))
    ensures Budget(w)
  {
    hide Half, InBudget, Endpoint, Enabled;
    var i, w' := s.at, Next(w, s);
    EnabledAt(w, s);
    StepExtends(w, s);
    BudgetShrinks(w.peer[i].out, w'.peer[i].out);
    BudgetShrinks(w.peer[1 - i].out, w'.peer[1 - i].out);
    HalfStable(1 - i, w.peer[1 - i], w.peer[i].out, w'.peer[i].out, w.got[1 - i]);
    EndpointKeeps(w, s);
  }

  lemma EnabledAt(w: World, s: Step)
    requires Shaped(w) && Enabled(w, s)
    ensures s.at < 2
  {
  }

  /** The side that moves. */
  lemma EndpointKeeps(w: World, s: Step)
    requires Inv(w) && Enabled(w, s) && Budget(w)
    ensures var i := s.at; Half(i, Endpoint(w, s), w.peer[1 - i].out, w.got[i] + if s.Deliver? then 1 else 0)
  {
    hide Half, InBudget, Handle, AssertsHold, OpenRequest, SendOn, CloseRequest;
    var i := s.at;
    var m, plog, n := w.peer[i], w.peer[1 - i].out, w.got[i];
    match s
    case UserOpen(_, path) => OpenKeeps(i, m, plog, n, path);
    case UserSend(_, c, payload) => SendKeeps(i, m, plog, n, c, Data(payload));
    case UserClose(_, c) => CloseKeeps(i, m, plog, n, c);
    case Deliver(_, size) => DeliverKeeps(w, i, size);
  }

  lemma StartInv()
    ensures Inv(Start())
  {
    forall i: nat, c: nat | i < 2 ensures ChanOk(i, InitMux(i), [], 0, c) {
    }
    FreshCounters();
  }

  /** A run: worlds joined by enabled steps, from two endpoints just created. */
  ghost predicate Run(ws: seq<World>, steps: seq<Step>) {
    && |ws| == |steps| + 1
    && ws[0] == Start()
    && (forall k :: 0 <= k < |ws| ==> Shaped(ws[k]))
    && (forall k :: 0 <= k < |steps| ==> Enabled(ws[k], steps[k]) && ws[k + 1] == Next(ws[k], steps[k]))
  }

  lemma {:induction false} RunKeepsInv(ws: seq<World>, steps: seq<Step>)
    requires Run(ws, steps) && Budget(ws[|steps|])
    ensures Inv(ws[|steps|])
  {
    if |steps| == 0 {
      StartInv();
    } else {
      var k := |steps| - 1;
      assert Shaped(ws[k]) && Enabled(ws[k], steps[k]) && ws[k + 1] == Next(ws[k], steps[k]);
      StepExtends(ws[k], steps[k]);
      var i := steps[k].at;
      BudgetShrinks(ws[k].peer[i].out, ws[k + 1].peer[i].out);
      BudgetShrinks(ws[k].peer[1 - i].out, ws[k + 1].peer[1 - i].out);
      RunKeepsInv(ws[..|steps|], steps[..k]);
      StepKeepsInv(ws[k], steps[k]);
    }
  }

  /** However the two users' calls and the deliveries interleave, the only
      delivery that breaks a protocol assert is that of a refused open, and it
      always does. */
  lemma ProtocolSafety(ws: seq<World>, steps: seq<Step>, i: nat, size: int)
    requires Run(ws, steps) && Budget(ws[|steps|])
    requires i < 2 && InFlight(ws[|steps|], i)
    ensures AssertsHold(ws[|steps|].peer[i], NextPacket(ws[|steps|], i), size)
       <==> !IsRefusal(NextPacket(ws[|steps|], i))
  {
    RunKeepsInv(ws, steps);
    DeliverySafe(ws[|steps|], i, size);
  }

  /** A step writes at most one packet, and a refusal only on a negative
      answer of the user's. */
  lemma NoNewRefusal(w: World, s: Step, k: nat)
    requires Shaped(w) && Enabled(w, s) && (s.Deliver? ==> s.size >= 0)
    requires |w.peer[s.at].out| <= k < |Endpoint(w, s).out|
    ensures !IsRefusal(Endpoint(w, s).out[k])
  {
    hide BumpSend, BumpPeer, StampFor, IdAfter, AssertsHold;
  }

  /** If the users accept every open they are asked about, no refusal is ever
      written, so no delivery ever breaks an assert. */
  lemma {:induction false} AcceptingRunHasNoRefusal(ws: seq<World>, steps: seq<Step>, i: nat, k: nat)
    requires Run(ws, steps) && i < 2
    requires forall l :: 0 <= l < |steps| && steps[l].Deliver? ==> steps[l].size >= 0
    requires k < |ws[|steps|].peer[i].out|
    ensures !IsRefusal(ws[|steps|].peer[i].out[k])
  {
    hide Endpoint, AssertsHold;
    if |steps| > 0 {
      var l := |steps| - 1;
      assert Shaped(ws[l]) && Enabled(ws[l], steps[l]) && ws[l + 1] == Next(ws[l], steps[l]);
      if k < |ws[l].peer[i].out| {
        StepExtends(ws[l], steps[l]);
        AcceptingRunHasNoRefusal(ws[..|steps|], steps[..l], i, k);
      } else {
        NoNewRefusal(ws[l], steps[l], k);
      }
    }
  }

  /** What a listener was handed is an in-order, gap-free, duplicate-free start
      of what the peer sent on that channel, and everything delivered so far
      while the channel is live; no listener ever hears of an error. */
  lemma DeliveredDataIsAPrefix(ws: seq<World>, steps: seq<Step>, i: nat, c: nat)
    requires Run(ws, steps) && Budget(ws[|steps|]) && i < 2
    ensures var m, plog := ws[|steps|].peer[i], ws[|steps|].peer[1 - i].out;
      && Handed(m.events, c) <= Payloads(plog, |plog|, c)
      && (c in m.chans ==> Handed(m.events, c) == Payloads(plog, ws[|steps|].got[i], c))
      && Errored(c) !in m.events
  {
    RunKeepsInv(ws, steps);
    var w := ws[|steps|];
    assert ChanOk(i, w.peer[i], w.peer[1 - i].out, w.got[i], c);
    PayloadsGrow(w.peer[1 - i].out, w.got[i], |w.peer[1 - i].out|, c);
  }

  lemma {:induction false} PayloadsGrow(log: seq<Packet>, n: nat, n': nat, c: nat)
    requires n <= n' <= |log|
    ensures Payloads(log, n, c) <= Payloads(log, n', c)
    decreases n'
  {
    if n < n' {
      PayloadsGrow(log, n, n' - 1, c);
    }
  }

  // ------------------------------------------------------------------
  // Deliveries run out, and then the two tables agree.

  /** Only a request or data can make the receiver write, and then one packet
      that provokes nothing further. */
  function Weight(p: Packet): nat {
    if p.body.OpenChan? || p.body.Data? then 2 else 1
  }

  ghost function Load(log: seq<Packet>, n: nat): (r: nat)
    requires n <= |log|
    decreases |log| - n
  {
    if n == |log| then 0 else Weight(log[n]) + Load(log, n + 1)
  }

  ghost function Pending(w: World): nat
    requires Shaped(w)
  {
    Load(w.peer[1].out, w.got[0]) + Load(w.peer[0].out, w.got[1])
  }

  lemma {:induction false} LoadAppend(log: seq<Packet>, p: Packet, n: nat)
    requires n <= |log|
    ensures Load(log + [p], n) == Load(log, n) + Weight(p)
    decreases |log| - n
  {
    var log' := log + [p];
    if n < |log| {
      LoadAppend(log, p, n + 1);
    } else {
      assert Load(log', n) == Weight(log'[n]) + Load(log', n + 1);
    }
  }

  /** What handling a packet writes is lighter than the packet. */
  lemma HandlingWritesLittle(m: MuxView, p: Packet, size: int)
    requires p.chan == 0 ==> p.body.OpenChan? || p.body.OpenReply?
    requires p.chan != 0 ==> p.body.Data? || p.body.CloseChan? || p.body.Nak?
    requires m.control.valid
    ensures var out := Handle(m, p, size).out;
      || out == m.out
      || (|out| == |m.out| + 1 && out == m.out + [out[|m.out|]] && Weight(out[|m.out|]) < Weight(p))
  {
    hide BumpSend, BumpPeer, StampFor, IdAfter;
    if p.chan != 0 || p.body.OpenReply? {
    } else {
      var m1 := m.(control := m.control.(peerSeq := BumpPeer(m.control.peerSeq)));
      assert Handle(m, p, size) == AnswerOpen(m1, p.stamp, size);
    }
  }

  /** Each delivery lowers the weight in flight. */
  lemma DeliveryLightens(w: World, i: nat, size: int)
    requires Inv(w) && Enabled(w, Deliver(i, size))
    ensures Pending(Next(w, Deliver(i, size))) < Pending(w)
  {
    hide Handle, AssertsHold, RequestsOk, ChanOk, CountOn;
    var m, pm, n, pn := w.peer[i], w.peer[1 - i], w.got[i], w.got[1 - i];
    var p, m' := pm.out[n], Handle(w.peer[i], pm.out[n], size);
    assert EntryOk(1 - i, pm.out, n, m.out, pn);
    assert Load(pm.out, n) == Weight(p) + Load(pm.out, n + 1);
    HandlingWritesLittle(m, p, size);
    if m'.out != m.out {
      LoadAppend(m.out, m'.out[|m.out|], pn);
    }
  }

  ghost predicate DeliveriesOnly(ws: seq<World>, steps: seq<Step>) {
    && |ws| == |steps| + 1
    && (forall k :: 0 <= k < |ws| ==> Shaped(ws[k]))
    && (forall k :: 0 <= k < |steps| ==>
          steps[k].Deliver? && Enabled(ws[k], steps[k]) && ws[k + 1] == Next(ws[k], steps[k]))
  }

  /** A delivery writes nothing, a nak or a reply. */
  lemma HandlingWritesControl(m: MuxView, p: Packet, size: int)
    requires p.chan == 0 ==> p.body.OpenChan? || p.body.OpenReply?
    requires p.chan != 0 ==> p.body.Data? || p.body.CloseChan? || p.body.Nak?
    ensures var out := Handle(m, p, size).out;
      || out == m.out
      || (|out| == |m.out| + 1 && out == m.out + [out[|m.out|]]
          && (out[|m.out|].body.Nak? || (out[|m.out|].chan == 0 && out[|m.out|].body.OpenReply?)))
  {
    hide BumpSend, BumpPeer, StampFor, IdAfter;
    if p.chan == 0 && p.body.OpenChan? {
      var m1 := m.(control := m.control.(peerSeq := BumpPeer(m.control.peerSeq)));
      assert Routed(m, p) ==> Handle(m, p, size) == AnswerOpen(m1, p.stamp, size);
    }
  }

  /** Deliveries need no budget of their own: they open nothing, number no data
      packet, and a reply is the answer to one open. */
  lemma DeliveryInBudget(w: World, i: nat, size: int)
    requires Inv(w) && Budget(w) && Enabled(w, Deliver(i, size))
    ensures Inv(Next(w, Deliver(i, size))) && Budget(Next(w, Deliver(i, size)))
  {
    hide Handle, AssertsHold, ChanOk, CountOn, Opens, Replies, LogOk, StateOk, RequestsOk;
    var s, m, pm, n, pn := Deliver(i, size), w.peer[i], w.peer[1 - i], w.got[i], w.got[1 - i];
    var p, m' := pm.out[n], Handle(w.peer[i], pm.out[n], size);
    StepExtends(w, s);
    DeliverKeeps(w, i, size);
    HalfStable(1 - i, pm, m.out, m'.out, pn);
    WellRouted(w, i);
    HandlingWritesControl(m, p, size);
    if m'.out != m.out {
      ControlAddsLittle(i, m, m', pm.out, n + 1, m'.out[|m.out|]);
    }
  }

  lemma WellRouted(w: World, i: nat)
    requires Inv(w) && i < 2 && InFlight(w, i)
    ensures var p := NextPacket(w, i);
      && (p.chan == 0 ==> p.body.OpenChan? || p.body.OpenReply?)
      && (p.chan != 0 ==> p.body.Data? || p.body.CloseChan? || p.body.Nak?)
  {
    assert EntryOk(1 - i, w.peer[1 - i].out, w.got[i], w.peer[i].out, w.got[1 - i]);
  }

  lemma ControlAddsLittle(i: nat, m: MuxView, m': MuxView, plog: seq<Packet>, n: nat, q: Packet)
    requires Half(i, m', plog, n) && InBudget(m.out) && InBudget(plog) && m'.out == m.out + [q]
    requires q.body.Nak? || (q.chan == 0 && q.body.OpenReply?)
    ensures InBudget(m'.out)
  {
    var log, log' := m.out, m'.out;
    assert log'[..|log|] == log;
    PrefixStable(log, log', |log|, 0);
    ControlTraffic(i, log', plog, n, |log'|);
    CountsGrow(plog, n, |plog|);
    forall c ensures CountOn(log', |log'|, c) <= TWO32 {
      PrefixStable(log, log', |log|, c);
    }
  }

  /** From any state of a run the deliveries come to an end. */
  lemma {:induction false} DeliveriesEnd(ws: seq<World>, steps: seq<Step>)
    requires DeliveriesOnly(ws, steps) && Inv(ws[0]) && Budget(ws[0])
    ensures |steps| <= Pending(ws[0])
    ensures Inv(ws[|steps|]) && Budget(ws[|steps|])
  {
    hide Inv, Budget;
    if |steps| > 0 {
      assert Enabled(ws[0], steps[0]) && ws[1] == Next(ws[0], steps[0]);
      DeliveryInBudget(ws[0], steps[0].at, steps[0].size);
      DeliveryLightens(ws[0], steps[0].at, steps[0].size);
      DeliveriesEnd(ws[1..], steps[1..]);
    }
  }

  ghost predicate NoRefusals(w: World)
    requires Shaped(w)
  {
    forall i, k :: 0 <= i < 2 && 0 <= k < |w.peer[i].out| ==> !IsRefusal(w.peer[i].out[k])
  }

  lemma AcceptingDelivery(w: World, i: nat)
    requires Inv(w) && Budget(w) && NoRefusals(w) && i < 2 && InFlight(w, i)
    ensures Enabled(w, Deliver(i, 0)) && NoRefusals(Next(w, Deliver(i, 0)))
  {
    hide Handle, AssertsHold, Inv, Budget;
    var s := Deliver(i, 0);
    InvShaped(w);
    assert !IsRefusal(w.peer[1 - i].out[w.got[i]]);
    DeliverySafe(w, i, 0);
    StepExtends(w, s);
    forall k | 0 <= k < |Endpoint(w, s).out| ensures !IsRefusal(Endpoint(w, s).out[k]) {
      if k < |w.peer[i].out| {
        assert Endpoint(w, s).out[k] == w.peer[i].out[k];
      } else {
        NoNewRefusal(w, s, k);
      }
    }
  }

  lemma InvShaped(w: World)
    requires Inv(w)
    ensures Shaped(w)
  {
  }

  /** Deliveries can go on until nothing is in flight. */
  lemma {:induction false} DeliverAll(w: World) returns (ws: seq<World>, steps: seq<Step>)
    requires Inv(w) && Budget(w) && NoRefusals(w)
    ensures DeliveriesOnly(ws, steps) && ws[0] == w
    ensures Inv(ws[|steps|]) && Budget(ws[|steps|]) && !InFlight(ws[|steps|], 0) && !InFlight(ws[|steps|], 1)
    decreases Pending(w)
  {
    hide Inv, Budget, NoRefusals, Handle, AssertsHold;
    InvShaped(w);
    if InFlight(w, 0) || InFlight(w, 1) {
      var i := if InFlight(w, 0) then 0 else 1;
      var s := Deliver(i, 0);
      AcceptingDelivery(w, i);
      StepExtends(w, s);
      DeliveryInBudget(w, i, 0);
      DeliveryLightens(w, i, 0);
      var vs, rest := DeliverAll(Next(w, s));
      ws, steps := [w] + vs, [s] + rest;
      OneMoreDelivery(w, s, vs, rest);
    } else {
      ws, steps := [w], [];
    }
  }

  lemma OneMoreDelivery(w: World, s: Step, vs: seq<World>, rest: seq<Step>)
    requires Shaped(w) && s.Deliver? && Enabled(w, s)
    requires DeliveriesOnly(vs, rest) && vs[0] == Next(w, s)
    ensures DeliveriesOnly([w] + vs, [s] + rest)
  {
    hide Enabled, Next;
    var ws, steps := [w] + vs, [s] + rest;
    forall k | 0 <= k < |steps|
      ensures steps[k].Deliver? && Enabled(ws[k], steps[k]) && ws[k + 1] == Next(ws[k], steps[k])
    {
      if k > 0 {
        assert ws[k] == vs[k - 1] && steps[k] == rest[k - 1] && ws[k + 1] == vs[k];
      }
    }
  }

  /** Whatever two accepting users have done, letting the links run dry leaves
      both endpoints with the same channels and nothing waiting. */
  lemma AcceptingRunsSettle(ws: seq<World>, steps: seq<Step>) returns (ws': seq<World>, steps': seq<Step>)
    requires Run(ws, steps) && Budget(ws[|steps|])
    requires forall l :: 0 <= l < |steps| && steps[l].Deliver? ==> steps[l].size >= 0
    ensures DeliveriesOnly(ws', steps') && ws'[0] == ws[|steps|]
    ensures |steps'| <= Pending(ws[|steps|])
    ensures var w := ws'[|steps'|];
      && !InFlight(w, 0) && !InFlight(w, 1)
      && w.peer[0].chans.Keys == w.peer[1].chans.Keys && w.peer[0].waiting == map[] == w.peer[1].waiting
  {
    hide Inv, Budget;
    var w := ws[|steps|];
    RunKeepsInv(ws, steps);
    forall i, k | 0 <= i < 2 && 0 <= k < |w.peer[i].out| ensures !IsRefusal(w.peer[i].out[k]) {
      AcceptingRunHasNoRefusal(ws, steps, i, k);
    }
    ws', steps' := DeliverAll(w);
    DeliveriesEnd(ws', steps');
    QuietWorldsAgree(ws'[|steps'|]);
  }

  /** With nothing in flight both endpoints have the same channels, whichever
      side closed and even if both did; every request has been answered; and on
      each channel either side waits for exactly the number the other will use. */
  lemma QuietWorldsAgree(w: World)
    requires Inv(w) && Budget(w) && !InFlight(w, 0) && !InFlight(w, 1)
    ensures w.peer[0].chans.Keys == w.peer[1].chans.Keys
    ensures w.peer[0].waiting == map[] && w.peer[1].waiting == map[]
    ensures forall i, c :: 0 <= i < 2 && c in w.peer[i].chans && CountOn(w.peer[i].out, |w.peer[i].out|, c) < TWO32 ==>
              StampFor(w.peer[i].chans[c].nextSeq) == w.peer[1 - i].chans[c].peerSeq
  {
    var a, b := w.peer[0], w.peer[1];
    forall c ensures c in a.chans <==> c in b.chans {
      assert ChanOk(0, a, b.out, |b.out|, c);
      assert ChanOk(1, b, a.out, |a.out|, c);
    }
    assert RequestsOk(a, b.out, |b.out|);
    assert RequestsOk(b, a.out, |a.out|);
    assert a.waiting.Keys == {} && b.waiting.Keys == {};
    forall i, c | 0 <= i < 2 && c in w.peer[i].chans && CountOn(w.peer[i].out, |w.peer[i].out|, c) < TWO32
      ensures StampFor(w.peer[i].chans[c].nextSeq) == w.peer[1 - i].chans[c].peerSeq
    {
      assert ChanOk(i, w.peer[i], w.peer[1 - i].out, w.got[i], c);
      assert ChanOk(1 - i, w.peer[1 - i], w.peer[i].out, w.got[1 - i], c);
      StampsAgree(CountOn(w.peer[i].out, |w.peer[i].out|, c));
    }
  }

  /** The search for the next identifier ends exactly when some identifier of the
      same parity, other than 0, is free. With every one in use it runs forever;
      the bound on opens is one below that point. */
  lemma SearchEndsIff(chans: set<nat>, id: nat)
    requires id < TWO32
    ensures SearchEnds(chans, id) <==> exists c: nat :: FreeLike(chans, id, c)
  {
    if SearchEnds(chans, id) {
      var k: nat :| SearchStopsAfter(chans, id, k);
      CandidateParity(id, k);
      assert FreeLike(chans, id, Candidate(id, k));
    }
    if exists c: nat :: FreeLike(chans, id, c) {
      var c: nat :| FreeLike(chans, id, c);
      var k := if id <= c then (c - id) / 2 else (c + TWO32 - id) / 2;
      assert Candidate(id, k) == c;
      assert SearchStopsAfter(chans, id, k);
    }
  }

  ghost predicate FreeLike(chans: set<nat>, id: nat, c: nat) {
    0 < c < TWO32 && c % 2 == id % 2 && c !in chans
  }

  lemma CandidateParity(id: nat, k: nat)
    ensures Candidate(id, k) < TWO32 && Candidate(id, k) % 2 == id % 2
  {
  }
}
