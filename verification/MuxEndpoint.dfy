/** The multiplexer's objects: a `Mux` with its control channel and its table
    of channels, each updated in place.  Every method is proved to do to the
    endpoint's view what `MuxSpec` says. */
module MuxEndpoint {
  import opened Wire
  import opened MuxSpec

  class Channel {
    const id: nat
    const size: nat
    var nextSeq: nat
    var peerSeq: nat
    var valid: bool

    function View(): ChannelView
      reads this
    {
      ChannelView(id, size, nextSeq, peerSeq, valid)
    }

    constructor (id: nat, size: nat)
      ensures View() == FreshChannel(id, size)
    {
      this.id, this.size := id, size;
      nextSeq, peerSeq, valid := FIRST_SEQ, FIRST_SEQ, true;
    }
  }

  class Mux {
    const side: nat
    const control: Channel
    var nextId: nat
    var chans: map<nat, Channel>
    var waiting: map<nat, bytes>
    /** What the transport was given, and the calls made into user code. */
    var out: seq<Packet>
    var events: seq<Event>

    ghost predicate Valid()
      reads this, control, chans.Values
    {
      && control.id == 0
      && 0 !in chans
      && nextId != 0
      && (forall c :: c in chans ==> chans[c].id == c && chans[c] != control)
    }

    ghost function View(): MuxView
      reads this, control, chans.Values
    {
      MuxView(side, control.View(), nextId, map c | c in chans :: chans[c].View(), waiting, out, events)
    }

    constructor (side: nat)
      ensures Valid() && fresh(control) && fresh(chans.Values)
      ensures View() == InitMux(side)
    {
      this.side := side;
      control := new Channel(0, 0);
      nextId := 4 + side % 2;
      chans, waiting := map[], map[];
      out, events := [], [];
    }

    method GetChannel(id: nat) returns (c: Channel?)
      requires Valid()
      ensures c == null <==> !HasChannel(View(), id)
      ensures c != null ==> c == (if id == 0 then control else chans[id]) && c.id == id
    {
      if id == 0 {
        c := control;
      } else if id in chans {
        c := chans[id];
      } else {
        c := null;
      }
    }

    /** Channel::Send, with the transport taking every packet. */
    method Send(c: Channel, body: Body) returns (ok: bool, stamp: nat)
      requires Valid() && HasChannel(View(), c.id) && c == if c.id == 0 then control else chans[c.id]
      modifies this`out, c
      ensures Valid() && View() == SendOn(old(View()), c.id, body)
      ensures ok == old(c.valid) && (ok ==> stamp == StampFor(old(c.nextSeq)))
      ensures !ok ==> View() == old(View())
      ensures unchanged(c`peerSeq) && unchanged(c`valid)
    {
      if !c.valid {
        return false, 0;
      }
      stamp := c.nextSeq;
      c.nextSeq := (c.nextSeq + 1) % TWO32;
      if stamp < FIRST_SEQ {
        stamp := FIRST_SEQ;
      }
      out := out + [Packet(c.id, stamp, body)];
      ok := true;
    }

    /** StreamChannel::Write. */
    method Write(id: nat, data: bytes) returns (ok: bool)
      requires Valid() && id in chans
      modifies this`out, chans[id]
      ensures Valid()
      ensures View() == if ok then SendAll(old(View()), id, Chunks(data)) else old(View())
      ensures ok == (old(chans[id].valid) || data == [])
    {
      var remain := data;
      ghost var all := SendAll(View(), id, Chunks(data));
      while remain != []
        invariant Valid() && chans[id].valid == old(chans[id].valid)
        invariant (remain == data && View() == old(View())) || chans[id].valid
        invariant SendAll(View(), id, Chunks(remain)) == all
        decreases |remain|
      {
        hide SendOn;
        var tocopy := Min(|remain|, MAX_PAYLOAD);
        var sent, stamp := Send(chans[id], Data(remain[..tocopy]));
        if !sent {
          return false;
        }
        assert Chunks(remain)[1..] == Chunks(remain[tocopy..]);
        remain := remain[tocopy..];
      }
      ok := true;
    }

    method Open(path: bytes) returns (request: nat)
      requires Valid() && |path| <= MAX_PATH
      modifies this, control
      ensures Valid() && chans == old(chans)
      ensures View() == OpenRequest(old(View()), path)
      ensures request == if old(control.valid) then StampFor(old(control.nextSeq)) else 0
    {
      var ok, stamp := Send(control, OpenChan(path));
      if !ok {
        return 0;
      }
      waiting := waiting[stamp := path];
      request := stamp;
    }

    /** A call into user code. */
    method Announce(e: Event)
      requires Valid()
      modifies this`events
      ensures Valid() && View() == (var v := old(View()); v.(events := v.events + [e]))
    {
      events := events + [e];
    }

    method DoCloseChannel(id: nat) returns (found: bool)
      requires Valid() && id != 0
      modifies this, chans.Values
      ensures Valid() && chans == old(chans) - {id}
      ensures View() == DropChannel(old(View()), id)
      ensures found == (id in old(chans))
    {
      var c := GetChannel(id);
      if c == null {
        assert chans - {id} == chans;
        return false;
      }
      events := events + [Closed(id)];
      c.valid := false;
      chans := chans - {id};
      found := true;
    }

    method DoErrorChannel(id: nat) returns (found: bool)
      requires Valid() && id != 0
      modifies this, chans.Values
      ensures Valid() && chans == old(chans) - {id}
      ensures View() == FailChannel(old(View()), id)
      ensures found == (id in old(chans))
    {
      var c := GetChannel(id);
      if c == null {
        assert chans - {id} == chans;
        return false;
      }
      events := events + [Errored(id)];
      c.valid := false;
      chans := chans - {id};
      found := true;
    }

    method ChannelAskClose(id: nat)
      requires Valid() && id in chans
      modifies this, chans.Values
      ensures Valid() && chans == old(chans) - {id}
      ensures View() == CloseRequest(old(View()), id)
    {
      var c := GetChannel(id);
      if c.valid {
        var ok, stamp := Send(c, CloseChan);
      }
      var found := DoCloseChannel(id);
      assert found;
    }

    method SendNak(chan: nat, stamp: nat)
      requires Valid()
      modifies this`out
      ensures Valid() && out == old(out) + [Packet(chan, stamp, Nak)]
    {
      out := out + [Packet(chan, stamp, Nak)];
    }

    /** A channel object enters the table. */
    method AddChannel(id: nat, size: nat)
      requires Valid() && id != 0
      modifies this`chans
      ensures Valid() && chans.Keys == old(chans.Keys) + {id} && fresh(chans.Values - old(chans.Values))
      ensures View() == (var v := old(View()); v.(chans := v.chans[id := FreshChannel(id, size)]))
    {
      var c := new Channel(id, size);
      chans := chans[id := c];
    }

    /** The loop that moves mNextChanId past identifiers in use. */
    method MoveNextId()
      requires Valid() && SearchEnds(chans.Keys, (nextId + 2) % TWO32)
      modifies this`nextId
      ensures Valid() && nextId !in chans
      ensures nextId == NextFree(chans.Keys, (old(nextId) + 2) % TWO32, TWO31)
    {
      var next := (nextId + 2) % TWO32;
      ghost var start := next;
      hide Candidate;
      ghost var stop: nat :| SearchStopsAfter(chans.Keys, start, stop);
      CandidateStep(start, 0);
      ghost var k: nat, tries: nat := 0, TWO31;
      while next == 0 || next in chans
        invariant k + tries == TWO31 && k <= stop && next == Candidate(start, k)
        invariant NextFree(chans.Keys, next, tries) == NextFree(chans.Keys, start, TWO31)
        decreases stop - k
      {
        CandidateStep(start, k);
        next := (next + 2) % TWO32;
        k, tries := k + 1, tries - 1;
      }
      nextId := next;
    }

    /** Mux::OnReceive for an open request. */
    method ReceiveOpen(request: nat, size: int)
      requires Valid()
      requires size >= 0 ==> SearchEnds(chans.Keys + {nextId}, (nextId + 2) % TWO32)
      modifies this, control
      ensures Valid() && fresh(chans.Values - old(chans.Values))
      ensures View() == AnswerOpen(old(View()), request, size)
    {
      hide NextFree, SendOn, SearchEnds;
      if size < 0 {
        var ok, stamp := Send(control, OpenReply(request, 1, 0, 0));
        return;
      }
      var id := nextId;
      ghost var v := View();
      assert v.chans.Keys == chans.Keys;
      AddChannel(id, size);
      MoveNextId();
      assert nextId == IdAfter(v.chans.Keys, id);
      assert View() == v.(chans := v.chans[id := FreshChannel(id, size)], nextId := IdAfter(v.chans.Keys, id));
      var ok, stamp := Send(control, OpenReply(request, 0, size, id));
      Announce(Opened(request, 0, id, false));
    }

    /** Mux::OnReceive for a reply. */
    method ReceiveReply(r: Body)
      requires Valid() && r.OpenReply? && ReplyAsserts(View(), r)
      modifies this
      ensures Valid() && fresh(chans.Values - old(chans.Values))
      ensures View() == TakeReply(old(View()), r)
    {
      ghost var v := View();
      waiting := waiting - {r.reqSeq};
      assert View() == v.(waiting := v.waiting - {r.reqSeq});
      if r.errno != 0 {
        Announce(Opened(r.reqSeq, r.errno, 0, true));
        return;
      }
      AddChannel(r.dataChan, r.dataSize);
      Announce(Opened(r.reqSeq, 0, r.dataChan, true));
    }

    /** Channel::HandleIncomingPacket up to the call of the listener. */
    method Advance(c: Channel)
      requires Valid() && HasChannel(View(), c.id) && c == if c.id == 0 then control else chans[c.id]
      modifies c`peerSeq
      ensures Valid()
      ensures View() == WithChannel(old(View()), c.id, old(c.View()).(peerSeq := BumpPeer(old(c.peerSeq))))
    {
      c.peerSeq := (c.peerSeq + 1) % TWO32;
      if c.peerSeq < FIRST_SEQ {
        c.peerSeq := FIRST_SEQ;
      }
    }

    /** The control channel's listener is the multiplexer itself. */
    method OnReceive(p: Packet, size: int)
      requires Valid() && p.chan == 0
      requires p.body.OpenReply? ==> ReplyAsserts(View(), p.body)
      requires p.body.OpenChan? && size >= 0 ==> SearchEnds(chans.Keys + {nextId}, (nextId + 2) % TWO32)
      modifies this, control
      ensures Valid() && fresh(chans.Values - old(chans.Values))
      ensures View() == (if p.body.OpenChan? then AnswerOpen(old(View()), p.stamp, size)
                         else if p.body.OpenReply? then TakeReply(old(View()), p.body)
                         else old(View()))
    {
      if p.body.OpenChan? {
        ReceiveOpen(p.stamp, size);
      } else if p.body.OpenReply? {
        ReceiveReply(p.body);
      }
    }

    /** Mux::HandleIncomingPacket. */
    method HandleIncomingPacket(p: Packet, size: int)
      requires Valid() && AssertsHold(View(), p, size)
      modifies this, control, chans.Values
      ensures Valid() && fresh(chans.Values - old(chans.Values))
      ensures View() == Handle(old(View()), p, size)
    {
      hide AnswerOpen, TakeReply, IdAfter, NextFree, SendOn, BumpPeer, SearchEnds;
      if p.body.CloseChan? {
        var found := DoCloseChannel(p.chan);
      } else if p.body.Nak? {
        var found := DoErrorChannel(p.chan);
      } else {
        var c := GetChannel(p.chan);
        if c == null || !c.valid {
          SendNak(p.chan, p.stamp);
          return;
        }
        assert p.chan == c.id && p.stamp == c.peerSeq;
        assert View().chans.Keys == chans.Keys;
        Advance(c);
        if p.chan == 0 {
          OnReceive(p, size);
        } else {
          Announce(Received(p.chan, p.body));
        }
      }
    }
  }
}
