/** What each entry point of the channel multiplexer does to one endpoint, as
    functions on values.  `MuxEndpoint` holds the objects that compute them and
    `MuxProtocol` the runs of two endpoints. */
module MuxSpec {
  import opened Wire

  const FIRST_SEQ: nat := 1
  const MAX_PACKET: nat := 4096
  const HEADER: nat := 16
  /** Room for a payload after the header and the 4-byte payload length. */
  const MAX_PAYLOAD: nat := MAX_PACKET - HEADER - 4
  /** The declared limit of a path in an open packet: the room after the header
      and the 4-byte path length. */
  const MAX_PATH_LEN: nat := MAX_PACKET - HEADER - 4
  /** The limit that holds, since the final NUL needs room too. */
  const MAX_PATH: nat := MAX_PATH_LEN - 1

  datatype Body =
    | Hello
    | Nak
    | OpenChan(path: bytes)
    | OpenReply(reqSeq: nat, errno: nat, dataSize: nat, dataChan: nat)
    | CloseChan
    | Data(payload: bytes)

  datatype Packet = Packet(chan: nat, stamp: nat, body: Body)

  /** A call back into user code, in the order the endpoint makes them. */
  datatype Event =
    | Opened(request: nat, errno: nat, chan: nat, fromPeer: bool)
    | Received(chan: nat, body: Body)
    | Closed(chan: nat)
    | Errored(chan: nat)

  datatype ChannelView = ChannelView(id: nat, size: nat, nextSeq: nat, peerSeq: nat, valid: bool)

  datatype MuxView = MuxView(
    side: nat,
    control: ChannelView,
    nextId: nat,
    chans: map<nat, ChannelView>,
    waiting: map<nat, bytes>,
    out: seq<Packet>,
    events: seq<Event>)

  function FreshChannel(id: nat, size: nat): ChannelView {
    ChannelView(id, size, FIRST_SEQ, FIRST_SEQ, true)
  }

  function InitMux(side: nat): MuxView {
    MuxView(side, FreshChannel(0, 0), 4 + side % 2, map[], map[], [], [])
  }

  predicate HasChannel(m: MuxView, id: nat) {
    id == 0 || id in m.chans
  }

  function Channel(m: MuxView, id: nat): ChannelView
    requires HasChannel(m, id)
  {
    if id == 0 then m.control else m.chans[id]
  }

  function WithChannel(m: MuxView, id: nat, c: ChannelView): MuxView {
    if id == 0 then m.(control := c) else m.(chans := m.chans[id := c])
  }

  /** The number put on an outgoing packet: the counter, except that a wrapped
      counter is replaced on the packet only. */
  function StampFor(counter: nat): nat {
    if counter < FIRST_SEQ then FIRST_SEQ else counter
  }

  function BumpSend(counter: nat): nat {
    (counter + 1) % TWO32
  }

  /** The receiver clamps the counter itself. */
  function BumpPeer(counter: nat): nat {
    var c := (counter + 1) % TWO32;
    if c < FIRST_SEQ then FIRST_SEQ else c
  }

  /** Channel::Send on a transport that takes every packet. */
  function SendOn(m: MuxView, id: nat, body: Body): MuxView
    requires HasChannel(m, id)
  {
    var c := Channel(m, id);
    if !c.valid then m
    else
      WithChannel(m, id, c.(nextSeq := BumpSend(c.nextSeq)))
      .(out := m.out + [Packet(id, StampFor(c.nextSeq), body)])
  }

  /** Mux::Open. */
  function OpenRequest(m: MuxView, path: bytes): MuxView {
    var m' := SendOn(m, 0, OpenChan(path));
    if m.control.valid then m'.(waiting := m'.waiting[StampFor(m.control.nextSeq) := path]) else m'
  }

  /** Mux::DoCloseChannel on a table entry. */
  function DropChannel(m: MuxView, id: nat): MuxView {
    if id in m.chans then m.(chans := m.chans - {id}, events := m.events + [Closed(id)]) else m
  }

  /** Mux::DoErrorChannel on a table entry. */
  function FailChannel(m: MuxView, id: nat): MuxView {
    if id in m.chans then m.(chans := m.chans - {id}, events := m.events + [Errored(id)]) else m
  }

  /** Mux::ChannelAskClose. */
  function CloseRequest(m: MuxView, id: nat): MuxView
    requires id in m.chans
  {
    DropChannel(SendOn(m, id, CloseChan), id)
  }

  /** Mux::SendNak: the nak repeats the number of the packet it refuses and
      takes none of the channel's own. */
  function NakFor(m: MuxView, p: Packet): MuxView {
    m.(out := m.out + [Packet(p.chan, p.stamp, Nak)])
  }

  /** The search for the next identifier, cut after `tries` steps. */
  function NextFree(chans: set<nat>, id: nat, tries: nat): (r: nat)
    decreases tries
  {
    if tries == 0 || (id != 0 && id !in chans) then id
    else NextFree(chans, (id + 2) % TWO32, tries - 1)
  }

  /** Some identifier the search can stop at: without one it runs forever. */
  ghost predicate SearchEnds(chans: set<nat>, id: nat) {
    exists k: nat :: SearchStopsAfter(chans, id, k)
  }

  ghost predicate SearchStopsAfter(chans: set<nat>, id: nat, k: nat) {
    k < TWO31 && Candidate(id, k) != 0 && Candidate(id, k) !in chans
  }

  /** The identifier the search looks at after k steps. */
  function Candidate(id: nat, k: nat): nat {
    (id + 2 * k) % TWO32
  }

  lemma CandidateStep(id: nat, k: nat)
    ensures (Candidate(id, k) + 2) % TWO32 == Candidate(id, k + 1)
    ensures id < TWO32 ==> Candidate(id, 0) == id
  {
    hide Candidate;
    TwoFurther(id + 2 * k);
    FirstCandidate(id, k);
  }

  lemma FirstCandidate(id: nat, k: nat)
    ensures Candidate(id, k) == (id + 2 * k) % TWO32 && Candidate(id, k + 1) == (id + 2 * k + 2) % TWO32
    ensures id < TWO32 ==> Candidate(id, 0) == id
  {
  }

  lemma TwoFurther(x: nat)
    ensures (x % TWO32 + 2) % TWO32 == (x + 2) % TWO32
  {
  }

  /** The identifier Mux::OnReceive moves on to after handing out `nextId`. */
  function IdAfter(chans: set<nat>, nextId: nat): nat {
    NextFree(chans + {nextId}, (nextId + 2) % TWO32, TWO31)
  }

  /** An open request reaching the endpoint; `size` is what the user's
      OnCheckDataSize answers for the path. */
  function AnswerOpen(m: MuxView, request: nat, size: int): MuxView {
    if size < 0 then SendOn(m, 0, OpenReply(request, 1, 0, 0))
    else
      var id := m.nextId;
      var m1 := m.(chans := m.chans[id := FreshChannel(id, size)], nextId := IdAfter(m.chans.Keys, id));
      var m2 := SendOn(m1, 0, OpenReply(request, 0, size, id));
      m2.(events := m2.events + [Opened(request, 0, id, false)])
  }

  /** A reply reaching the endpoint that asked. */
  function TakeReply(m: MuxView, r: Body): MuxView
    requires r.OpenReply?
  {
    var m1 := m.(waiting := m.waiting - {r.reqSeq});
    if r.errno != 0 then m1.(events := m1.events + [Opened(r.reqSeq, r.errno, 0, true)])
    else m1.(chans := m1.chans[r.dataChan := FreshChannel(r.dataChan, r.dataSize)],
             events := m1.events + [Opened(r.reqSeq, 0, r.dataChan, true)])
  }

  /** The asserts of Mux::OnReceive for a reply. */
  predicate ReplyAsserts(m: MuxView, r: Body)
    requires r.OpenReply?
  {
    && !HasChannel(m, r.dataChan)
    && r.dataChan % 2 != m.side % 2
    && r.reqSeq in m.waiting
  }

  /** The packet goes to a channel of this endpoint that is still valid. */
  predicate Routed(m: MuxView, p: Packet) {
    HasChannel(m, p.chan) && Channel(m, p.chan).valid
  }

  /** Every assert on the way of an incoming packet, and no `delete` of the
      control channel, which is not a heap object. */
  ghost predicate AssertsHold(m: MuxView, p: Packet, size: int) {
    if p.body.CloseChan? || p.body.Nak? then p.chan != 0
    else if !Routed(m, p) then true
    else
      && p.stamp == Channel(m, p.chan).peerSeq
      && (p.chan != 0 && m.chans[p.chan].size == 0 ==> p.body.Data?)
      && (p.chan == 0 && p.body.OpenReply? ==> ReplyAsserts(m, p.body))
      && (p.chan == 0 && p.body.OpenChan? && size >= 0 ==>
            SearchEnds(m.chans.Keys + {m.nextId}, (m.nextId + 2) % TWO32))
  }

  /** Mux::HandleIncomingPacket. */
  function Handle(m: MuxView, p: Packet, size: int): MuxView {
    if p.body.CloseChan? then DropChannel(m, p.chan)
    else if p.body.Nak? then FailChannel(m, p.chan)
    else if !Routed(m, p) then NakFor(m, p)
    else
      var c := Channel(m, p.chan);
      var m1 := WithChannel(m, p.chan, c.(peerSeq := BumpPeer(c.peerSeq)));
      if p.chan != 0 then m1.(events := m1.events + [Received(p.chan, p.body)])
      else if p.body.OpenChan? then AnswerOpen(m1, p.stamp, size)
      else if p.body.OpenReply? then TakeReply(m1, p.body)
      else m1
  }

  function Min(a: int, b: int): int {
    if a < b then a else b
  }

  function Max(a: int, b: int): int {
    if a < b then b else a
  }

  /** StreamChannel::Write cuts its data into payloads. */
  function Chunks(data: bytes): (cs: seq<bytes>) {
    if data == [] then []
    else
      var n := Min(|data|, MAX_PAYLOAD);
      [data[..n]] + Chunks(data[n..])
  }

  /** Sending a list of payloads on one channel. */
  function SendAll(m: MuxView, id: nat, payloads: seq<bytes>): MuxView
    requires id in m.chans
    decreases |payloads|
  {
    if payloads == [] then m else SendAll(SendOn(m, id, Data(payloads[0])), id, payloads[1..])
  }
}
