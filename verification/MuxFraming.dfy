/** Packets as bytes: the layouts of mux.h, the cutting of a byte stream into
    data packets, and the reassembly of packets from what a transport hands
    over. */
module MuxFraming {
  import opened Wire
  import opened MuxSpec

  // ------------------------------------------------------------------
  // Layouts.

  function CommandOf(b: Body): nat {
    match b
    case Hello => 0
    case Nak => 2
    case OpenChan(_) => 3
    case OpenReply(_, _, _, _) => 4
    case CloseChan => 5
    case Data(_) => 6
  }

  function Tail(b: Body): bytes {
    match b
    case OpenChan(path) => Put(4, |path|) + path + [0]
    case OpenReply(reqSeq, errno, size, chan) => Put(4, reqSeq) + Put(4, errno) + Put(4, size) + Put(4, chan)
    case Data(payload) => Put(4, |payload|) + payload
    case _ => []
  }

  function Encode(p: Packet): (s: bytes)
    ensures |s| == HEADER + |Tail(p.body)|
  {
    Put(4, HEADER + |Tail(p.body)|) + Put(4, p.chan) + Put(4, p.stamp) + Put(4, CommandOf(p.body)) + Tail(p.body)
  }

  datatype Parsed = Bad | Parsed(packet: Packet)

  /** The reading of a whole frame through the packet structs, with the size
      asserts of the receiving code. */
  function Decode(s: bytes): Parsed {
    if |s| < HEADER || Field(s, 0) != |s| then Bad
    else
      var chan, stamp, cmd := Field(s, 4), Field(s, 8), Field(s, 12);
      if cmd == 0 && |s| == HEADER then Parsed(Packet(chan, stamp, Hello))
      else if cmd == 2 && |s| == HEADER then Parsed(Packet(chan, stamp, Nak))
      else if cmd == 5 && |s| == HEADER then Parsed(Packet(chan, stamp, CloseChan))
      else if cmd == 3 && |s| > 20 && Field(s, 16) + 21 == |s| && s[|s| - 1] == 0 then
        Parsed(Packet(chan, stamp, OpenChan(s[20..|s| - 1])))
      else if cmd == 4 && |s| == 32 then
        Parsed(Packet(chan, stamp, OpenReply(Field(s, 16), Field(s, 20), Field(s, 24), Field(s, 28))))
      else if cmd == 6 && |s| >= 20 && Field(s, 16) + 20 == |s| then
        Parsed(Packet(chan, stamp, Data(s[20..])))
      else Bad
  }

  /** Every field is a 32-bit number and the packet is no longer than the limit. */
  predicate Fits(p: Packet) {
    && p.chan < TWO32 && p.stamp < TWO32
    && HEADER + |Tail(p.body)| <= MAX_PACKET
    && (p.body.OpenReply? ==>
          p.body.reqSeq < TWO32 && p.body.errno < TWO32 && p.body.dataSize < TWO32 && p.body.dataChan < TWO32)
  }

  lemma HeaderFields(p: Packet)
    requires Fits(p)
    ensures var s := Encode(p);
      && Field(s, 0) == |s| && Field(s, 4) == p.chan && Field(s, 8) == p.stamp
      && Field(s, 12) == CommandOf(p.body) && s[HEADER..] == Tail(p.body)
  {
    hide Put, Get, Field, Tail;
    var s, t := Encode(p), Tail(p.body);
    assert s[0..16] == Put(4, |s|) + Put(4, p.chan) + Put(4, p.stamp) + Put(4, CommandOf(p.body));
    FourFields(s, 0, |s|, p.chan, p.stamp, CommandOf(p.body));
  }

  /** The 4-byte length that opens the body of an open or a data packet. */
  lemma LengthField(s: bytes, n: nat, rest: bytes)
    requires |s| >= HEADER && s[HEADER..] == Put(4, n) + rest && n < TWO32
    ensures Field(s, HEADER) == n && s[HEADER + 4..] == rest
  {
    hide Put, Get, Field;
    FieldOf(s[..HEADER], n, rest);
    assert s == s[..HEADER] + Put(4, n) + rest;
  }

  /** What one side writes the other reads back. */
  lemma DecodeEncode(p: Packet)
    requires Fits(p)
    ensures Decode(Encode(p)) == Parsed(p)
  {
    hide Put, Get, Field, Encode;
    var s := Encode(p);
    HeaderFields(p);
    match p.body
    case OpenChan(path) =>
      assert Tail(p.body) == Put(4, |path|) + (path + [0]);
      LengthField(s, |path|, path + [0]);
      assert s[20..][..|path|] == path && s[20..][|path|] == 0;
    case OpenReply(q, e, z, c) =>
      assert s[16..32] == s[HEADER..];
      FourFields(s, 16, q, e, z, c);
    case Data(payload) =>
      LengthField(s, |payload|, payload);
    case _ =>
  }

  /** The two asserts on an open packet being made: the declared limit, and the
      packet size. */
  predicate OpenAsserts(stamp: nat, path: bytes) {
    |path| <= MAX_PATH_LEN && |Encode(Packet(0, stamp, OpenChan(path)))| <= MAX_PACKET
  }

  /** They hold together exactly up to one byte below the declared limit; at that
      limit the packet is one byte too long. */
  lemma LongestPath(stamp: nat, path: bytes)
    ensures OpenAsserts(stamp, path) <==> |path| <= MAX_PATH
    ensures |path| == MAX_PATH_LEN ==> |Encode(Packet(0, stamp, OpenChan(path)))| == MAX_PACKET + 1
  {
    assert |Tail(OpenChan(path))| == 4 + |path| + 1;
  }

  // ------------------------------------------------------------------
  // Reassembly.

  /** A call of ReceiveRaw returns, saying whether it took every byte, or hands
      on a packet of which only a part has arrived and then moves memory by a
      negative amount. */
  datatype Verdict = Returned(all: bool) | Overrun

  datatype Feed = Feed(buffer: bytes, handled: seq<bytes>, verdict: Verdict)

  /** How much of the data one turn of the loop copies. */
  function Copied(buffer: bytes, data: bytes): (n: nat)
    requires |buffer| <= MAX_PACKET
    ensures n <= |data| && |buffer| + n <= MAX_PACKET
  {
    var room := Min(|data|, MAX_PACKET - |buffer|);
    if buffer == [] && |data| >= HEADER then Min(room, Field(data, 0))
    else if |buffer| >= HEADER then Min(room, Max(0, Field(buffer, 0) - |buffer|))
    else room
  }

  /** ReceiveRaw on a buffer holding `buffer`. */
  function Receive(buffer: bytes, data: bytes): (f: Feed)
    requires |buffer| <= MAX_PACKET
    ensures |f.buffer| <= MAX_PACKET
    decreases |data| + |buffer|
  {
    if data == [] then Feed(buffer, [], Returned(true))
    else
      var n := Copied(buffer, data);
      var b, rest := buffer + data[..n], data[n..];
      if |b| < HEADER then Feed(b, [], Returned(rest == []))
      else if Field(b, 0) > MAX_PACKET then Feed(b, [], Returned(false))
      else if Field(b, 0) < |b| then Feed(b, [], Returned(rest == []))
      else if Field(b, 0) > |b| then Feed(b, [], Overrun)
      else
        var f := Receive([], rest);
        Feed(f.buffer, [b] + f.handled, f.verdict)
  }

  lemma NothingMore(buffer: bytes)
    requires |buffer| <= MAX_PACKET
    ensures Receive(buffer, []) == Feed(buffer, [], Returned(true))
  {
  }

  /** One turn of the loop, from the bytes it has put together. */
  lemma Turn(buffer: bytes, data: bytes, b: bytes, rest: bytes)
    requires |buffer| <= MAX_PACKET && data != []
    requires b == buffer + data[..Copied(buffer, data)] && rest == data[Copied(buffer, data)..]
    ensures Receive(buffer, data) ==
      if |b| < HEADER then Feed(b, [], Returned(rest == []))
      else if Field(b, 0) > MAX_PACKET then Feed(b, [], Returned(false))
      else if Field(b, 0) < |b| then Feed(b, [], Returned(rest == []))
      else if Field(b, 0) > |b| then Feed(b, [], Overrun)
      else Feed(Receive([], rest).buffer, [b] + Receive([], rest).handled, Receive([], rest).verdict)
    ensures |b| + |rest| == |buffer| + |data|
  {
    hide Field;
  }

  predicate Frame(f: bytes) {
    HEADER <= |f| <= MAX_PACKET && Field(f, 0) == |f|
  }

  function Flat<T>(parts: seq<seq<T>>): seq<T> {
    if parts == [] then [] else parts[0] + Flat(parts[1..])
  }

  predicate AllFrames(frames: seq<bytes>) {
    forall k :: 0 <= k < |frames| ==> Frame(frames[k])
  }

  /** The call took everything, handled it and kept nothing back. */
  predicate Clean(f: Feed) {
    f.buffer == [] && f.verdict == Returned(true)
  }

  /** The size of a frame is read off its first bytes. */
  lemma SizeOfPrefix(f: bytes, more: bytes)
    requires |f| >= 4
    ensures Field(f + more, 0) == Field(f, 0)
  {
    hide Get;
    assert (f + more)[0..4] == f[0..4];
  }

  /** One whole packet at the front of the data. */
  lemma ReceiveFrame(f: bytes, rest: bytes)
    requires Frame(f)
    ensures Receive([], f + rest) == var r := Receive([], rest); Feed(r.buffer, [f] + r.handled, r.verdict)
  {
    hide Field;
    var data := f + rest;
    SizeOfPrefix(f, rest);
    assert data[..|f|] == f && data[|f|..] == rest && [] + f == f;
  }

  lemma {:induction false} AlignedIsClean(frames: seq<bytes>)
    requires AllFrames(frames)
    ensures Receive([], Flat<byte>(frames)) == Feed([], frames, Returned(true))
  {
    hide Field;
    if frames != [] {
      ReceiveFrame(frames[0], Flat<byte>(frames[1..]));
      AlignedIsClean(frames[1..]);
      assert frames == [frames[0]] + frames[1..];
    }
  }

  lemma {:induction false} CleanIsAligned(data: bytes)
    requires Clean(Receive([], data))
    ensures AllFrames(Receive([], data).handled) && Flat<byte>(Receive([], data).handled) == data
    decreases |data|
  {
    hide Field, Receive;
    if data == [] {
      NothingMore([]);
    } else {
      var n := Copied([], data);
      var b, rest := [] + data[..n], data[n..];
      Turn([], data, b, rest);
      assert |b| >= HEADER && Field(b, 0) == |b|;
      CleanIsAligned(rest);
      assert data == b + rest;
    }
  }

  /** From an empty buffer a call is clean exactly on whole packets laid end to
      end: this is all the reassembly code can be relied on for. */
  lemma CleanIffAligned(data: bytes)
    ensures Clean(Receive([], data)) <==> exists frames: seq<bytes> :: AllFrames(frames) && Flat<byte>(frames) == data
  {
    if Clean(Receive([], data)) {
      CleanIsAligned(data);
    }
    forall frames: seq<bytes> | AllFrames(frames) && Flat<byte>(frames) == data ensures Clean(Receive([], data)) {
      AlignedIsClean(frames);
    }
  }

  /** A packet cut after its header is handed on unfinished. */
  lemma CutPacketOverruns(f: bytes, k: nat)
    requires Frame(f) && HEADER <= k < |f|
    ensures Receive([], f[..k]).verdict == Overrun
  {
    hide Field;
    var d := f[..k];
    SizeOfPrefix(d, f[k..]);
    assert d + f[k..] == f;
    assert [] + d[..k] == d;
  }

  /** What a call does whose data completes a header left over from the last
      one: it copies as much as the buffer holds, whatever the packet's size. */
  function Completed(f: bytes, more: bytes): Feed
    requires Frame(f)
  {
    if more == [] then Feed([], [f], Returned(true))
    else if |f| == MAX_PACKET then var r := Receive([], more); Feed(r.buffer, [f] + r.handled, r.verdict)
    else Feed((f + more)[..Min(|f| + |more|, MAX_PACKET)], [], Returned(|f| + |more| <= MAX_PACKET))
  }

  /** A packet cut inside its header is completed by the next call only if
      nothing follows it there, or if it fills the buffer; otherwise both stay
      in the buffer unhandled, and what the buffer cannot hold is left over. */
  lemma CutHeader(f: bytes, k: nat, more: bytes)
    requires Frame(f) && 0 < k < HEADER
    ensures Receive([], f[..k]) == Feed(f[..k], [], Returned(true))
    ensures Receive(f[..k], f[k..] + more) == Completed(f, more)
  {
    hide Field, Receive, Completed;
    var h, d := f[..k], f[k..] + more;
    assert h + d == f + more;
    ShortDataWaits(h);
    CompletedHeader(h, d, f, more);
  }

  lemma ShortDataWaits(h: bytes)
    requires 0 < |h| < HEADER
    ensures Receive([], h) == Feed(h, [], Returned(true))
  {
    assert [] + h[..|h|] == h && h[|h|..] == [];
  }

  lemma CompletedHeader(h: bytes, d: bytes, f: bytes, more: bytes)
    requires Frame(f) && 0 < |h| < HEADER && h + d == f + more
    ensures Receive(h, d) == Completed(f, more)
  {
    hide Field, Receive;
    var n := Copied(h, d);
    var b, rest := h + d[..n], d[n..];
    Turn(h, d, b, rest);
    assert |b| == Min(|f| + |more|, MAX_PACKET) && b == (f + more)[..|b|];
    SizeOfPrefix(f, b[|f|..]);
    assert b == f + b[|f|..];
    if more == [] {
      assert rest == [] && b == f;
      NothingMore([]);
    } else if |f| == MAX_PACKET {
      assert b == f && rest == more;
    }
  }

  /** The receiving half of a Mux: a fixed input buffer and what has been
      handed to HandleIncomingPacket. */
  class Receiver {
    const inputBuf: array<byte>
    var inputSize: nat
    var handled: seq<bytes>

    ghost predicate Valid()
      reads this
    {
      inputBuf.Length == MAX_PACKET && inputSize <= MAX_PACKET
    }

    ghost function Buffered(): bytes
      requires Valid()
      reads this, inputBuf
    {
      inputBuf[..inputSize]
    }

    constructor ()
      ensures Valid() && fresh(inputBuf) && Buffered() == [] && handled == []
    {
      inputBuf := new byte[MAX_PACKET](_ => 0);
      inputSize := 0;
      handled := [];
    }

    /** memcpy to the end of the buffered bytes. */
    method Append(src: bytes)
      requires Valid() && inputSize + |src| <= MAX_PACKET
      modifies inputBuf, this`inputSize
      ensures Valid() && Buffered() == old(Buffered()) + src
    {
      forall k | 0 <= k < |src| {
        inputBuf[inputSize + k] := src[k];
      }
      inputSize := inputSize + |src|;
    }

    method ReceiveRaw(data: bytes) returns (verdict: Verdict)
      requires Valid()
      modifies this, inputBuf
      ensures Valid()
      ensures var f := Receive(old(Buffered()), data);
        verdict == f.verdict && Buffered() == f.buffer && handled == old(handled) + f.handled
    {
      hide Field, Receive;
      var remain := data;
      ghost var whole := Receive(Buffered(), data);
      while remain != []
        invariant Valid()
        invariant var f := Receive(Buffered(), remain);
          && f.buffer == whole.buffer && f.verdict == whole.verdict
          && handled + f.handled == old(handled) + whole.handled
        decreases |remain| + inputSize
      {
        var copy := Min(|remain|, MAX_PACKET - inputSize);
        if inputSize == 0 && |remain| >= HEADER {
          copy := Min(copy, Field(remain, 0));
        } else if inputSize >= HEADER {
          copy := Min(copy, Max(0, Field(inputBuf[..inputSize], 0) - inputSize));
        }
        ghost var before := Buffered();
        assert copy == Copied(before, remain);
        Turn(before, remain, before + remain[..copy], remain[copy..]);
        Append(remain[..copy]);
        remain := remain[copy..];
        var b := inputBuf[..inputSize];
        if inputSize < HEADER {
          break;
        }
        if Field(b, 0) > MAX_PACKET {
          return Returned(false);
        }
        if Field(b, 0) < inputSize {
          break;
        }
        if Field(b, 0) > inputSize {
          return Overrun;
        }
        handled := handled + [b];
        inputSize := 0;
        assert Buffered() == [];
      }
      if remain == [] {
        NothingMore(Buffered());
      }
      verdict := Returned(remain == []);
    }
  }

  // ------------------------------------------------------------------
  // Streams.

  lemma {:induction false} ChunksJoin(data: bytes)
    ensures Flat(Chunks(data)) == data
    ensures forall k :: 0 <= k < |Chunks(data)| ==> 0 < |Chunks(data)[k]| <= MAX_PAYLOAD
    decreases |data|
  {
    if data != [] {
      var n := Min(|data|, MAX_PAYLOAD);
      ChunksJoin(data[n..]);
      assert data == data[..n] + data[n..];
    }
  }

  function Encoded(ps: seq<Packet>): (r: seq<bytes>)
    ensures |r| == |ps| && forall k :: 0 <= k < |ps| ==> r[k] == Encode(ps[k])
  {
    seq(|ps|, k requires 0 <= k < |ps| => Encode(ps[k]))
  }

  lemma EncodedJoin(a: seq<Packet>, b: seq<Packet>)
    ensures Encoded(a + b) == Encoded(a) + Encoded(b)
  {
    hide Encode;
  }

  lemma EncodingIsFrame(p: Packet)
    requires Fits(p)
    ensures Frame(Encode(p))
  {
    HeaderFields(p);
  }

  /** Calls to ReceiveRaw, one after the other, each with some whole packets. */
  function ReceiveGroups(buffer: bytes, groups: seq<seq<Packet>>): (f: Feed)
    requires |buffer| <= MAX_PACKET
    decreases |groups|
  {
    if groups == [] then Feed(buffer, [], Returned(true))
    else
      var f := Receive(buffer, Flat<byte>(Encoded(groups[0])));
      if f.verdict != Returned(true) then f
      else
        var g := ReceiveGroups(f.buffer, groups[1..]);
        Feed(g.buffer, f.handled + g.handled, g.verdict)
  }

  lemma {:induction false} GroupsArrive(groups: seq<seq<Packet>>)
    requires forall g, k :: 0 <= g < |groups| && 0 <= k < |groups[g]| ==> Fits(groups[g][k])
    ensures ReceiveGroups([], groups) == Feed([], Encoded(Flat(groups)), Returned(true))
  {
    hide Encode, Receive, Fits, Encoded;
    if groups != [] {
      var first := Encoded(groups[0]);
      forall k | 0 <= k < |first| ensures Frame(first[k]) {
        EncodingIsFrame(groups[0][k]);
      }
      AlignedIsClean(first);
      GroupsArrive(groups[1..]);
      EncodedJoin(groups[0], Flat(groups[1..]));
    }
  }

  /** The packets that Write puts on the link. */
  ghost function Written(m: MuxView, id: nat, data: bytes): seq<Packet>
    requires id in m.chans && m.chans[id].valid && id != 0 && m.chans[id].nextSeq < TWO32
  {
    SendAllAppends(m, id, Chunks(data));
    SendAll(m, id, Chunks(data)).out[|m.out|..]
  }

  /** A packet Write has put on the link for the payload c. */
  predicate CarriesChunk(p: Packet, id: nat, c: bytes) {
    p.chan == id && p.stamp < TWO32 && p.body == Data(c)
  }

  lemma {:induction false} SendAllAppends(m: MuxView, id: nat, payloads: seq<bytes>)
    requires id in m.chans && m.chans[id].valid && id != 0 && m.chans[id].nextSeq < TWO32
    ensures var r := SendAll(m, id, payloads);
      && |r.out| == |m.out| + |payloads|
      && m.out <= r.out
      && forall k :: 0 <= k < |payloads| ==> CarriesChunk(r.out[|m.out|..][k], id, payloads[k])
    decreases |payloads|
  {
    if payloads != [] {
      var m' := SendOn(m, id, Data(payloads[0]));
      SendAllAppends(m', id, payloads[1..]);
      var r := SendAll(m, id, payloads);
      forall k | 0 <= k < |payloads| ensures CarriesChunk(r.out[|m.out|..][k], id, payloads[k]) {
        if k > 0 {
          assert r.out[|m.out|..][k] == r.out[|m'.out|..][k - 1];
          assert CarriesChunk(r.out[|m'.out|..][k - 1], id, payloads[1..][k - 1]);
        } else {
          assert r.out[|m.out|] == m'.out[|m.out|];
        }
      }
    }
  }

  /** A handled frame that the channel's listener takes data from. */
  predicate IsDataFrame(f: bytes, id: nat) {
    |f| <= MAX_PACKET && Decode(f).Parsed? && Decode(f).packet.chan == id && Decode(f).packet.body.Data?
  }

  function PayloadsOf(frames: seq<bytes>, id: nat): seq<bytes>
    requires forall k :: 0 <= k < |frames| ==> IsDataFrame(frames[k], id)
  {
    seq(|frames|, k requires 0 <= k < |frames| && IsDataFrame(frames[k], id) => Decode(frames[k]).packet.body.payload)
  }

  lemma ChunkFrames(p: Packet, id: nat, c: bytes)
    requires id < TWO32 && |c| <= MAX_PAYLOAD && CarriesChunk(p, id, c)
    ensures Fits(p) && IsDataFrame(Encode(p), id) && Decode(Encode(p)).packet.body.payload == c
  {
    hide Put, Get, Field, Encode, Decode;
    DecodeEncode(p);
  }

  /** Write on one side and ReceiveRaw on the other, the transport grouping the
      packets as it likes: the very bytes come out, in order, no packet is over
      the limit, and the reassembly buffer ends empty. */
  lemma StreamArrives(m: MuxView, id: nat, data: bytes, groups: seq<seq<Packet>>)
    requires id in m.chans && m.chans[id].valid && 0 < id < TWO32 && m.chans[id].nextSeq < TWO32
    requires Flat(groups) == Written(m, id, data)
    ensures var f := ReceiveGroups([], groups);
      && Clean(f)
      && (forall k :: 0 <= k < |f.handled| ==> IsDataFrame(f.handled[k], id))
      && Flat<byte>(PayloadsOf(f.handled, id)) == data
  {
    hide Put, Get, Field, Encode, Decode, Receive, ReceiveGroups, SendAll, Flat, Chunks;
    var cs, ps := Chunks(data), Flat(groups);
    ChunksJoin(data);
    SendAllAppends(m, id, cs);
    forall k | 0 <= k < |ps|
      ensures Fits(ps[k]) && IsDataFrame(Encode(ps[k]), id) && Decode(Encode(ps[k])).packet.body.payload == cs[k]
    {
      ChunkFrames(ps[k], id, cs[k]);
    }
    FlatMembers(groups);
    GroupsArrive(groups);
    assert PayloadsOf(Encoded(ps), id) == cs;
  }

  lemma {:induction false} FlatMembers<T>(groups: seq<seq<T>>)
    ensures forall g, k :: 0 <= g < |groups| && 0 <= k < |groups[g]| ==> groups[g][k] in Flat(groups)
  {
    if groups != [] {
      FlatMembers(groups[1..]);
      forall g, k | 0 <= g < |groups| && 0 <= k < |groups[g]| ensures groups[g][k] in Flat(groups) {
        if g == 0 {
          assert groups[0][k] == Flat(groups)[k];
        } else {
          assert groups[g] == groups[1..][g - 1];
        }
      }
    }
  }
}
