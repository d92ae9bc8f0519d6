/** The streaming SHA-256 of sha2.c on a little-endian machine: a context whose
    64-byte buffer holds unprocessed input and, while a block is processed, the
    message schedule. */
module Sha256 {
  import Wire
  import opened Sha256Spec

  // ------------------------------------------------------------------
  // Words in memory.

  /** The 32-bit word at byte 4 * i, as the machine reads it. */
  function Little(b0: bv8, b1: bv8, b2: bv8, b3: bv8): bv32 {
    (b0 as bv32) | ((b1 as bv32) << 8) | ((b2 as bv32) << 16) | ((b3 as bv32) << 24)
  }

  function HostWord(s: seq<bv8>, i: nat): bv32
    requires 4 * i + 4 <= |s|
  {
    Little(s[4 * i], s[4 * i + 1], s[4 * i + 2], s[4 * i + 3])
  }

  function HostBytes(w: bv32): (s: seq<bv8>)
    ensures |s| == 4
  {
    [(w & 0xff) as bv8, ((w >> 8) & 0xff) as bv8, ((w >> 16) & 0xff) as bv8, (w >> 24) as bv8]
  }

  function Reverse32(w: bv32): bv32 {
    var t := (w >> 16) | (w << 16);
    ((t & 0xff00ff00) >> 8) | ((t & 0x00ff00ff) << 8)
  }

  /** Reversing what the machine reads gives the word in the standard's order. */
  lemma ReverseReads(s: seq<bv8>, i: nat)
    requires 4 * i + 4 <= |s|
    ensures Reverse32(HostWord(s, i)) == BigWord(s, i)
  {
    ReverseReadsBytes(s[4 * i], s[4 * i + 1], s[4 * i + 2], s[4 * i + 3]);
  }

  lemma ReverseReadsBytes(b0: bv8, b1: bv8, b2: bv8, b3: bv8)
    ensures Reverse32(Little(b0, b1, b2, b3)) == Big(b0, b1, b2, b3)
  {
  }

  /** Storing the reversed word writes its bytes in the standard's order. */
  lemma ReverseWrites(w: bv32)
    ensures HostBytes(Reverse32(w)) == BigBytes(w)
  {
  }

  lemma HostRoundTrip(w: bv32)
    ensures var s := HostBytes(w); Little(s[0], s[1], s[2], s[3]) == w
  {
  }

  /** The schedule words the buffer stands for. */
  function HostWords(s: seq<bv8>): (m: seq<bv32>)
    requires |s| == BLOCK
    ensures |m| == 16
  {
    seq(16, i requires 0 <= i < 16 => HostWord(s, i))
  }

  method PutWord(a: array<bv8>, i: nat, w: bv32)
    requires a.Length == BLOCK && i < 16
    modifies a
    ensures HostWords(a[..]) == old(HostWords(a[..]))[i := w]
    ensures forall k :: 0 <= k < BLOCK && !(4 * i <= k < 4 * i + 4) ==> a[k] == old(a[k])
  {
    hide Little, HostBytes;
    ghost var before := a[..];
    var s := HostBytes(w);
    a[4 * i], a[4 * i + 1], a[4 * i + 2], a[4 * i + 3] := s[0], s[1], s[2], s[3];
    ghost var after := a[..];
    HostRoundTrip(w);
    forall k | 0 <= k < 16 ensures HostWords(after)[k] == HostWords(before)[i := w][k] {
      if k != i {
        assert HostWord(after, k) == HostWord(before, k);
      }
    }
    assert HostWords(after) == HostWords(before)[i := w];
  }

  // ------------------------------------------------------------------
  // The circular schedule.

  /** The last 16 schedule words before round j, each at its index modulo 16. */
  ghost predicate Window(ws: seq<bv32>, m: seq<bv32>, j: nat)
    requires |ws| == 16 == |m|
  {
    forall t {:trigger W(m, t)} :: 0 <= t < j && j <= t + 16 ==> ws[t % 16] == W(m, t)
  }

  /** What the in-place update of a slot computes. */
  function Bumped(w: bv32, s1: bv32, w9: bv32, s0: bv32): bv32 {
    w + (s1 + w9 + s0)
  }

  function NextWord(ws: seq<bv32>, j: nat): bv32
    requires |ws| == 16
  {
    Bumped(ws[j % 16], Sigma1(ws[(j + 14) % 16]), ws[(j + 9) % 16], Sigma0(ws[(j + 1) % 16]))
  }

  /** Updating the slot of the oldest word in place makes it the newest: the
      words 2, 7, 15 and 16 back are all still there. */
  lemma WindowMoves(ws: seq<bv32>, m: seq<bv32>, j: nat)
    requires |ws| == 16 == |m| && 16 <= j < 64 && Window(ws, m, j)
    ensures NextWord(ws, j) == W(m, j) && Window(ws[j % 16 := NextWord(ws, j)], m, j + 1)
  {
    hide W, NextWord, Window;
    WindowAt(ws, m, j, j - 16);
    WindowAt(ws, m, j, j - 15);
    WindowAt(ws, m, j, j - 7);
    WindowAt(ws, m, j, j - 2);
    Around(j);
    NewWord(ws, m, j);
    WindowPush(ws, m, j);
  }

  lemma WindowAt(ws: seq<bv32>, m: seq<bv32>, j: nat, t: nat)
    requires |ws| == 16 == |m| && Window(ws, m, j) && t < j <= t + 16
    ensures ws[t % 16] == W(m, t)
  {
    hide W;
  }

  lemma Around(j: nat)
    requires j >= 16
    ensures (j - 16) % 16 == j % 16 && (j - 15) % 16 == (j + 1) % 16
    ensures (j - 7) % 16 == (j + 9) % 16 && (j - 2) % 16 == (j + 14) % 16
  {
  }

  lemma NewWord(ws: seq<bv32>, m: seq<bv32>, j: nat)
    requires |ws| == 16 == |m| && j >= 16
    requires ws[j % 16] == W(m, j - 16) && ws[(j + 1) % 16] == W(m, j - 15)
    requires ws[(j + 9) % 16] == W(m, j - 7) && ws[(j + 14) % 16] == W(m, j - 2)
    ensures NextWord(ws, j) == W(m, j)
  {
    hide Sigma0, Sigma1, Bumped, Expand;
    BumpedExpands(W(m, j - 2), W(m, j - 7), W(m, j - 15), W(m, j - 16));
  }

  lemma BumpedExpands(w2: bv32, w7: bv32, w15: bv32, w16: bv32)
    ensures Bumped(w16, Sigma1(w2), w7, Sigma0(w15)) == Expand(w2, w7, w15, w16)
  {
    hide Sigma0, Sigma1;
  }

  lemma WindowPush(ws: seq<bv32>, m: seq<bv32>, j: nat)
    requires |ws| == 16 == |m| && Window(ws, m, j)
    ensures Window(ws[j % 16 := W(m, j)], m, j + 1)
  {
    hide W;
    var ws', n := ws[j % 16 := W(m, j)], j + 1;
    forall t {:trigger W(m, t)} | 0 <= t < n && n <= t + 16 ensures ws'[t % 16] == W(m, t) {
      if t != j {
        assert t % 16 != j % 16;
        WindowAt(ws, m, j, t);
      }
    }
  }

  /** The words from j on are still the block's. */
  ghost predicate Unread(s: seq<bv8>, m: seq<bv32>, j: nat)
    requires |s| == BLOCK && |m| == 16
  {
    forall k :: j <= k < 16 ==> BigWord(s, k) == m[k]
  }

  /** Writing word j, even over the block itself, spoils no later word. */
  lemma UnreadKept(s: seq<bv8>, s': seq<bv8>, m: seq<bv32>, j: nat)
    requires |s| == |s'| == BLOCK && |m| == 16 && j < 16 && Unread(s, m, j)
    requires forall k :: 4 * j + 4 <= k < BLOCK ==> s'[k] == s[k]
    ensures Unread(s', m, j + 1)
  {
    hide Big;
    forall k | j + 1 <= k < 16 ensures BigWord(s', k) == m[k] {
      assert BigWord(s, k) == m[k];
    }
  }

  lemma FirstWords(m: seq<bv32>, j: nat)
    requires |m| == 16 && j < 16
    ensures W(m, j) == m[j]
  {
  }

  function WordAt(a: array<bv8>, at: nat): bv32
    requires at + 4 <= a.Length
    reads a
  {
    Little(a[at], a[at + 1], a[at + 2], a[at + 3])
  }

  class Context {
    const state: array<bv32>
    var bitcount: nat
    const buffer: array<bv8>
    /** The message so far. */
    ghost var msg: seq<bv8>

    ghost predicate Shape() {
      state.Length == 8 && buffer.Length == BLOCK
    }

    ghost function Hash(): Regs
      requires Shape()
      reads state
    {
      Regs(state[0], state[1], state[2], state[3], state[4], state[5], state[6], state[7])
    }

    /** The rounds' last step. */
    method AddToState(a: bv32, b: bv32, c: bv32, d: bv32, e: bv32, f: bv32, g: bv32, h: bv32)
      requires Shape()
      modifies state
      ensures Hash() == Add(old(Hash()), Regs(a, b, c, d, e, f, g, h))
    {
      hide Plus;
      state[0] := Plus(state[0], a);
      state[1] := Plus(state[1], b);
      state[2] := Plus(state[2], c);
      state[3] := Plus(state[3], d);
      state[4] := Plus(state[4], e);
      state[5] := Plus(state[5], f);
      state[6] := Plus(state[6], g);
      state[7] := Plus(state[7], h);
    }

    /** A data word goes, reversed, to its place in the buffer. The data may be
        the buffer itself. */
    method TakeWord(data: array<bv8>, at: nat, j: nat, ghost m: seq<bv32>) returns (w: bv32)
      requires Shape() && at + BLOCK <= data.Length && (data == buffer ==> at == 0) && j < 16 && |m| == 16
      requires Unread(data[at..at + BLOCK], m, j) && Window(HostWords(buffer[..]), m, j)
      modifies buffer
      ensures w == W(m, j)
      ensures Unread(data[at..at + BLOCK], m, j + 1) && Window(HostWords(buffer[..]), m, j + 1)
    {
      hide Big, Little, Reverse32, W, Window, Words, Unread, HostWords;
      ghost var before := data[at..at + BLOCK];
      ghost var ws := HostWords(buffer[..]);
      FirstWords(m, j);
      UnreadAt(before, m, j);
      ReverseReads(before, j);
      w := Reverse32(WordAt(data, at + 4 * j));
      assert WordAt(data, at + 4 * j) == HostWord(before, j);
      PutWord(buffer, j, w);
      WindowPush(ws, m, j);
      UnreadKept(before, data[at..at + BLOCK], m, j);
    }

    lemma UnreadAt(s: seq<bv8>, m: seq<bv32>, j: nat)
      requires |s| == BLOCK && |m| == 16 && j < 16 && Unread(s, m, j)
      ensures BigWord(s, j) == m[j]
    {
      hide Big;
    }

    /** One step of the block expansion, in place. */
    method ExpandWord(j: nat, ghost m: seq<bv32>) returns (w: bv32)
      requires Shape() && 16 <= j < 64 && |m| == 16 && Window(HostWords(buffer[..]), m, j)
      modifies buffer
      ensures w == W(m, j) && Window(HostWords(buffer[..]), m, j + 1)
    {
      hide Little, W, Window, Bumped, Sigma0, Sigma1;
      ghost var ws := HostWords(buffer[..]);
      WindowMoves(ws, m, j);
      var s0 := Sigma0(WordAt(buffer, 4 * ((j + 1) % 16)));
      var s1 := Sigma1(WordAt(buffer, 4 * ((j + 14) % 16)));
      w := Bumped(WordAt(buffer, 4 * (j % 16)), s1, WordAt(buffer, 4 * ((j + 9) % 16)), s0);
      PutWord(buffer, j % 16, w);
    }

    /** SHA256_Transform, rolled: the block is data[at..at + 64], which may be
        the buffer. */
    method Transform(data: array<bv8>, at: nat)
      requires Shape() && at + BLOCK <= data.Length && (data == buffer ==> at == 0)
      modifies state, buffer
      ensures Hash() == Compress(old(Hash()), old(data[at..at + BLOCK]))
      ensures Window(HostWords(buffer[..]), Words(old(data[at..at + BLOCK])), 64)
    {
      hide W, Window, Words, Unread, HostWords, K, T1, T2, Add, Plus, BigWord, Rounds;
      ghost var m, r0 := Words(data[at..at + BLOCK]), Hash();
      NoRounds(r0, m);
      var a, b, c, d, e, f, g, h := state[0], state[1], state[2], state[3], state[4], state[5], state[6], state[7];
      var j: nat := 0;
      AtStart(data[at..at + BLOCK], HostWords(buffer[..]));
      while j < 16
        invariant j <= 16 && Regs(a, b, c, d, e, f, g, h) == Rounds(r0, m, j)
        invariant Unread(data[at..at + BLOCK], m, j) && Window(HostWords(buffer[..]), m, j)
        invariant Hash() == r0
      {
        NextRound(r0, m, j);
        var w := TakeWord(data, at, j, m);
        var t1, t2 := T1(e, f, g, h, K(j), w), T2(a, b, c);
        h := g;
        g := f;
        f := e;
        e := Plus(d, t1);
        d := c;
        c := b;
        b := a;
        a := Plus(t1, t2);
        j := j + 1;
      }
      while j < 64
        invariant 16 <= j <= 64 && Regs(a, b, c, d, e, f, g, h) == Rounds(r0, m, j)
        invariant Window(HostWords(buffer[..]), m, j)
        invariant Hash() == r0
      {
        NextRound(r0, m, j);
        var w := ExpandWord(j, m);
        var t1, t2 := T1(e, f, g, h, K(j), w), T2(a, b, c);
        h := g;
        g := f;
        f := e;
        e := Plus(d, t1);
        d := c;
        c := b;
        b := a;
        a := Plus(t1, t2);
        j := j + 1;
      }
      AddToState(a, b, c, d, e, f, g, h);
    }

    /** The macro of the first sixteen rounds: it changes its fourth and eighth
        arguments and leaves the renaming to the next call. */
    method RoundEarly(data: array<bv8>, at: nat, j: nat, a: bv32, b: bv32, c: bv32, d: bv32, e: bv32, f: bv32, g: bv32,
                      h: bv32, ghost m: seq<bv32>, ghost r0: Regs)
      returns (d': bv32, h': bv32)
      requires Shape() && at + BLOCK <= data.Length && (data == buffer ==> at == 0) && j < 16 && |m| == 16
      requires Unread(data[at..at + BLOCK], m, j) && Window(HostWords(buffer[..]), m, j)
      requires Regs(a, b, c, d, e, f, g, h) == Rounds(r0, m, j)
      modifies buffer
      ensures Regs(h', a, b, c, d', e, f, g) == Rounds(r0, m, j + 1)
      ensures Unread(data[at..at + BLOCK], m, j + 1) && Window(HostWords(buffer[..]), m, j + 1)
    {
      hide W, Window, Unread, HostWords, K, T1, T2, Plus, BigSigma0, Maj;
      var w := TakeWord(data, at, j, m);
      var t1 := T1(e, f, g, h, K(j), w);
      d' := Plus(d, t1);
      h' := Plus(Plus(t1, BigSigma0(a)), Maj(a, b, c));
      InTwoSteps(t1, a, b, c);
    }

    method RoundLate(j: nat, a: bv32, b: bv32, c: bv32, d: bv32, e: bv32, f: bv32, g: bv32, h: bv32, ghost m: seq<bv32>,
                     ghost r0: Regs)
      returns (d': bv32, h': bv32)
      requires Shape() && 16 <= j < 64 && |m| == 16 && Window(HostWords(buffer[..]), m, j)
      requires Regs(a, b, c, d, e, f, g, h) == Rounds(r0, m, j)
      modifies buffer
      ensures Regs(h', a, b, c, d', e, f, g) == Rounds(r0, m, j + 1)
      ensures Window(HostWords(buffer[..]), m, j + 1)
    {
      hide W, Window, HostWords, K, T1, T2, Plus, BigSigma0, Maj;
      var w := ExpandWord(j, m);
      var t1 := T1(e, f, g, h, K(j), w);
      d' := Plus(d, t1);
      h' := Plus(Plus(t1, BigSigma0(a)), Maj(a, b, c));
      InTwoSteps(t1, a, b, c);
    }

    /** Eight macros in a row bring every register back to its name. */
    method EightEarly(data: array<bv8>, at: nat, j: nat, a0: bv32, b0: bv32, c0: bv32, d0: bv32, e0: bv32, f0: bv32,
                      g0: bv32, h0: bv32, ghost m: seq<bv32>, ghost r0: Regs)
      returns (a: bv32, b: bv32, c: bv32, d: bv32, e: bv32, f: bv32, g: bv32, h: bv32)
      requires Shape() && at + BLOCK <= data.Length && (data == buffer ==> at == 0) && j + 8 <= 16 && |m| == 16
      requires Unread(data[at..at + BLOCK], m, j) && Window(HostWords(buffer[..]), m, j)
      requires Regs(a0, b0, c0, d0, e0, f0, g0, h0) == Rounds(r0, m, j)
      modifies buffer
      ensures Regs(a, b, c, d, e, f, g, h) == Rounds(r0, m, j + 8)
      ensures Unread(data[at..at + BLOCK], m, j + 8) && Window(HostWords(buffer[..]), m, j + 8)
    {
      hide Window, Unread, HostWords, Rounds;
      a, b, c, d, e, f, g, h := a0, b0, c0, d0, e0, f0, g0, h0;
      d, h := RoundEarly(data, at, j, a, b, c, d, e, f, g, h, m, r0);
      c, g := RoundEarly(data, at, j + 1, h, a, b, c, d, e, f, g, m, r0);
      b, f := RoundEarly(data, at, j + 2, g, h, a, b, c, d, e, f, m, r0);
      a, e := RoundEarly(data, at, j + 3, f, g, h, a, b, c, d, e, m, r0);
      h, d := RoundEarly(data, at, j + 4, e, f, g, h, a, b, c, d, m, r0);
      g, c := RoundEarly(data, at, j + 5, d, e, f, g, h, a, b, c, m, r0);
      f, b := RoundEarly(data, at, j + 6, c, d, e, f, g, h, a, b, m, r0);
      e, a := RoundEarly(data, at, j + 7, b, c, d, e, f, g, h, a, m, r0);
    }

    method EightLate(j: nat, a0: bv32, b0: bv32, c0: bv32, d0: bv32, e0: bv32, f0: bv32, g0: bv32, h0: bv32,
                     ghost m: seq<bv32>, ghost r0: Regs)
      returns (a: bv32, b: bv32, c: bv32, d: bv32, e: bv32, f: bv32, g: bv32, h: bv32)
      requires Shape() && 16 <= j <= 56 && |m| == 16 && Window(HostWords(buffer[..]), m, j)
      requires Regs(a0, b0, c0, d0, e0, f0, g0, h0) == Rounds(r0, m, j)
      modifies buffer
      ensures Regs(a, b, c, d, e, f, g, h) == Rounds(r0, m, j + 8) && Window(HostWords(buffer[..]), m, j + 8)
    {
      hide Window, HostWords, Rounds;
      a, b, c, d, e, f, g, h := a0, b0, c0, d0, e0, f0, g0, h0;
      d, h := RoundLate(j, a, b, c, d, e, f, g, h, m, r0);
      c, g := RoundLate(j + 1, h, a, b, c, d, e, f, g, m, r0);
      b, f := RoundLate(j + 2, g, h, a, b, c, d, e, f, m, r0);
      a, e := RoundLate(j + 3, f, g, h, a, b, c, d, e, m, r0);
      h, d := RoundLate(j + 4, e, f, g, h, a, b, c, d, m, r0);
      g, c := RoundLate(j + 5, d, e, f, g, h, a, b, c, m, r0);
      f, b := RoundLate(j + 6, c, d, e, f, g, h, a, b, m, r0);
      e, a := RoundLate(j + 7, b, c, d, e, f, g, h, a, m, r0);
    }

    /** SHA256_Transform, unrolled: eight rounds a turn with the registers
        renamed instead of moved. It leaves the state and the buffer exactly as
        the rolled one does. */
    method TransformUnrolled(data: array<bv8>, at: nat)
      requires Shape() && at + BLOCK <= data.Length && (data == buffer ==> at == 0)
      modifies state, buffer
      ensures Hash() == Compress(old(Hash()), old(data[at..at + BLOCK]))
      ensures Window(HostWords(buffer[..]), Words(old(data[at..at + BLOCK])), 64)
    {
      hide W, Window, Words, Unread, HostWords, K, Add, BigWord, Rounds;
      ghost var m, r0 := Words(data[at..at + BLOCK]), Hash();
      NoRounds(r0, m);
      var a, b, c, d, e, f, g, h := state[0], state[1], state[2], state[3], state[4], state[5], state[6], state[7];
      var j: nat := 0;
      AtStart(data[at..at + BLOCK], HostWords(buffer[..]));
      while j < 16
        invariant j <= 16 && j % 8 == 0 && Regs(a, b, c, d, e, f, g, h) == Rounds(r0, m, j)
        invariant Unread(data[at..at + BLOCK], m, j) && Window(HostWords(buffer[..]), m, j)
        invariant Hash() == r0
      {
        a, b, c, d, e, f, g, h := EightEarly(data, at, j, a, b, c, d, e, f, g, h, m, r0);
        j := j + 8;
      }
      while j < 64
        invariant 16 <= j <= 64 && j % 8 == 0 && Regs(a, b, c, d, e, f, g, h) == Rounds(r0, m, j)
        invariant Window(HostWords(buffer[..]), m, j)
        invariant Hash() == r0
      {
        a, b, c, d, e, f, g, h := EightLate(j, a, b, c, d, e, f, g, h, m, r0);
        j := j + 8;
      }
      AddToState(a, b, c, d, e, f, g, h);
    }

    /** The state is that after the whole blocks of the message, and the buffer
        begins with what is left of it. */
    ghost predicate Valid()
      reads this, state, buffer
    {
      && Shape() && bitcount == 8 * |msg| % TWO64
      && buffer[..|msg| % BLOCK] == Tail(msg) && Hash() == Blocks(InitialHash(), Whole(msg))
    }

    /** SHA256_Init. */
    constructor ()
      ensures Valid() && msg == [] && fresh(state) && fresh(buffer)
    {
      hide Initial, Compress;
      state := new bv32[8](i requires 0 <= i < 8 => Initial(i));
      buffer := new bv8[BLOCK](_ => 0);
      bitcount := 0;
      msg := [];
    }

    /** memcpy into the buffer. */
    method CopyIn(to: nat, data: array<bv8>, from: nat, n: nat)
      requires Shape() && data != buffer && to + n <= BLOCK && from + n <= data.Length
      modifies buffer
      ensures buffer[..] == old(buffer[..to]) + data[from..from + n] + old(buffer[to + n..])
    {
      for i := 0 to n
        invariant buffer[..] == old(buffer[..to]) + data[from..from + i] + old(buffer[to + i..])
      {
        buffer[to + i] := data[from + i];
      }
    }

    /** SHA256_Update. */
    method Update(data: array<bv8>, len: nat)
      requires Valid() && data != buffer && len <= data.Length
      modifies this, state, buffer
      ensures Valid() && msg == old(msg) + data[..len]
    {
      hide Valid;
      if len == 0 {
        assert data[..0] == [];
        return;
      }
      var used := UsedNow();
      var pos := 0;
      ghost var msg0, d := msg, data[..];
      if used > 0 {
        var free := BLOCK - used;
        if len >= free {
          Fill(data, used);
          pos := free;
        } else {
          Keep(data, 0, len);
          return;
        }
      }
      SliceOn(msg0, d, pos, len - pos);
      Bulk(data, pos, len);
    }

    /** The loop over whole blocks, and the left-overs. */
    method Bulk(data: array<bv8>, from: nat, len: nat)
      requires Valid() && data != buffer && |msg| % BLOCK == 0 && from <= len <= data.Length
      modifies this, state, buffer
      ensures Valid() && msg == old(msg) + data[from..len]
    {
      hide Valid;
      ghost var msg0, d := msg, data[from..len];
      var pos := from;
      while len - pos >= BLOCK
        invariant data[from..len] == d && from <= pos <= len && msg == msg0 + d[..pos - from]
        invariant |msg| % BLOCK == 0 && Valid()
      {
        SliceOn(msg0, d, pos - from, BLOCK);
        assert data[pos..pos + BLOCK] == d[pos - from..pos - from + BLOCK];
        Process(data, pos);
        pos := pos + BLOCK;
      }
      SliceOn(msg0, d, pos - from, len - pos);
      assert data[pos..len] == d[pos - from..len - from];
      if pos < len {
        Keep(data, pos, len - pos);
      }
    }

    method UsedNow() returns (used: nat)
      requires Valid()
      ensures used == |msg| % BLOCK && Shape()
    {
      UsedSpace(|msg|);
      used := bitcount / 8 % BLOCK;
    }

    /** A whole block straight from the caller's data. */
    method Process(data: array<bv8>, pos: nat)
      requires Valid() && data != buffer && |msg| % BLOCK == 0 && pos + BLOCK <= data.Length
      modifies this, state, buffer
      ensures Valid() && msg == old(msg) + data[pos..pos + BLOCK] && |msg| % BLOCK == 0
    {
      hide Compress, Blocks, Window, InitialHash, HostWords, Words, Whole, Tail;
      ghost var block := data[pos..pos + BLOCK];
      BlocksMore(InitialHash(), msg, block);
      WholeAlready(msg);
      WholeAlready(msg + block);
      Transform(data, pos);
      AddBits(|msg|, BLOCK);
      bitcount := (bitcount + 8 * BLOCK) % TWO64;
      msg := msg + block;
    }

    /** Bytes that do not complete a block wait in the buffer. */
    method Keep(data: array<bv8>, pos: nat, n: nat)
      requires Valid() && data != buffer && pos + n <= data.Length && |msg| % BLOCK + n < BLOCK
      modifies `bitcount, `msg, buffer
      ensures Valid() && msg == old(msg) + data[pos..pos + n]
    {
      hide Blocks, InitialHash;
      UsedSpace(|msg|);
      var used := bitcount / 8 % BLOCK;
      CopyIn(used, data, pos, n);
      AddBits(|msg|, n);
      bitcount := (bitcount + 8 * n) % TWO64;
      ghost var grown := msg + data[pos..pos + n];
      KeepTail(msg, data[pos..pos + n]);
      msg := grown;
    }

    /** The buffer is filled up and processed. */
    method Fill(data: array<bv8>, used: nat)
      requires Valid() && data != buffer && used == |msg| % BLOCK && used > 0 && BLOCK - used <= data.Length
      modifies this, state, buffer
      ensures Valid() && msg == old(msg) + data[..BLOCK - used] && |msg| % BLOCK == 0
    {
      hide Compress, Blocks, Window, InitialHash, HostWords, Words, Whole, Tail;
      var free := BLOCK - used;
      ghost var block := Tail(msg) + data[..free];
      CopyIn(used, data, 0, free);
      assert buffer[0..0 + BLOCK] == block;
      BlocksMore(InitialHash(), Whole(msg), block);
      AddBits(|msg|, free);
      bitcount := (bitcount + 8 * free) % TWO64;
      FillTail(msg, data[..free]);
      Transform(buffer, 0);
      msg := msg + data[..free];
    }

    /** memset to zero inside the buffer. */
    method ZeroFill(from: nat, to: nat)
      requires Shape() && from <= to <= BLOCK
      modifies buffer
      ensures buffer[..] == old(buffer[..from]) + Wire.Zeros(to - from) + old(buffer[to..])
    {
      for i := from to to
        invariant buffer[..] == old(buffer[..from]) + Wire.Zeros(i - from) + old(buffer[i..])
      {
        buffer[i] := 0;
      }
    }

    /** SHA256_Final up to the digest words. */
    method LastRounds()
      requires Valid()
      modifies this, state, buffer
      ensures Shape() && Hash() == Blocks(InitialHash(), Padded(old(msg)))
    {
      hide Compress, Blocks, Window, InitialHash, HostWords, Words, BigNumber, Padded, Whole, Tail, EarlyBlock;
      LengthField(|msg|);
      LastBlocks(msg);
      ghost var tail, length := Tail(msg), BigNumber(8 * |msg|, 8);
      PadTail();
      WriteLength(bitcount);
      ghost var last := if |tail| <= 55 then OneBlock(tail, length) else LateBlock(length);
      LastBlockIs(tail, length, buffer[..]);
      assert buffer[0..0 + BLOCK] == last;
      Transform(buffer, 0);
    }

    /** The 0x80 byte and the zeros, with a block of their own if the length
        would not fit behind the tail. */
    method PadTail()
      requires Valid()
      modifies state, buffer
      ensures Shape() && buffer[..56] == EndOfPadding(Tail(msg))
      ensures var r := Blocks(InitialHash(), Whole(msg));
        Hash() == (if |Tail(msg)| <= 55 then r else Compress(r, EarlyBlock(Tail(msg))))
    {
      hide Compress, Blocks, Window, InitialHash, HostWords, Words, Whole, Tail;
      var used := UsedNow();
      ghost var tail := Tail(msg);
      if used > 0 {
        buffer[used] := 0x80;
        used := used + 1;
        assert buffer[..used] == tail + [0x80];
        if used <= 56 {
          ZeroFill(used, 56);
        } else {
          if used < BLOCK {
            ZeroFill(used, BLOCK);
          }
          assert buffer[0..0 + BLOCK] == EarlyBlock(tail);
          Transform(buffer, 0);
          ZeroFill(0, 56);
        }
      } else {
        ZeroFill(0, 56);
        buffer[0] := 0x80;
      }
    }

    /** The bit count, most significant byte first. */
    method WriteLength(bits: nat)
      requires Shape()
      modifies buffer
      ensures buffer[..] == old(buffer[..56]) + BigNumber(bits, 8)
    {
      hide BigNumber;
      var length := BigNumber(bits, 8);
      for i := 0 to 8
        invariant buffer[..] == old(buffer[..56]) + length[..i] + old(buffer[56 + i..])
      {
        buffer[56 + i] := length[i];
      }
      assert length[..8] == length;
    }

    /** The state words go out, reversed. */
    method WriteDigest(digest: array<bv8>)
      requires Shape() && digest.Length == DIGEST && digest != buffer
      modifies state, digest
      ensures digest[..] == DigestOf(old(Hash()))
    {
      hide BigBytes, Reverse32, DigestOf;
      ghost var r := Hash();
      for j := 0 to 8
        invariant forall k :: j <= k < 8 ==> state[k] == RegAt(r, k)
        invariant digest[..4 * j] == DigestTo(r, j)
      {
        state[j] := Reverse32(state[j]);
        WriteWord(digest, j, state[j]);
        ReverseWrites(RegAt(r, j));
      }
      WholeDigest(r);
      assert digest[..] == digest[..32];
    }

    method WriteWord(digest: array<bv8>, j: nat, w: bv32)
      requires digest.Length == DIGEST && j < 8
      modifies digest
      ensures digest[..4 * (j + 1)] == old(digest[..4 * j]) + HostBytes(w)
    {
      hide HostBytes;
      var s := HostBytes(w);
      digest[4 * j], digest[4 * j + 1], digest[4 * j + 2], digest[4 * j + 3] := s[0], s[1], s[2], s[3];
    }

    /** memset over the whole context. */
    method Wipe()
      requires Shape()
      modifies this, state, buffer
      ensures bitcount == 0 && Hash() == Regs(0, 0, 0, 0, 0, 0, 0, 0) && buffer[..] == Wire.Zeros(BLOCK)
    {
      for j := 0 to 8
        invariant forall k :: 0 <= k < j ==> state[k] == 0
      {
        state[j] := 0;
      }
      ZeroFill(0, BLOCK);
      bitcount := 0;
    }

    /** SHA256_Final: the digest, and nothing of the message is left. */
    method Final(digest: array<bv8>)
      requires Valid() && digest.Length == DIGEST && digest != buffer
      modifies this, state, buffer, digest
      ensures digest[..] == Sha256Spec.Sha256(old(msg))
      ensures bitcount == 0 && Hash() == Regs(0, 0, 0, 0, 0, 0, 0, 0) && buffer[..] == Wire.Zeros(BLOCK)
    {
      hide Blocks, InitialHash, Padded, DigestOf;
      LastRounds();
      WriteDigest(digest);
      Wipe();
    }
  }

  lemma SliceOn(m: seq<bv8>, d: seq<bv8>, pos: nat, n: nat)
    requires pos + n <= |d|
    ensures (m + d[..pos]) + d[pos..pos + n] == m + d[..pos + n]
  {
  }

  /** The first 56 bytes of the last block. */
  function EndOfPadding(tail: seq<bv8>): (s: seq<bv8>)
    ensures |s| == 56
  {
    if |tail| <= 55 then tail + [0x80] + Wire.Zeros(55 - |tail|) else Wire.Zeros(56)
  }

  lemma LastBlockIs(tail: seq<bv8>, length: seq<bv8>, s: seq<bv8>)
    requires |length| == 8 && s == EndOfPadding(tail) + length
    ensures s == if |tail| <= 55 then OneBlock(tail, length) else LateBlock(length)
  {
  }

  /** Completing the tail makes whole blocks only. */
  lemma FillTail(m: seq<bv8>, s: seq<bv8>)
    requires |m| % BLOCK + |s| == BLOCK
    ensures |m + s| % BLOCK == 0 && Whole(m + s) == Whole(m) + (Tail(m) + s) && Tail(m + s) == []
  {
  }

  lemma WholeAlready(m: seq<bv8>)
    requires |m| % BLOCK == 0
    ensures Whole(m) == m && Tail(m) == []
  {
  }

  /** Short additions leave the whole blocks as they are. */
  lemma KeepTail(m: seq<bv8>, s: seq<bv8>)
    requires |m| % BLOCK + |s| < BLOCK
    ensures Whole(m + s) == Whole(m) && Tail(m + s) == Tail(m) + s && |m + s| % BLOCK == |m| % BLOCK + |s|
  {
  }

  const TWO64: nat := 0x1_0000_0000_0000_0000

  /** The counter, although it wraps, tells how full the buffer is. */
  lemma UsedSpace(n: nat)
    ensures 8 * n % TWO64 / 8 % BLOCK == n % BLOCK
  {
    var q := 8 * n / TWO64;
    var k := 0x0080_0000_0000_0000 * q;
    assert 8 * n % TWO64 == 8 * (n - 64 * k);
    BlocksOff(n, k);
  }

  lemma BlocksOff(n: nat, k: nat)
    requires 64 * k <= n
    ensures (n - 64 * k) % 64 == n % 64
  {
  }

  lemma AddBits(n: nat, k: nat)
    ensures (8 * n % TWO64 + 8 * k) % TWO64 == 8 * (n + k) % TWO64
  {
  }

  lemma LengthField(n: nat)
    ensures BigNumber(8 * n % TWO64, 8) == BigNumber(8 * n, 8)
  {
    hide BigNumber;
    assert Wire.Pow256(4) == 0x1_0000_0000;
    assert Wire.Pow256(8) == TWO64;
    LowBytes(8 * n, 8);
    LowBytes(8 * n % TWO64, 8);
  }

  lemma NoRounds(r: Regs, m: seq<bv32>)
    requires |m| == 16
    ensures Rounds(r, m, 0) == r
  {
  }

  lemma NextRound(r: Regs, m: seq<bv32>, j: nat)
    requires |m| == 16 && j < 64
    ensures Rounds(r, m, j + 1) == Round(Rounds(r, m, j), K(j), W(m, j))
  {
    hide Round, K, W;
  }

  lemma InTwoSteps(t1: bv32, a: bv32, b: bv32, c: bv32)
    ensures Plus(Plus(t1, BigSigma0(a)), Maj(a, b, c)) == Plus(t1, T2(a, b, c))
  {
    hide BigSigma0, Maj, Plus;
    PlusAssociates(t1, BigSigma0(a), Maj(a, b, c));
  }

  lemma PlusAssociates(x: bv32, y: bv32, z: bv32)
    ensures Plus(Plus(x, y), z) == Plus(x, Plus(y, z))
  {
    calc {
      Plus(Plus(x, y), z);
      Plus(x + y, z);
      (x + y) + z;
      { Associates(x, y, z); }
      x + (y + z);
      Plus(x, y + z);
      Plus(x, Plus(y, z));
    }
  }

  lemma Associates(x: bv32, y: bv32, z: bv32)
    ensures (x + y) + z == x + (y + z)
  {
  }

  /** One buffer content: sixteen words that follow from the block. */
  lemma WindowTells(ws: seq<bv32>, ws': seq<bv32>, m: seq<bv32>)
    requires |ws| == |ws'| == |m| == 16 && Window(ws, m, 64) && Window(ws', m, 64)
    ensures ws == ws'
  {
    hide W;
    forall i | 0 <= i < 16 ensures ws[i] == ws'[i] {
      WindowAt(ws, m, 64, 48 + i);
      WindowAt(ws', m, 64, 48 + i);
    }
  }

  lemma AtStart(block: seq<bv8>, ws: seq<bv32>)
    requires |block| == BLOCK && |ws| == 16
    ensures Unread(block, Words(block), 0) && Window(ws, Words(block), 0)
  {
    hide BigWord;
  }
}
