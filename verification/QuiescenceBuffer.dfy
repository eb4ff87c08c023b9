/** The per-thread ring buffer of callbacks waiting for their grace period, and the loops that
    reclaim from it. */
module Quiescence {
  import opened Bits

  type Epoch = nat

  /** Destroys a storage, or whatever else somebody wants to be done later. */
  datatype Callback = Destroy(storage: nat) | Other(id: nat)

  /** A slot: the header in front of each epoch's callbacks, or a callback. */
  datatype Elem =
    | Unused
    | Header(epoch: Epoch, size: nat, prevSize: nat)
    | Call(callback: Callback)

  /** What a finalized epoch holds. */
  datatype Chunk = Chunk(epoch: Epoch, callbacks: seq<Callback>)

  // ---------------------------------------------------------------- the queue in a line of slots

  /** At `p` stands a chunk: its header, its callbacks, and behind them a header that knows the
      size of this chunk. */
  ghost predicate ChunkAt(line: seq<Elem>, p: nat, c: Chunk) {
    var n := 1 + |c.callbacks|;
    && 1 < n && p + n < |line|
    && line[p].Header? && line[p].epoch == c.epoch && line[p].size == n
    && (forall k | 0 <= k < |c.callbacks| :: line[p + 1 + k] == Call(c.callbacks[k]))
    && line[p + n].Header? && line[p + n].prevSize == n
  }

  /** The working epoch: a header at `p` and callbacks up to the end. */
  ghost predicate WorkingAt(line: seq<Elem>, p: nat, working: seq<Callback>) {
    && |line| == p + 1 + |working| && line[p].Header?
    && forall k | 0 <= k < |working| :: line[p + 1 + k] == Call(working[k])
  }

  /** `pos` tells where the chunks start and, last, where the working epoch starts. */
  ghost predicate Spaced(pos: seq<nat>, chunks: seq<Chunk>) {
    && |pos| == |chunks| + 1 && pos[0] == 0
    && (forall i | 0 <= i < |chunks| :: pos[i + 1] == pos[i] + 1 + |chunks[i].callbacks|)
    && (forall i | 0 <= i <= |chunks| :: pos[i] <= pos[|chunks|])
  }

  /** The slots hold the chunks in order and then the working epoch, nothing else. */
  ghost predicate Describes(line: seq<Elem>, pos: seq<nat>, chunks: seq<Chunk>, working: seq<Callback>) {
    && Spaced(pos, chunks)
    && (forall i {:trigger chunks[i]} | 0 <= i < |chunks| :: ChunkAt(line, pos[i], chunks[i]))
    && WorkingAt(line, pos[|chunks|], working)
  }

  /** Slots taken by finalized chunks. */
  function Length(chunks: seq<Chunk>): nat {
    if chunks == [] then 0 else Length(chunks[..|chunks| - 1]) + 1 + |chunks[|chunks| - 1].callbacks|
  }

  lemma {:induction false} SpacedLength(pos: seq<nat>, chunks: seq<Chunk>)
    requires Spaced(pos, chunks)
    ensures pos[|chunks|] == Length(chunks)
    decreases |chunks|
  {
    if chunks != [] {
      var n := |chunks| - 1;
      SpacedPrefix(pos, chunks, n);
      SpacedLength(pos[..n + 1], chunks[..n]);
    }
  }

  lemma {:induction false} SpacedMonotone(pos: seq<nat>, chunks: seq<Chunk>, i: nat, j: nat)
    requires Spaced(pos, chunks) && i <= j <= |chunks|
    ensures pos[i] <= pos[j]
    decreases j
  {
    if i < j {
      SpacedMonotone(pos, chunks, i, j - 1);
      assert pos[j - 1 + 1] == pos[j - 1] + 1 + |chunks[j - 1].callbacks|;
    }
  }

  lemma SpacedPrefix(pos: seq<nat>, chunks: seq<Chunk>, n: nat)
    requires Spaced(pos, chunks) && n <= |chunks|
    ensures Spaced(pos[..n + 1], chunks[..n])
  {
    forall i | 0 <= i <= n ensures pos[i] <= pos[n] {
      SpacedMonotone(pos, chunks, i, n);
    }
  }

  /** A chunk survives as long as its own slots and what the next header says about it do. */
  lemma ChunkKept(line: seq<Elem>, line': seq<Elem>, p: nat, p': nat, c: Chunk)
    requires ChunkAt(line, p, c) && p' + 1 + |c.callbacks| < |line'|
    requires line'[p'..p' + 1 + |c.callbacks|] == line[p..p + 1 + |c.callbacks|]
    requires line'[p' + 1 + |c.callbacks|].Header?
    requires line'[p' + 1 + |c.callbacks|].prevSize == line[p + 1 + |c.callbacks|].prevSize
    ensures ChunkAt(line', p', c)
  {
    var n := 1 + |c.callbacks|;
    assert line'[p'] == line'[p'..p' + n][0] == line[p..p + n][0];
    forall k | 0 <= k < |c.callbacks| ensures line'[p' + 1 + k] == Call(c.callbacks[k]) {
      assert line'[p' + 1 + k] == line'[p'..p' + n][1 + k] == line[p..p + n][1 + k];
    }
  }

  /** One more callback at the end joins the working epoch. */
  lemma PushDescribes(line: seq<Elem>, pos: seq<nat>, chunks: seq<Chunk>, working: seq<Callback>, c: Callback)
    requires Describes(line, pos, chunks, working)
    ensures Describes(line + [Call(c)], pos, chunks, working + [c])
  {
    forall i | 0 <= i < |chunks| ensures ChunkAt(line + [Call(c)], pos[i], chunks[i]) {
      ChunkKept(line, line + [Call(c)], pos[i], pos[i], chunks[i]);
    }
  }

  /** Writing epoch and size into the working header and starting a new one closes the chunk. */
  lemma FinalizeDescribes(line: seq<Elem>, pos: seq<nat>, chunks: seq<Chunk>, working: seq<Callback>,
                          header: Elem, next: Elem)
    requires Describes(line, pos, chunks, working) && working != []
    requires header.Header? && header.size == 1 + |working|
    requires header.prevSize == line[pos[|chunks|]].prevSize
    requires next.Header? && next.prevSize == 1 + |working|
    ensures var m := pos[|chunks|];
      Describes(line[m := header] + [next], pos + [m + 1 + |working|], chunks + [Chunk(header.epoch, working)], [])
  {
    var m, last := pos[|chunks|], Chunk(header.epoch, working);
    var line', pos', chunks' := line[m := header] + [next], pos + [m + 1 + |working|], chunks + [last];
    forall i | 0 <= i < |chunks'| ensures ChunkAt(line', pos'[i], chunks'[i]) {
      if i < |chunks| {
        assert ChunkAt(line, pos[i], chunks[i]) && pos[i + 1] <= m;
        ChunkKept(line, line', pos[i], pos[i], chunks[i]);
      }
    }
    forall i | 0 <= i < |chunks'| ensures pos'[i + 1] == pos'[i] + 1 + |chunks'[i].callbacks| {
      assert i < |chunks| ==> pos[i + 1] == pos[i] + 1 + |chunks[i].callbacks|;
    }
  }

  /** Dropping the working callbacks leaves the header and everything before it. */
  lemma ClearDescribes(line: seq<Elem>, pos: seq<nat>, chunks: seq<Chunk>, working: seq<Callback>)
    requires Describes(line, pos, chunks, working)
    ensures Describes(line[..pos[|chunks|] + 1], pos, chunks, [])
  {
    forall i | 0 <= i < |chunks| ensures ChunkAt(line[..pos[|chunks|] + 1], pos[i], chunks[i]) {
      assert pos[i + 1] <= pos[|chunks|];
      ChunkKept(line, line[..pos[|chunks|] + 1], pos[i], pos[i], chunks[i]);
    }
  }

  function Shifted(pos: seq<nat>, d: nat): (r: seq<nat>)
    requires |pos| > 0 && forall i | 0 < i < |pos| :: d <= pos[i]
    ensures |r| == |pos| - 1 && forall i | 0 <= i < |r| :: r[i] == pos[i + 1] - d
  {
    seq(|pos| - 1, i requires 0 <= i < |pos| - 1 => pos[i + 1] - d)
  }

  lemma DropSpaced(pos: seq<nat>, chunks: seq<Chunk>)
    requires Spaced(pos, chunks) && chunks != []
    ensures pos[1] == 1 + |chunks[0].callbacks| <= pos[|chunks|]
    ensures forall i | 0 < i < |pos| :: pos[1] <= pos[i]
    ensures Spaced(Shifted(pos, pos[1]), chunks[1..])
  {
    assert pos[0 + 1] == pos[0] + 1 + |chunks[0].callbacks|;
    forall i | 0 < i < |pos| ensures pos[1] <= pos[i] {
      SpacedMonotone(pos, chunks, 1, i);
    }
    var pos', chunks' := Shifted(pos, pos[1]), chunks[1..];
    forall i | 0 <= i < |chunks'| ensures pos'[i + 1] == pos'[i] + 1 + |chunks'[i].callbacks| {
      assert pos[i + 1 + 1] == pos[i + 1] + 1 + |chunks[i + 1].callbacks|;
    }
  }

  /** Without the first chunk, everything moves up by its size. */
  lemma DropDescribes(line: seq<Elem>, pos: seq<nat>, chunks: seq<Chunk>, working: seq<Callback>)
    requires Describes(line, pos, chunks, working) && chunks != []
    ensures pos[1] == 1 + |chunks[0].callbacks| <= pos[|chunks|]
    ensures forall i | 0 < i < |pos| :: pos[1] <= pos[i]
    ensures Describes(line[pos[1]..], Shifted(pos, pos[1]), chunks[1..], working)
  {
    DropSpaced(pos, chunks);
    var d, line', pos', chunks' := pos[1], line[pos[1]..], Shifted(pos, pos[1]), chunks[1..];
    forall i | 0 <= i < |chunks'| ensures ChunkAt(line', pos'[i], chunks'[i]) {
      var p, n := pos[i + 1], 1 + |chunks[i + 1].callbacks|;
      assert ChunkAt(line, p, chunks[i + 1]);
      assert line'[p - d..p - d + n] == line[p..p + n];
      ChunkKept(line, line', p, p - d, chunks'[i]);
    }
  }

  // ---------------------------------------------------------------- positions on the ring

  /** Where index `i` lands on a ring of `cap` slots. */
  function Mod(i: int, cap: nat): (r: nat)
    requires cap > 0
    ensures r < cap
    decreases if i < 0 then cap - i else i
  {
    if i < 0 then Mod(i + cap, cap) else if i < cap then i else Mod(i - cap, cap)
  }

  /** It is the remainder, for negative differences as well. */
  lemma {:induction false} ModIsRemainder(i: int, cap: nat)
    requires cap > 0
    ensures Mod(i, cap) == i % cap
    decreases if i < 0 then cap - i else i
  {
    if i < 0 {
      ModIsRemainder(i + cap, cap);
      Turn(i, cap);
    } else if i >= cap {
      ModIsRemainder(i - cap, cap);
      Turn(i - cap, cap);
    }
  }

  lemma Turn(i: int, cap: nat)
    requires cap > 0
    ensures (i + cap) % cap == i % cap
  {
    assert i + cap == cap * (i / cap + 1) + i % cap;
    Uniquely(i + cap, cap, i / cap + 1, i % cap);
  }

  lemma {:induction false} ModStep(i: int, cap: nat, d: int)
    requires cap > 0
    ensures Mod(Mod(i, cap) + d, cap) == Mod(i + d, cap)
    decreases if i < 0 then cap - i else i
  {
    if i < 0 {
      ModStep(i + cap, cap, d);
      ModTurn(i + d, cap);
    } else if i >= cap {
      ModStep(i - cap, cap, d);
      ModTurn(i - cap + d, cap);
    }
  }

  lemma ModTurn(i: int, cap: nat)
    requires cap > 0
    ensures Mod(i + cap, cap) == Mod(i, cap)
  {
  }

  /** The distance from `base` to a position `n` slots further, `n` less than a whole turn. */
  lemma ModDistance(i: int, base: nat, n: nat, cap: nat)
    requires cap > 0 && n < cap && Mod(i, cap) == Mod(base + n, cap)
    ensures Mod(i - base, cap) == n
  {
    ModStep(i, cap, 0 - base);
    ModStep(base + n, cap, 0 - base);
  }

  /** Slots less than a turn apart are different. */
  lemma ModDistinct(base: nat, j: nat, k: nat, cap: nat)
    requires cap > 0 && j < k < j + cap
    ensures Mod(base + j, cap) != Mod(base + k, cap)
  {
    if Mod(base + j, cap) == Mod(base + k, cap) {
      ModDistance(base + j, base + j, 0, cap);
      ModDistance(base + j, base + j, k - j, cap);
    }
  }

  /** A position wraps around to `base` after exactly one turn. */
  lemma ModFull(base: nat, n: nat, cap: nat)
    requires base < cap && 0 < n <= cap
    ensures Mod(base + n, cap) == base <==> n == cap
  {
    if n < cap {
      ModDistinct(base, 0, n, cap);
    }
  }

  /** `n` slots of a ring, starting at `from`. */
  function Ring(s: seq<Elem>, from: nat, n: nat): (r: seq<Elem>)
    requires |s| > 0
    ensures |r| == n && forall k | 0 <= k < n :: r[k] == s[Mod(from + k, |s|)]
  {
    seq(n, k requires 0 <= k < n => s[Mod(from + k, |s|)])
  }

  lemma RingPush(s: seq<Elem>, from: nat, n: nat, at: nat, e: Elem)
    requires n < |s| && at == Mod(from + n, |s|)
    ensures Ring(s[at := e], from, n + 1) == Ring(s, from, n) + [e]
  {
    forall k | 0 <= k < n ensures Ring(s[at := e], from, n + 1)[k] == Ring(s, from, n)[k] {
      ModDistinct(from, k, n, |s|);
    }
  }

  lemma RingUpdate(s: seq<Elem>, from: nat, n: nat, m: nat, at: nat, e: Elem)
    requires m < n <= |s| && at == Mod(from + m, |s|)
    ensures Ring(s[at := e], from, n) == Ring(s, from, n)[m := e]
  {
    forall k | 0 <= k < n && k != m ensures Ring(s[at := e], from, n)[k] == Ring(s, from, n)[k] {
      ModDistinct(from, if k < m then k else m, if k < m then m else k, |s|);
    }
  }

  lemma RingTake(s: seq<Elem>, from: nat, n: nat, m: nat)
    requires m <= n && |s| > 0
    ensures Ring(s, from, m) == Ring(s, from, n)[..m]
  {
  }

  lemma RingDrop(s: seq<Elem>, from: nat, n: nat, d: nat)
    requires d <= n && |s| > 0
    ensures Ring(s, Mod(from + d, |s|), n - d) == Ring(s, from, n)[d..]
  {
    forall k | 0 <= k < n - d
      ensures Ring(s, Mod(from + d, |s|), n - d)[k] == Ring(s, from, n)[d..][k]
    {
      ModStep(from + d, |s|, k);
    }
  }

  /** The two pieces copied by a reallocation, put one after the other, are the ring unrolled. */
  lemma RingUnrolled(s: seq<Elem>, from: nat)
    requires from < |s|
    ensures Ring(s, from, |s|) == s[from..] + s[..from]
  {
    forall k | 0 <= k < |s| ensures Ring(s, from, |s|)[k] == (s[from..] + s[..from])[k] {
      if from + k >= |s| {
        ModTurn(from + k - |s|, |s|);
      }
    }
  }

  lemma RingPrefix(s: seq<Elem>, n: nat)
    requires n <= |s| && |s| > 0
    ensures Ring(s, 0, n) == s[..n]
  {
  }

  // ---------------------------------------------------------------- the ring holds the line

  /** Array and indices hold the slots `line`, of which the working epoch starts at `m`. */
  ghost predicate Holds(s: seq<Elem>, ringBegin: nat, epochBegin: nat, writePos: nat, line: seq<Elem>, m: nat) {
    && 2 < |s| && ringBegin < |s| && m <= |line| <= |s|
    && epochBegin == Mod(ringBegin + m, |s|)
    && Mod(writePos, |s|) == Mod(ringBegin + |line|, |s|)
    && Ring(s, ringBegin, |line|) == line
  }

  /** The index arithmetic recovers the sizes, wherever the ring starts and however far `writePos`
      has run. */
  lemma HoldsSizes(s: seq<Elem>, ringBegin: nat, epochBegin: nat, writePos: nat, line: seq<Elem>, m: nat)
    requires Holds(s, ringBegin, epochBegin, writePos, line, m) && |line| < |s|
    ensures Mod(writePos - ringBegin, |s|) == |line|
    ensures Mod(writePos - epochBegin, |s|) == |line| - m
  {
    ModDistance(writePos, ringBegin, |line|, |s|);
    ModStep(ringBegin + m, |s|, |line| - m);
    ModDistance(writePos, epochBegin, |line| - m, |s|);
  }

  lemma HoldsPush(s: seq<Elem>, ringBegin: nat, epochBegin: nat, writePos: nat, line: seq<Elem>, m: nat, e: Elem)
    requires Holds(s, ringBegin, epochBegin, writePos, line, m) && |line| < |s|
    ensures Holds(s[Mod(writePos, |s|) := e], ringBegin, epochBegin, writePos + 1, line + [e], m)
    ensures Mod(writePos + 1, |s|) == ringBegin <==> |line + [e]| == |s|
  {
    RingPush(s, ringBegin, |line|, Mod(writePos, |s|), e);
    ModStep(writePos, |s|, 1);
    ModStep(ringBegin + |line|, |s|, 1);
    ModFull(ringBegin, |line| + 1, |s|);
  }

  lemma HoldsUpdate(s: seq<Elem>, ringBegin: nat, epochBegin: nat, writePos: nat, line: seq<Elem>, m: nat, e: Elem)
    requires Holds(s, ringBegin, epochBegin, writePos, line, m) && m < |line|
    ensures s[epochBegin] == line[m]
    ensures Holds(s[epochBegin := e], ringBegin, epochBegin, writePos, line[m := e], m)
  {
    RingUpdate(s, ringBegin, |line|, m, epochBegin, e);
  }

  lemma HoldsGrow(s: seq<Elem>, ringBegin: nat, epochBegin: nat, writePos: nat, line: seq<Elem>, m: nat, s': seq<Elem>)
    requires Holds(s, ringBegin, epochBegin, writePos, line, m) && m < |line|
    requires |line| == |s| && |s'| == 2 * |s| && s'[..|s|] == s[ringBegin..] + s[..ringBegin]
    ensures Holds(s', 0, Mod(epochBegin - ringBegin, |s|), |s|, line, m)
  {
    RingUnrolled(s, ringBegin);
    RingPrefix(s', |s|);
    ModStep(ringBegin + m, |s|, 0 - ringBegin);
  }

  lemma HoldsClear(s: seq<Elem>, ringBegin: nat, epochBegin: nat, writePos: nat, line: seq<Elem>, m: nat)
    requires Holds(s, ringBegin, epochBegin, writePos, line, m) && m < |line|
    ensures Holds(s, ringBegin, epochBegin, epochBegin + 1, line[..m + 1], m)
  {
    RingTake(s, ringBegin, |line|, m + 1);
    ModStep(ringBegin + m, |s|, 1);
  }

  lemma HoldsDrop(s: seq<Elem>, ringBegin: nat, epochBegin: nat, writePos: nat, line: seq<Elem>, m: nat,
                  d: nat, begin: nat, rest: seq<Elem>, m': nat)
    requires Holds(s, ringBegin, epochBegin, writePos, line, m) && d <= m < |line|
    requires begin == Mod(ringBegin + d, |s|) && rest == line[d..] && m' == m - d
    ensures Holds(s, begin, epochBegin, writePos, rest, m')
    ensures s[begin] == line[d]
  {
    RingDrop(s, ringBegin, |line|, d);
    ModStep(ringBegin + d, |s|, m - d);
    ModStep(ringBegin + d, |s|, |line| - d);
  }

  lemma HoldsAt(s: seq<Elem>, ringBegin: nat, epochBegin: nat, writePos: nat, line: seq<Elem>, m: nat, k: nat)
    requires Holds(s, ringBegin, epochBegin, writePos, line, m) && k < |line|
    ensures s[Mod(ringBegin + k, |s|)] == line[k]
  {
  }

  lemma HoldsFirst(s: seq<Elem>, ringBegin: nat, epochBegin: nat, writePos: nat, line: seq<Elem>, m: nat)
    requires Holds(s, ringBegin, epochBegin, writePos, line, m) && line != []
    ensures s[ringBegin] == line[0]
  {
    HoldsAt(s, ringBegin, epochBegin, writePos, line, m, 0);
  }

  lemma HoldsBack(s: seq<Elem>, ringBegin: nat, epochBegin: nat, writePos: nat, line: seq<Elem>, m: nat, back: nat)
    requires Holds(s, ringBegin, epochBegin, writePos, line, m) && back <= m < |line|
    ensures s[Mod(epochBegin - back, |s|)] == line[m - back]
  {
    var at := m - back;
    ModStep(ringBegin + m, |s|, at - m);
    HoldsAt(s, ringBegin, epochBegin, writePos, line, m, at);
  }

  // ---------------------------------------------------------------- the buffer

  class QuiescenceBuffer {
    const reclaimLimit: nat
    var writePos: nat
    var epochBegin: nat
    var ringBegin: nat
    var buffer: array<Elem>
    ghost var line: seq<Elem>
    ghost var pos: seq<nat>
    ghost var chunks: seq<Chunk>
    ghost var working: seq<Callback>

    /** The ring holds `line`, which may fill it; the working epoch starts behind the chunks. */
    ghost predicate Holding()
      reads this, buffer
    {
      && PowerOfTwo(Capacity()) && PowerOfTwo(reclaimLimit) && reclaimLimit > 2
      && pos != [] && Holds(buffer[..], ringBegin, epochBegin, writePos, line, pos[|pos| - 1])
    }

    /** Between operations one slot is free, and the line is the queue and the working epoch. */
    ghost predicate Valid()
      reads this, buffer
    {
      Holding() && |line| < Capacity() && Describes(line, pos, chunks, working)
    }

    function Capacity(): nat
      reads this
    {
      buffer.Length
    }

    function Wrap(index: int): nat
      requires Capacity() > 0
      reads this
    {
      Mod(index, Capacity())
    }

    /** What the code computes: the index as an unsigned word, masked by one less than the capacity. */
    lemma WrapIsMask(index: int)
      requires Valid() && Capacity() <= WORDS
      ensures Wrap(index) == And(ToWord(index), Capacity() - 1)
    {
      ModIsRemainder(index, Capacity());
      MaskedWord(index, Capacity());
    }

    function Size(): nat
      requires Capacity() > 0
      reads this
    {
      Wrap(writePos - ringBegin)
    }

    function WorkingEpochSize(): nat
      requires Capacity() > 0
      reads this
    {
      Wrap(writePos - epochBegin)
    }

    lemma Sizes()
      requires Valid()
      ensures Size() == |line| == Length(chunks) + 1 + |working| && WorkingEpochSize() == 1 + |working|
    {
      SpacedLength(pos, chunks);
      HoldsSizes(buffer[..], ringBegin, epochBegin, writePos, line, pos[|chunks|]);
    }

    constructor (reclaimLimit: nat)
      requires PowerOfTwo(reclaimLimit) && reclaimLimit > 2
      ensures Valid() && fresh(buffer) && chunks == [] && working == []
      ensures this.reclaimLimit == reclaimLimit && Capacity() == reclaimLimit * 2
    {
      this.reclaimLimit := reclaimLimit;
      writePos, epochBegin, ringBegin := 1, 0, 0;
      buffer := new Elem[reclaimLimit * 2](_ => Unused);
      chunks, working, line, pos := [], [], [Header(0, 0, 0)], [0];
      new;
      buffer[0] := Header(0, 0, 0);
    }

    predicate Empty()
      requires Valid()
      reads this, buffer
      ensures Empty() <==> chunks == [] && working == []
    {
      Sizes();
      Size() == 1
    }

    predicate AllocatesOnNextPush()
      requires Capacity() > 0
      reads this
    {
      Wrap(writePos - ringBegin) == Capacity() - 1
    }

    predicate WorkingEpochEmpty()
      requires Capacity() > 0
      reads this
    {
      WorkingEpochSize() == 1
    }

    /** Doubles a full ring.  Everything keeps its position in the queue. */
    method ReserveMore()
      requires Holding() && pos[|pos| - 1] < |line| == Capacity()
      modifies this`buffer, this`epochBegin, this`writePos, this`ringBegin
      ensures Holding() && fresh(buffer) && Capacity() == 2 * old(Capacity())
    {
      ghost var s := buffer[..];
      var newBuffer := new Elem[Capacity() * 2](_ => Unused);
      var firstChunkSize := Capacity() - ringBegin;
      forall i | 0 <= i < firstChunkSize {
        newBuffer[i] := buffer[ringBegin + i];
      }
      forall i | 0 <= i < ringBegin {
        newBuffer[firstChunkSize + i] := buffer[i];
      }
      assert newBuffer[..][..|s|] == s[ringBegin..] + s[..ringBegin];
      HoldsGrow(s, ringBegin, epochBegin, writePos, line, pos[|pos| - 1], newBuffer[..]);
      epochBegin := Wrap(epochBegin - ringBegin);
      writePos := Capacity();
      ringBegin := 0;
      buffer := newBuffer;
    }

    /** Stores one slot behind the line. */
    method Place(e: Elem)
      requires Holding() && |line| < Capacity()
      modifies this`writePos, this`line, buffer
      ensures Holding() && line == old(line) + [e]
      ensures Wrap(writePos) == ringBegin <==> |line| == Capacity()
    {
      HoldsPush(buffer[..], ringBegin, epochBegin, writePos, line, pos[|pos| - 1], e);
      buffer[Wrap(writePos)] := e;
      assert buffer[..] == old(buffer[..])[Wrap(writePos) := e];
      writePos := writePos + 1;
      line := line + [e];
    }

    /** Stores one slot behind the line, doubling the ring if that fills it. */
    method Push(e: Elem)
      requires Holding() && |line| < Capacity()
      modifies this`buffer, this`epochBegin, this`writePos, this`ringBegin, this`line, buffer
      ensures Holding() && |line| < Capacity() && (buffer == old(buffer) || fresh(buffer))
      ensures line == old(line) + [e]
      ensures Capacity() == if |line| == old(Capacity()) then 2 * old(Capacity()) else old(Capacity())
    {
      Place(e);
      if Wrap(writePos) == ringBegin {
        ReserveMore();
      }
    }

    method EmplaceBack(c: Callback)
      requires Valid()
      modifies this, buffer
      ensures Valid() && (buffer == old(buffer) || fresh(buffer))
      ensures chunks == old(chunks) && working == old(working) + [c]
      ensures Capacity() == if old(AllocatesOnNextPush()) then 2 * old(Capacity()) else old(Capacity())
    {
      Sizes();
      PushDescribes(line, pos, chunks, working, c);
      Push(Call(c));
      working := working + [c];
    }

    /** The same where the caller has seen that no allocation is due. */
    method UncheckedEmplaceBack(c: Callback)
      requires Valid() && !AllocatesOnNextPush()
      modifies this`writePos, this`line, this`working, buffer
      ensures Valid() && chunks == old(chunks) && working == old(working) + [c]
    {
      Sizes();
      PushDescribes(line, pos, chunks, working, c);
      Place(Call(c));
      working := working + [c];
    }

    /** Drops the callbacks of a failed attempt. */
    method ClearWorkingEpoch()
      requires Valid()
      modifies this`writePos, this`working, this`line
      ensures Valid() && chunks == old(chunks) && working == []
    {
      ClearDescribes(line, pos, chunks, working);
      HoldsClear(buffer[..], ringBegin, epochBegin, writePos, line, pos[|chunks|]);
      writePos := epochBegin + 1;
      line := line[..pos[|chunks|] + 1];
      working := [];
    }

    /** Closes the working epoch; tells whether there is enough queued to reclaim. */
    method FinalizeEpoch(epoch: Epoch) returns (due: bool)
      requires Valid()
      modifies this, buffer
      ensures Valid() && (buffer == old(buffer) || fresh(buffer)) && working == []
      ensures chunks == if old(working) == [] then old(chunks) else old(chunks) + [Chunk(epoch, old(working))]
      ensures due <==> old(working) != [] && Length(chunks) + 1 >= reclaimLimit
    {
      Sizes();
      if WorkingEpochEmpty() {
        return false;
      }
      CloseEpoch(epoch);
      Sizes();
      return Size() >= reclaimLimit;
    }

    /** Overwrites the header of the working epoch. */
    method Stamp(header: Elem)
      requires Holding() && pos[|pos| - 1] < |line|
      modifies this`line, buffer
      ensures Holding() && line == old(line)[pos[|pos| - 1] := header]
    {
      ghost var m := pos[|pos| - 1];
      HoldsUpdate(buffer[..], ringBegin, epochBegin, writePos, line, m, header);
      buffer[epochBegin] := header;
      assert buffer[..] == old(buffer[..])[epochBegin := header];
      line := line[m := header];
    }

    /** Starts the next working epoch behind the line. */
    method OpenEpoch(next: Elem, ghost done: Chunk)
      requires Holding() && |line| < Capacity()
      modifies this, buffer
      ensures Holding() && |line| < Capacity() && (buffer == old(buffer) || fresh(buffer))
      ensures line == old(line) + [next] && pos == old(pos) + [|old(line)|]
      ensures chunks == old(chunks) + [done] && working == []
    {
      chunks, working, pos := chunks + [done], [], pos + [|line|];
      epochBegin := Wrap(writePos);
      Push(next);
    }

    /** Overwrites the working header and writes the next one behind the line. */
    method Seal(header: Elem, next: Elem, ghost done: Chunk)
      requires Holding() && pos[|pos| - 1] < |line| < Capacity()
      requires Describes(line[pos[|pos| - 1] := header] + [next], pos + [|line|], chunks + [done], [])
      modifies this, buffer
      ensures Valid() && (buffer == old(buffer) || fresh(buffer)) && working == []
      ensures chunks == old(chunks) + [done]
    {
      ghost var line', pos', chunks' := line[pos[|pos| - 1] := header] + [next], pos + [|line|], chunks + [done];
      Stamp(header);
      OpenEpoch(next, done);
      assert line == line' && pos == pos' && chunks == chunks';
    }

    /** The stores of `finalize_epoch`.  Epoch and size of the new header are not initialized. */
    method CloseEpoch(epoch: Epoch)
      requires Valid() && working != []
      modifies this, buffer
      ensures Valid() && (buffer == old(buffer) || fresh(buffer)) && working == []
      ensures chunks == old(chunks) + [Chunk(epoch, old(working))]
    {
      Sizes();
      ghost var m := pos[|chunks|];
      HoldsAt(buffer[..], ringBegin, epochBegin, writePos, line, m, m);
      var prevSize := WorkingEpochSize();
      var header := Header(epoch, prevSize, buffer[epochBegin].prevSize);
      var garbage: Epoch, junk: nat := *, *;
      var next := Header(garbage, junk, prevSize);
      FinalizeDescribes(line, pos, chunks, working, header, next);
      Seal(header, next, Chunk(epoch, working));
    }

    /** Runs the callbacks on the ring from index `begin` up to `end`. */
    method Run(begin: nat, end: nat, ghost first: seq<Callback>) returns (ran: seq<Callback>)
      requires Capacity() > 0 && end == begin + |first|
      requires forall k {:trigger first[k]} | 0 <= k < |first| :: buffer[Wrap(begin + k)] == Call(first[k])
      ensures ran == first
    {
      var curIdx := begin;
      ran := [];
      while curIdx != end
        invariant begin <= curIdx <= end
        invariant ran == first[..curIdx - begin]
      {
        assert first[..curIdx - begin + 1] == first[..curIdx - begin] + [first[curIdx - begin]];
        ran := ran + [buffer[Wrap(curIdx)].callback];
        curIdx := curIdx + 1;
      }
    }

    /** Runs the callbacks of the oldest chunk, in order, and drops the chunk. */
    method DoFirstEpochCallbacks() returns (ran: seq<Callback>)
      requires Valid() && working == [] && chunks != []
      modifies this`ringBegin, this`chunks, this`line, this`pos
      ensures Valid() && working == [] && old(chunks) == [Chunk(old(chunks)[0].epoch, ran)] + chunks
    {
      ghost var c := chunks[0];
      AtFront();
      var curSize := buffer[ringBegin].size;
      ran := Run(ringBegin + 1, ringBegin + curSize, c.callbacks);
      assert chunks == [c] + chunks[1..];
      DropFront(ringBegin + curSize);
    }

    lemma AtFront()
      requires Valid() && chunks != []
      ensures buffer[ringBegin].Header? && buffer[ringBegin].epoch == chunks[0].epoch
      ensures buffer[ringBegin].size == 1 + |chunks[0].callbacks|
      ensures forall k {:trigger chunks[0].callbacks[k]} | 0 <= k < |chunks[0].callbacks| ::
                buffer[Wrap(ringBegin + 1 + k)] == Call(chunks[0].callbacks[k])
    {
      var c := chunks[0];
      assert ChunkAt(line, pos[0], c);
      HoldsFirst(buffer[..], ringBegin, epochBegin, writePos, line, pos[|chunks|]);
      forall k | 0 <= k < |c.callbacks| ensures buffer[Wrap(ringBegin + 1 + k)] == Call(c.callbacks[k]) {
        HoldsAt(buffer[..], ringBegin, epochBegin, writePos, line, pos[|chunks|], 1 + k);
      }
    }

    /** Moves the front of the ring behind the oldest chunk. */
    method DropFront(curIdx: nat)
      requires Valid() && chunks != [] && curIdx == ringBegin + 1 + |chunks[0].callbacks|
      modifies this`ringBegin, this`chunks, this`line, this`pos
      ensures Valid() && chunks == old(chunks)[1..]
    {
      ghost var m, d, begin := pos[|chunks|], pos[1], Wrap(curIdx);
      DropDescribes(line, pos, chunks, working);
      ghost var line', pos' := line[d..], Shifted(pos, d);
      HoldsDrop(buffer[..], ringBegin, epochBegin, writePos, line, m, d, begin, line', m - d);
      assert ChunkAt(line, pos[0], chunks[0]);
      assert buffer[Wrap(curIdx)].Header? && buffer[Wrap(curIdx)].prevSize == d;
      SetFront(Wrap(curIdx), line', pos', chunks[1..]);
    }

    method SetFront(begin: nat, ghost line': seq<Elem>, ghost pos': seq<nat>, ghost chunks': seq<Chunk>)
      requires PowerOfTwo(Capacity()) && PowerOfTwo(reclaimLimit) && reclaimLimit > 2
      requires pos' != [] && Holds(buffer[..], begin, epochBegin, writePos, line', pos'[|pos'| - 1])
      modifies this`ringBegin, this`chunks, this`line, this`pos
      ensures Holding() && ringBegin == begin && chunks == chunks' && line == line' && pos == pos'
    {
      ringBegin := begin;
      line := line';
      pos := pos';
      chunks := chunks';
    }

    /** The epoch of the newest chunk. */
    function BackEpoch(): (e: Epoch)
      requires Valid() && chunks != []
      reads this, buffer
      ensures e == chunks[|chunks| - 1].epoch
    {
      ghost var n, m := |chunks| - 1, pos[|chunks|];
      assert ChunkAt(line, pos[n], chunks[n]) && pos[n + 1] == pos[n] + 1 + |chunks[n].callbacks|;
      HoldsAt(buffer[..], ringBegin, epochBegin, writePos, line, m, m);
      HoldsBack(buffer[..], ringBegin, epochBegin, writePos, line, m, line[m].prevSize);
      var idx := Wrap(epochBegin - buffer[epochBegin].prevSize);
      buffer[idx].epoch
    }

    /** The epoch of the oldest chunk. */
    function FrontEpoch(): (e: Epoch)
      requires Valid() && chunks != []
      reads this, buffer
      ensures e == chunks[0].epoch
    {
      AtFront();
      buffer[ringBegin].epoch
    }
  }
}
