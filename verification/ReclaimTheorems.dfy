/** What reclamation promises, for every run of transactions and reclaiming threads. */
module ReclaimTheorems {
  import opened CommitLog
  import opened Options
  import opened Stm
  import opened StmInvariant
  import opened StmActor
  import opened Reclaim
  import opened ReclaimInvariant
  import opened ReclaimPlaces
  import opened ReclaimGrace
  import opened ReclaimFree

  /** The `i`th move, possible where it is made.  Every move of a run is; contracts that speak of one
      move name it. */
  ghost predicate MoveAt(worlds: seq<World>, moves: seq<Move>, i: nat)
    requires |worlds| == |moves| + 1 && i < |moves|
  {
    CanMove(worlds[i], moves[i]) && worlds[i + 1] == Step(worlds[i], moves[i])
  }

  ghost predicate WorldRun(worlds: seq<World>, moves: seq<Move>) {
    && |worlds| == |moves| + 1
    && InitWorld(worlds[0])
    && forall i {:trigger MoveAt(worlds, moves, i)} | 0 <= i < |moves| :: MoveAt(worlds, moves, i)
  }

  lemma InitHolds(w: World)
    requires InitWorld(w)
    ensures WorldInv(w)
  {
    InitInv(w.stm);
    forall t | t in w.agents ensures AgentInv(w, t) && AgentPlaced(w, t) && WritesPlaced(w, t) {
      assert w.stm.threads[t] == NewThread;
    }
    forall x | x in w.stm.mem ensures CellPlaced(w, x) {
      assert w.stm.mem[x] == Cell(0, At(w.stm.init, x), None);
    }
  }

  lemma {:induction false} RunKeeps(worlds: seq<World>, moves: seq<Move>, i: nat)
    requires WorldRun(worlds, moves) && i < |worlds|
    ensures WorldInv(worlds[i])
  {
    if i == 0 {
      InitHolds(worlds[0]);
    } else {
      RunKeeps(worlds, moves, i - 1);
      assert MoveAt(worlds, moves, i - 1);
      WorldKept(worlds[i - 1], moves[i - 1]);
    }
  }

  // ---------------------------------------------------------------- grace period

  lemma StoreFreedStays(w: World, a: Action, v: Storage)
    requires StoreReady(w, a) && v in w.place && w.place[v].Freed?
    ensures v in TxPlace(w, a) && TxPlace(w, a)[v].Freed?
  {
    StoreSwaps(w, a);
  }

  lemma TxFreedStays(w: World, a: Action, v: Storage)
    requires TxEnabled(w, a) && Inv(w.stm) && PlacesInv(w) && v in w.place && w.place[v].Freed?
    ensures v in TxPlace(w, a) && TxPlace(w, a)[v].Freed?
  {
    if a.StoreOne? && a.x in w.stm.heap {
      assert ThreadInv(w.stm, a.t) && CellInv(w.stm, a.x);
      assert WritesPlaced(w, a.t) && CellPlaced(w, a.x) && WritePlaced(w, a.t, a.x);
      StoreFreedStays(w, a, v);
    } else if a.Leave? && w.stm.threads[a.t].pc.Failing? {
      assert WritesPlaced(w, a.t);
      PendingWrites(w, a);
    }
  }

  lemma FreedStays(w: World, m: Move, v: Storage)
    requires WorldInv(w) && CanMove(w, m) && v in w.place && w.place[v].Freed?
    ensures v in Step(w, m).place && Step(w, m).place[v].Freed?
    ensures v !in FreedBy(w, m)
  {
    FreedWas(w, m);
    if m.Tx? {
      TxFreedStays(w, m.a, v);
    }
  }

  lemma FreeingFrees(w: World, m: Move, v: Storage)
    requires WorldInv(w) && CanMove(w, m) && v in FreedBy(w, m)
    ensures v in Step(w, m).place && Step(w, m).place[v].Freed?
  {
    FreedWas(w, m);
  }

  lemma FreedStaysAt(worlds: seq<World>, moves: seq<Move>, i: nat, v: Storage)
    requires WorldRun(worlds, moves) && i < |moves| && MoveAt(worlds, moves, i)
    requires v in FreedBy(worlds[i], moves[i]) || (v in worlds[i].place && worlds[i].place[v].Freed?)
    ensures v in worlds[i + 1].place && worlds[i + 1].place[v].Freed?
  {
    RunKeeps(worlds, moves, i);
    if v in FreedBy(worlds[i], moves[i]) {
      FreeingFrees(worlds[i], moves[i], v);
    } else {
      FreedStays(worlds[i], moves[i], v);
    }
  }

  lemma {:induction false} OnceFreed(worlds: seq<World>, moves: seq<Move>, i: nat, j: nat, v: Storage)
    requires WorldRun(worlds, moves) && i < j < |worlds|
    requires MoveAt(worlds, moves, i) && v in FreedBy(worlds[i], moves[i])
    ensures v in worlds[j].place && worlds[j].place[v].Freed?
  {
    if j > i + 1 {
      OnceFreed(worlds, moves, i, j - 1, v);
    }
    assert MoveAt(worlds, moves, j - 1);
    FreedStaysAt(worlds, moves, j - 1, v);
  }

  /** When a callback frees a storage, and ever after, no attempt of any thread holds it from a
      read of a heap variable. */
  lemma GracePeriod(worlds: seq<World>, moves: seq<Move>, i: nat, j: nat, v: Storage, d: Tid, x: Var)
    requires WorldRun(worlds, moves) && i <= j < |worlds| && i < |moves|
    requires MoveAt(worlds, moves, i) && v in FreedBy(worlds[i], moves[i])
    requires d in worlds[j].stm.threads && x in worlds[j].stm.heap
    ensures (x, v) !in worlds[j].stm.threads[d].held
  {
    RunKeeps(worlds, moves, j);
    if i == j {
      FreedIsUnheld(worlds[i], moves[i], v);
    } else {
      OnceFreed(worlds, moves, i, j, v);
      assert NobodyHolds(worlds[j].stm, v);
    }
    assert !HeldBy(worlds[j].stm, d, v);
  }

  /** Nothing is freed twice. */
  lemma FreedAtMostOnce(worlds: seq<World>, moves: seq<Move>, i: nat, j: nat, v: Storage)
    requires WorldRun(worlds, moves) && i < j < |moves| && MoveAt(worlds, moves, i) && MoveAt(worlds, moves, j)
    requires v in FreedBy(worlds[i], moves[i])
    ensures v !in FreedBy(worlds[j], moves[j])
  {
    OnceFreed(worlds, moves, i, j, v);
    RunKeeps(worlds, moves, j);
    FreedWas(worlds[j], moves[j]);
  }

  lemma ReadIsCurrent(w: World, a: Action)
    requires Enabled(w.stm, a) && a.CheckRead? && Inv(w.stm) && PlacesInv(w)
    requires w.stm.threads[a.t].pc.x in w.stm.heap && NextThread(w.stm, a).pc.Body?
    ensures var pc := w.stm.threads[a.t].pc;
      pc.s == w.stm.mem[pc.x].storage && pc.s in w.place && w.place[pc.s] == Current(pc.x)
  {
    var th := w.stm.threads[a.t];
    assert ThreadInv(w.stm, a.t) && CellInv(w.stm, th.pc.x) && CellPlaced(w, th.pc.x);
    ValidMeansNewest(w.stm, th.version, th.pc.x);
  }

  /** However long a thread slept between reading the clock and announcing it, a read of a heap
      variable that succeeds returns a storage that is current, hence not freed. */
  lemma StalledIsHarmless(worlds: seq<World>, moves: seq<Move>, i: nat, a: Action)
    requires WorldRun(worlds, moves) && i < |moves| && MoveAt(worlds, moves, i) && moves[i] == Tx(a) && a.CheckRead?
    requires worlds[i].stm.threads[a.t].pc.x in worlds[i].stm.heap
    requires NextThread(worlds[i].stm, a).pc.Body?
    ensures var w, pc := worlds[i], worlds[i].stm.threads[a.t].pc;
      pc.s == w.stm.mem[pc.x].storage && pc.s in w.place && w.place[pc.s] == Current(pc.x)
  {
    RunKeeps(worlds, moves, i);
    ReadIsCurrent(worlds[i], a);
  }

  // ---------------------------------------------------------------- conservation

  ghost predicate PendingAt(w: World, t: Tid, x: Var, v: Storage) {
    && t in w.stm.threads && x in w.stm.heap && x in w.stm.threads[t].writes
    && !Landed(w.stm.threads[t], x) && w.stm.threads[t].writes[x] == v
  }

  ghost predicate CurrentAt(w: World, x: Var, v: Storage) {
    x in w.stm.heap && x in w.stm.mem && w.stm.mem[x].storage == v
  }

  ghost predicate ReplacedAt(w: World, t: Tid, x: Var, v: Storage) {
    && t in w.stm.threads && x in w.stm.heap && Landed(w.stm.threads[t], x)
    && x in w.stm.threads[t].cur && w.stm.threads[t].cur[x] == v
  }

  ghost predicate QueuedAt(w: World, t: Tid, e: Epoch, x: Var, v: Storage) {
    && t in w.agents
    && exists k :: 0 <= k < |w.agents[t].queue| && w.agents[t].queue[k].epoch == e
                   && x in w.agents[t].queue[k].items && w.agents[t].queue[k].items[x] == v
  }

  ghost predicate DoomedAt(w: World, t: Tid, v: Storage) { t in w.agents && v in w.agents[t].doomed }

  /** Every storage ever allocated is in exactly one place: in one write set, in one variable,
      behind one success callback of a commit under way, in one queue, behind one fail callback,
      or freed.  `Place` has one constructor for each. */
  lemma Conservation(worlds: seq<World>, moves: seq<Move>, i: nat, v: Storage, t: Tid, x: Var, e: Epoch)
    requires WorldRun(worlds, moves) && i < |worlds|
    ensures v < worlds[i].next <==> v in worlds[i].place
    ensures PendingAt(worlds[i], t, x, v) <==> v in worlds[i].place && worlds[i].place[v] == Pending(t, x)
    ensures CurrentAt(worlds[i], x, v) <==> v in worlds[i].place && worlds[i].place[v] == Current(x)
    ensures ReplacedAt(worlds[i], t, x, v) <==> v in worlds[i].place && worlds[i].place[v] == Replaced(t, x)
    ensures QueuedAt(worlds[i], t, e, x, v) <==> v in worlds[i].place && worlds[i].place[v] == Queued(t, e, x)
    ensures DoomedAt(worlds[i], t, v) <==> v in worlds[i].place && worlds[i].place[v] == Doomed(t)
  {
    RunKeeps(worlds, moves, i);
    var w := worlds[i];
    assert v in w.place ==> PlaceRight(w, v);
    if t in w.stm.threads {
      assert WritesPlaced(w, t) && AgentPlaced(w, t);
      assert x in w.stm.heap ==> WritePlaced(w, t, x);
    }
    if x in w.stm.mem {
      assert CellPlaced(w, x);
    }
  }

  /** A commit queues exactly the storages it replaced, although `rw_write` loads them after the
      version test: for every heap variable written, the value just before this commit. */
  lemma CommitQueuesReplaced(worlds: seq<World>, moves: seq<Move>, i: nat, t: Tid)
    requires WorldRun(worlds, moves) && i < |moves| && MoveAt(worlds, moves, i) && moves[i] == Tx(Leave(t))
    requires worlds[i].stm.threads[t].pc.Succeeding? && worlds[i].stm.threads[t].writes != map[]
    ensures var w, th := worlds[i], worlds[i].stm.threads[t];
      var e, queue := th.pc.sync, w.agents[t].queue;
      && e < |w.stm.log| && w.stm.log[e].writes == th.writes
      && th.cur.Keys == th.writes.Keys * w.stm.heap
      && (forall x | x in th.cur :: th.cur[x] == Latest(w.stm.init, w.stm.log, e, x))
      && worlds[i + 1].agents[t].queue == if th.cur == map[] then queue else queue + [Chunk(e, th.cur)]
  {
    RunKeeps(worlds, moves, i);
    LeaveRetires(worlds[i], t);
  }

  lemma LeaveRetires(w: World, t: Tid)
    requires WorldInv(w) && t in w.agents && t in w.stm.threads
    requires w.stm.threads[t].pc.Succeeding? && w.stm.threads[t].writes != map[]
    ensures var s, th := w.stm, w.stm.threads[t];
      && th.pc.sync < |s.log| && s.log[th.pc.sync].writes == th.writes
      && th.cur.Keys == th.writes.Keys * s.heap
      && (forall x | x in th.cur :: th.cur[x] == Latest(s.init, s.log, th.pc.sync, x))
  {
    assert ThreadInv(w.stm, t) && AgentInv(w, t);
  }

  lemma AbortDooms(w: World, t: Tid)
    requires WorldInv(w) && TxEnabled(w, Leave(t)) && w.stm.threads[t].pc.Failing?
    ensures var own := HeapWrites(w.stm, w.stm.threads[t]);
      && TxAgent(w, Leave(t)).doomed == own
      && forall v | v in w.place :: v in own <==> w.place[v].Pending? && w.place[v].t == t
  {
    assert WritesPlaced(w, t);
    PendingWrites(w, Leave(t));
    forall v | v in w.place && w.place[v].Pending? && w.place[v].t == t
      ensures v in HeapWrites(w.stm, w.stm.threads[t])
    {
      assert PlaceRight(w, v);
    }
  }

  /** A failed attempt frees exactly the storages it allocated; none of them was ever the value of
      a heap variable at any version. */
  lemma AbortFreesOwn(worlds: seq<World>, moves: seq<Move>, i: nat, t: Tid, v: Storage, n: nat, x: Var)
    requires WorldRun(worlds, moves) && i < |moves| && MoveAt(worlds, moves, i) && moves[i] == Tx(Leave(t))
    requires worlds[i].stm.threads[t].pc.Failing? && v in worlds[i].place
    ensures v in worlds[i + 1].agents[t].doomed <==> worlds[i].place[v].Pending? && worlds[i].place[v].t == t
    ensures v in worlds[i + 1].agents[t].doomed && n <= |worlds[i].stm.log| && x in worlds[i].stm.heap ==>
              v != Latest(worlds[i].stm.init, worlds[i].stm.log, n, x)
  {
    RunKeeps(worlds, moves, i);
    var w := worlds[i];
    AbortDooms(w, t);
    if v in HeapWrites(w.stm, w.stm.threads[t]) && n <= |w.stm.log| && x in w.stm.heap {
      assert PlaceRight(w, v);
      LatestIsBorn(w, n, x);
    }
  }

  // ---------------------------------------------------------------- the release loop

  /** `moves` leads from `w` to `w'`. */
  ghost predicate Path(w: World, moves: seq<Move>, w': World)
    decreases |moves|
  {
    if moves == [] then w == w'
    else CanMove(w, moves[0]) && Path(Step(w, moves[0]), moves[1..], w')
  }

  /** Chunks the release loop runs: the first, and then all of them, or those below the bound. */
  ghost predicate Releases(queue: seq<Chunk>, n: nat, drain: bool, bound: Epoch) {
    && 0 < n <= |queue|
    && (forall k | 0 < k < n :: drain || queue[k].epoch < bound)
    && (n < |queue| ==> !drain && bound <= queue[n].epoch)
  }

  ghost predicate IsFreed(w: World, v: Storage) { v in w.place && w.place[v].Freed? }

  ghost predicate ChunksFreed(w: World, queue: seq<Chunk>, n: nat)
    requires n <= |queue|
  {
    forall k, x | 0 <= k < n && x in queue[k].items :: IsFreed(w, queue[k].items[x])
  }

  /** From `w` to `w'` the first `n` chunks of `t` were released and nothing else happened. */
  ghost predicate Released(w: World, t: Tid, w': World, n: nat)
    requires t in w.agents
  {
    var queue := w.agents[t].queue;
    && n <= |queue| && w'.stm == w.stm
    && t in w'.agents && w'.agents[t].queue == queue[n..]
    && ChunksFreed(w', queue, n)
    && (forall v | IsFreed(w, v) :: IsFreed(w', v))
  }

  lemma AfterChunk(w: World, t: Tid, w': World, n: nat)
    requires CanMove(w, ChunkDone(t)) && Released(Step(w, ChunkDone(t)), t, w', n)
    ensures Released(w, t, w', n + 1)
  {
    var queue, rest := w.agents[t].queue, w.agents[t].queue[1..];
    forall k, x | 0 <= k < n + 1 && x in queue[k].items ensures IsFreed(w', queue[k].items[x]) {
      assert k > 0 && rest[k - 1] == queue[k];
    }
  }

  lemma AfterItem(w: World, t: Tid, x: Var, w': World, n: nat)
    requires CanMove(w, FreeItem(t, x)) && Released(Step(w, FreeItem(t, x)), t, w', n) && n > 0
    requires forall v | IsFreed(w, v) :: IsFreed(Step(w, FreeItem(t, x)), v)
    ensures Released(w, t, w', n)
  {
    var queue, w1 := w.agents[t].queue, Step(w, FreeItem(t, x));
    var queue1 := w1.agents[t].queue;
    assert IsFreed(w1, queue[0].items[x]);
    forall k, y | 0 <= k < n && y in queue[k].items ensures IsFreed(w', queue[k].items[y]) {
      if k > 0 {
        assert queue1[k] == queue[k];
      } else if y != x {
        assert y in queue1[0].items && queue1[0].items[y] == queue[0].items[y];
      }
    }
  }

  /** The next move of a release loop. */
  lemma NextRelease(w: World, t: Tid) returns (m: Move)
    requires WorldInv(w) && t in w.agents && w.agents[t].phase.Releasing?
    ensures CanMove(w, m) && (m.ChunkDone? || m.FreeItem?) && m.t == t
    ensures WorldInv(Step(w, m)) && forall v | IsFreed(w, v) :: IsFreed(Step(w, m), v)
  {
    var queue := w.agents[t].queue;
    assert AgentInv(w, t) && AgentPlaced(w, t);
    m := ChunkDone(t);
    if queue[0].items != map[] {
      var x :| x in queue[0].items;
      m := FreeItem(t, x);
    }
    WorldKept(w, m);
    forall v | IsFreed(w, v) ensures IsFreed(Step(w, m), v) {
      FreedStays(w, m, v);
    }
  }

  function Work(queue: seq<Chunk>): nat { if queue == [] then 0 else |queue[0].items| }

  /** What the move does to the loop: it ends, or it goes on with less to do. */
  lemma ReleaseShrinks(w: World, m: Move)
    requires CanMove(w, m) && (m.ChunkDone? || m.FreeItem?)
    ensures var agent, agent' := w.agents[m.t], Step(w, m).agents[m.t];
      && (m.ChunkDone? ==> agent'.queue == agent.queue[1..])
      && (m.FreeItem? ==> |agent'.queue| == |agent.queue| && Work(agent'.queue) < Work(agent.queue))
      && if agent'.phase.Working? then
           m.ChunkDone? && Releases(agent.queue, 1, agent.phase.drain, agent.phase.bound)
         else
           && agent'.phase == agent.phase
           && forall n: nat | Releases(agent'.queue, n, agent.phase.drain, agent.phase.bound) ::
                Releases(agent.queue, if m.ChunkDone? then n + 1 else n, agent.phase.drain, agent.phase.bound)
  {
    var queue, queue', p := w.agents[m.t].queue, Step(w, m).agents[m.t].queue, w.agents[m.t].phase;
    if m.ChunkDone? && queue' != [] {
      forall n: nat | Releases(queue', n, p.drain, p.bound)
        && (p.drain || queue'[0].epoch < p.bound) ensures Releases(queue, n + 1, p.drain, p.bound)
      {
        forall k | 0 < k < n + 1 ensures p.drain || queue[k].epoch < p.bound {
          assert queue[k] == queue'[k - 1];
        }
      }
    } else if m.FreeItem? {
      assert forall k | 0 <= k < |queue| :: queue'[k].epoch == queue[k].epoch;
    }
  }

  lemma PathCons(w: World, m: Move, moves: seq<Move>, w': World)
    requires CanMove(w, m) && Path(Step(w, m), moves, w')
    ensures Path(w, [m] + moves, w')
  {
    assert ([m] + moves)[1..] == moves;
  }

  lemma ReleasedCons(w: World, m: Move, w': World, n: nat)
    requires CanMove(w, m) && (m.ChunkDone? || m.FreeItem?) && Released(Step(w, m), m.t, w', n)
    requires forall v | IsFreed(w, v) :: IsFreed(Step(w, m), v)
    requires m.FreeItem? ==> n > 0
    ensures Released(w, m.t, w', if m.ChunkDone? then n + 1 else n)
  {
    if m.ChunkDone? {
      AfterChunk(w, m.t, w', n);
    } else {
      AfterItem(w, m.t, m.x, w', n);
    }
  }

  /** A finished release loop of `t`. */
  ghost predicate Finished(w: World, t: Tid, moves: seq<Move>, w': World, n: nat)
    requires t in w.agents && w.agents[t].phase.Releasing?
  {
    && Path(w, moves, w') && Released(w, t, w', n) && w'.agents[t].phase.Working?
    && Releases(w.agents[t].queue, n, w.agents[t].phase.drain, w.agents[t].phase.bound)
    && forall k | 0 <= k < |moves| :: (moves[k].FreeItem? || moves[k].ChunkDone?) && moves[k].t == t
  }

  lemma FinishedCons(w: World, m: Move, moves: seq<Move>, w': World, n: nat)
    requires CanMove(w, m) && (m.ChunkDone? || m.FreeItem?)
    requires forall v | IsFreed(w, v) :: IsFreed(Step(w, m), v)
    requires var w1 := Step(w, m);
      if w1.agents[m.t].phase.Working? then moves == [] && w' == w1 && n == 0 else Finished(w1, m.t, moves, w', n)
    ensures Finished(w, m.t, [m] + moves, w', if m.ChunkDone? then n + 1 else n)
  {
    ReleaseShrinks(w, m);
    PathCons(w, m, moves, w');
    ReleasedCons(w, m, w', n);
  }

  /** The release loop always ends.  It needs no other thread, frees every storage of the chunks it
      runs, removes exactly those chunks from the front, and draining leaves the queue empty. */
  lemma {:induction false} ReleaseFinishes(w: World, t: Tid) returns (moves: seq<Move>, w': World, n: nat)
    requires WorldInv(w) && t in w.agents && w.agents[t].phase.Releasing?
    ensures Finished(w, t, moves, w', n)
    decreases |w.agents[t].queue|, Work(w.agents[t].queue)
  {
    var m := NextRelease(w, t);
    var rest, k := [], 0;
    w' := Step(w, m);
    ReleaseShrinks(w, m);
    if !w'.agents[t].phase.Working? {
      rest, w', k := ReleaseFinishes(w', t);
    }
    FinishedCons(w, m, rest, w', k);
    moves, n := [m] + rest, if m.ChunkDone? then k + 1 else k;
  }
}
