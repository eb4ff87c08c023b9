/** How a scan goes: it looks at every node once, waits for exactly as long as the node shows an old
    epoch, and where every node shows a newer one reclamation goes through. */
module ReclaimScan {
  import opened CommitLog
  import opened Stm
  import opened StmInvariant
  import opened StmOutcome
  import opened Reclaim
  import opened ReclaimInvariant
  import opened ReclaimFree
  import opened ReclaimTheorems
  import opened ReclaimLoops

  predicate InScan(p: Phase) { p.Scanning? || p.Waiting? }

  /** The node of `d` shows an epoch above the goal. */
  predicate Newer(w: World, d: Tid, goal: Epoch) { d in w.stm.threads && goal < w.stm.threads[d].active }

  // ---------------------------------------------------------------- waiting

  /** What any move by anybody does to a wait of `t`. */
  lemma WaitStep(w: World, m: Move, t: Tid)
    requires CanMove(w, m) && t in w.agents && w.agents[t].phase.Waiting?
    ensures t in Step(w, m).agents
    ensures var p := w.agents[t].phase;
      Step(w, m).agents[t].phase
      == if m == Poll(t) && Newer(w, p.node, p.goal) then Scanning(p.goal, p.drain, p.todo, p.result) else p
  {
  }

  /** At every poll of every run the wait ends if and only if the node shows an epoch above the goal,
      however the thread came to show it; the scan then goes on where it was. */
  lemma PollIff(worlds: seq<World>, moves: seq<Move>, i: nat, t: Tid)
    requires WorldRun(worlds, moves) && i < |moves| && MoveAt(worlds, moves, i) && moves[i] == Poll(t)
    ensures var p, agent' := worlds[i].agents[t].phase, worlds[i + 1].agents[t];
      && (agent'.phase.Waiting? <==> !Newer(worlds[i], p.node, p.goal))
      && agent' == worlds[i].agents[t].(phase := if agent'.phase.Waiting? then p
                                                 else Scanning(p.goal, p.drain, p.todo, p.result))
  {
    WaitStep(worlds[i], moves[i], t);
  }

  /** A look at a node begins a wait if and only if the node shows an epoch up to the goal; otherwise
      the epoch takes part in the bound. */
  lemma LookIff(worlds: seq<World>, moves: seq<Move>, i: nat, t: Tid, d: Tid)
    requires WorldRun(worlds, moves) && i < |moves| && MoveAt(worlds, moves, i) && moves[i] == Look(t, d)
    ensures var p, p' := worlds[i].agents[t].phase, worlds[i + 1].agents[t].phase;
      && (p'.Waiting? <==> !Newer(worlds[i], d, p.goal)) && (p'.Waiting? ==> p'.node == d)
      && InScan(p') && p'.goal == p.goal && p'.drain == p.drain && p'.todo == p.todo - {d}
      && (p'.Waiting? ==> p'.result == p.result)
      && (p'.Scanning? ==> p'.result <= p.result && p'.result <= worlds[i].stm.threads[d].active
                           && (p'.result == p.result || p'.result == worlds[i].stm.threads[d].active))
  {
  }

  /** A wait lasts from the look to the first poll that finds a newer epoch, whatever all threads do
      in between. */
  lemma {:induction false} WaitsUntilNewer(worlds: seq<World>, moves: seq<Move>, i: nat, j: nat, t: Tid, d: Tid)
    requires WorldRun(worlds, moves) && i < j < |worlds| && MoveAt(worlds, moves, i) && moves[i] == Look(t, d)
    requires !Newer(worlds[i], d, worlds[i].agents[t].phase.goal)
    requires forall k | i < k < j && moves[k] == Poll(t) :: !Newer(worlds[k], d, worlds[i].agents[t].phase.goal)
    ensures var p := worlds[i].agents[t].phase;
      t in worlds[j].agents && worlds[j].agents[t].phase == Waiting(p.goal, p.drain, p.todo - {d}, p.result, d)
  {
    if j > i + 1 {
      WaitsUntilNewer(worlds, moves, i, j - 1, t, d);
      assert MoveAt(worlds, moves, j - 1);
      WaitStep(worlds[j - 1], moves[j - 1], t);
    }
  }

  // ---------------------------------------------------------------- every node once

  /** `t` has started a scan with move `i` and not finished it before move `j`. */
  ghost predicate ScansFrom(worlds: seq<World>, moves: seq<Move>, i: nat, j: nat, t: Tid) {
    && WorldRun(worlds, moves) && i < j < |worlds| && moves[i].StartScan? && moves[i].t == t
    && forall k | i < k < j :: moves[k] != ScanDone(t)
  }

  lemma TodoStep(w: World, m: Move, t: Tid)
    requires CanMove(w, m) && t in w.agents && InScan(w.agents[t].phase) && m != ScanDone(t)
    ensures t in Step(w, m).agents && InScan(Step(w, m).agents[t].phase)
    ensures var p, p' := w.agents[t].phase, Step(w, m).agents[t].phase;
      if m.Look? && m.t == t then m.d in p.todo && p'.todo == p.todo - {m.d} else p'.todo == p.todo
  {
  }

  lemma {:induction false} TodoIsUnseen(worlds: seq<World>, moves: seq<Move>, i: nat, j: nat, t: Tid, d: Tid)
    requires ScansFrom(worlds, moves, i, j, t) && d in worlds[i].stm.threads
    ensures t in worlds[j].agents && InScan(worlds[j].agents[t].phase)
    ensures d in worlds[j].agents[t].phase.todo <==> forall k | i < k < j :: moves[k] != Look(t, d)
  {
    assert MoveAt(worlds, moves, j - 1);
    if j > i + 1 {
      TodoIsUnseen(worlds, moves, i, j - 1, t, d);
      TodoStep(worlds[j - 1], moves[j - 1], t);
    }
  }

  /** A scan that is done has looked at the node of every thread, at each exactly once. */
  lemma ScanLooksAtAll(worlds: seq<World>, moves: seq<Move>, i: nat, j: nat, t: Tid, d: Tid) returns (k: nat)
    requires ScansFrom(worlds, moves, i, j, t) && j < |moves| && moves[j] == ScanDone(t)
    requires d in worlds[i].stm.threads
    ensures i < k < j && moves[k] == Look(t, d)
    ensures forall m | i < m < j && moves[m] == Look(t, d) :: m == k
  {
    assert MoveAt(worlds, moves, j);
    TodoIsUnseen(worlds, moves, i, j, t, d);
    k :| i < k < j && moves[k] == Look(t, d);
    forall m | i < m < j && moves[m] == Look(t, d) ensures m == k {
      assert MoveAt(worlds, moves, k) && MoveAt(worlds, moves, m);
      TodoIsUnseen(worlds, moves, i, k, t, d);
      TodoIsUnseen(worlds, moves, i, m, t, d);
    }
  }

  // ---------------------------------------------------------------- it goes through

  ghost predicate KnownNodes(w: World, p: Phase) {
    InScan(p) ==> p.todo <= w.stm.threads.Keys && (p.Waiting? ==> p.node in w.stm.threads)
  }

  lemma KnownStep(w: World, m: Move, t: Tid)
    requires CanMove(w, m) && t in w.agents && KnownNodes(w, w.agents[t].phase)
    ensures t in Step(w, m).agents && KnownNodes(Step(w, m), Step(w, m).agents[t].phase)
  {
    if m.Tx? {
      assert Step(w, m).stm.threads.Keys == w.stm.threads.Keys;
    }
  }

  lemma {:induction false} ScanKnowsNodes(worlds: seq<World>, moves: seq<Move>, i: nat, t: Tid)
    requires WorldRun(worlds, moves) && i < |worlds| && t in worlds[i].agents
    ensures KnownNodes(worlds[i], worlds[i].agents[t].phase)
  {
    if i > 0 {
      assert MoveAt(worlds, moves, i - 1);
      ScanKnowsNodes(worlds, moves, i - 1, t);
      KnownStep(worlds[i - 1], moves[i - 1], t);
    }
  }

  ghost predicate AllNewer(w: World, goal: Epoch) { forall d | d in w.stm.threads :: Newer(w, d, goal) }

  /** `bound` is the least of `result` and what the nodes `todo` show. */
  ghost predicate Least(w: World, todo: set<Tid>, result: Epoch, bound: Epoch)
    requires todo <= w.stm.threads.Keys
  {
    && bound <= result && (forall d | d in todo :: bound <= w.stm.threads[d].active)
    && (bound == result || exists d :: d in todo && w.stm.threads[d].active == bound)
  }

  lemma LeastNext(w: World, todo: set<Tid>, d: Tid, result: Epoch, bound: Epoch)
    requires todo <= w.stm.threads.Keys && d in todo
    requires Least(w, todo - {d}, Min(result, w.stm.threads[d].active), bound)
    ensures Least(w, todo, result, bound)
  {
    forall e | e in todo ensures bound <= w.stm.threads[e].active {
      assert e == d || e in todo - {d};
    }
  }

  /** Only `t` has moved, and it was reclaiming. */
  ghost predicate Reclaims(moves: seq<Move>, t: Tid) {
    forall k | 0 <= k < |moves| :: !moves[k].Tx? && moves[k].t == t
  }

  /** `moves` of `t` end its scan and change nothing else. */
  ghost predicate Scanned(w: World, t: Tid, moves: seq<Move>, w': World, bound: Epoch)
    requires t in w.agents && InScan(w.agents[t].phase)
  {
    && Path(w, moves, w') && Reclaims(moves, t)
    && w' == w.(agents := w.agents[t := w.agents[t].(phase := Releasing(w.agents[t].phase.drain, bound))])
  }

  lemma ScannedCons(w: World, t: Tid, m: Move, rest: seq<Move>, w': World, bound: Epoch)
    requires t in w.agents && InScan(w.agents[t].phase) && CanMove(w, m) && (m.Look? || m.Poll?) && m.t == t
    requires InScan(Step(w, m).agents[t].phase) && Scanned(Step(w, m), t, rest, w', bound)
    ensures Scanned(w, t, [m] + rest, w', bound)
  {
    PathCons(w, m, rest, w');
    assert Step(w, m).agents[t := w'.agents[t]] == w.agents[t := w'.agents[t]];
  }

  lemma ScanEnds(w: World, t: Tid)
    requires t in w.agents && w.agents[t].phase.Scanning? && w.agents[t].phase.todo == {}
    ensures Scanned(w, t, [ScanDone(t)], Step(w, ScanDone(t)), w.agents[t].phase.result)
  {
    assert Path(Step(w, ScanDone(t)), [ScanDone(t)][1..], Step(w, ScanDone(t)));
  }

  /** Less is left to look at: an end that is right for the rest of the scan is right for the scan. */
  ghost predicate ScanShrinks(w: World, t: Tid, m: Move)
    requires t in w.agents && InScan(w.agents[t].phase) && KnownNodes(w, w.agents[t].phase)
  {
    && CanMove(w, m) && (m.Look? || m.Poll?) && m.t == t && Step(w, m).stm == w.stm
    && var p, p' := w.agents[t].phase, Step(w, m).agents[t].phase;
    && p'.Scanning? && KnownNodes(Step(w, m), p') && p'.goal == p.goal && p'.drain == p.drain
    && (p'.todo < p.todo || (p'.todo == p.todo && p.Waiting?))
    && forall bound | Least(Step(w, m), p'.todo, p'.result, bound) :: Least(w, p.todo, p.result, bound)
  }

  lemma NextInScan(w: World, t: Tid) returns (m: Move)
    requires t in w.agents && InScan(w.agents[t].phase) && KnownNodes(w, w.agents[t].phase)
    requires AllNewer(w, w.agents[t].phase.goal) && (w.agents[t].phase.Scanning? ==> w.agents[t].phase.todo != {})
    ensures ScanShrinks(w, t, m)
  {
    var p := w.agents[t].phase;
    m := Poll(t);
    if p.Scanning? {
      var d :| d in p.todo;
      m := Look(t, d);
      assert Newer(w, d, p.goal);
      forall bound | Least(Step(w, m), p.todo - {d}, Min(p.result, w.stm.threads[d].active), bound)
        ensures Least(w, p.todo, p.result, bound)
      {
        LeastNext(w, p.todo, d, p.result, bound);
      }
    } else {
      assert Newer(w, p.node, p.goal);
    }
  }

  /** Where every node shows a newer epoch the scan ends by its own moves alone, with the least epoch
      that is shown. */
  lemma {:induction false} ScanFinishes(w: World, t: Tid) returns (moves: seq<Move>, w': World, bound: Epoch)
    requires t in w.agents && InScan(w.agents[t].phase) && KnownNodes(w, w.agents[t].phase)
    requires AllNewer(w, w.agents[t].phase.goal)
    ensures Scanned(w, t, moves, w', bound)
    ensures Least(w, w.agents[t].phase.todo, w.agents[t].phase.result, bound)
    decreases w.agents[t].phase.todo, w.agents[t].phase.Waiting?
  {
    var p := w.agents[t].phase;
    if p.Scanning? && p.todo == {} {
      ScanEnds(w, t);
      return [ScanDone(t)], Step(w, ScanDone(t)), p.result;
    }
    var m := NextInScan(w, t);
    var w1 := Step(w, m);
    assert forall d | d in w1.stm.threads :: Newer(w, d, p.goal) && Newer(w1, d, p.goal);
    var rest;
    rest, w', bound := ScanFinishes(w1, t);
    ScannedCons(w, t, m, rest, w', bound);
    moves := [m] + rest;
  }

  lemma FirstApart<T>(a: seq<T>, b: seq<T>)
    requires a != []
    ensures a + b == [a[0]] + (a[1..] + b)
  {
  }

  lemma {:induction false} PathAppend(w: World, a: seq<Move>, w1: World, b: seq<Move>, w2: World)
    requires Path(w, a, w1) && Path(w1, b, w2)
    ensures Path(w, a + b, w2)
    decreases |a|
  {
    if a == [] {
      assert a + b == b;
    } else {
      PathAppend(Step(w, a[0]), a[1..], w1, b, w2);
      PathCons(w, a[0], a[1..] + b, w2);
      FirstApart(a, b);
    }
  }

  lemma {:induction false} PathKeeps(w: World, moves: seq<Move>, w': World)
    requires WorldInv(w) && Path(w, moves, w')
    ensures WorldInv(w')
    decreases |moves|
  {
    if moves != [] {
      WorldKept(w, moves[0]);
      PathKeeps(Step(w, moves[0]), moves[1..], w');
    }
  }

  /** `t` has reclaimed: it has freed the oldest `n` chunks, which are those the bound allows. */
  ghost predicate Reclaimed(w: World, t: Tid, moves: seq<Move>, w': World, drain: bool, bound: Epoch, n: nat)
    requires t in w.agents
  {
    && Path(w, moves, w') && Reclaims(moves, t) && Released(w, t, w', n) && w'.agents[t].phase.Working?
    && Releases(w.agents[t].queue, n, drain, bound)
  }

  lemma ReclaimedJoins(w: World, t: Tid, scan: seq<Move>, w1: World, rest: seq<Move>, w2: World,
                       bound: Epoch, n: nat)
    requires t in w.agents && InScan(w.agents[t].phase) && Scanned(w, t, scan, w1, bound)
    requires Finished(w1, t, rest, w2, n)
    ensures Reclaimed(w, t, scan + rest, w2, w.agents[t].phase.drain, bound, n)
  {
    PathAppend(w, scan, w1, rest, w2);
    assert w1.place == w.place;
    assert forall v | IsFreed(w, v) :: IsFreed(w1, v);
  }

  /** From anywhere in the scan. */
  lemma ScanCompletes(w: World, t: Tid) returns (moves: seq<Move>, w': World, bound: Epoch, n: nat)
    requires WorldInv(w) && t in w.agents && InScan(w.agents[t].phase) && KnownNodes(w, w.agents[t].phase)
    requires AllNewer(w, w.agents[t].phase.goal)
    ensures Reclaimed(w, t, moves, w', w.agents[t].phase.drain, bound, n)
    ensures Least(w, w.agents[t].phase.todo, w.agents[t].phase.result, bound)
  {
    var scan, w1, rest;
    scan, w1, bound := ScanFinishes(w, t);
    PathKeeps(w, scan, w1);
    rest, w', n := ReleaseFinishes(w1, t);
    ReclaimedJoins(w, t, scan, w1, rest, w', bound, n);
    moves := scan + rest;
  }

  lemma ScanOpen(w: World, t: Tid, drain: bool)
    requires WorldInv(w) && t in w.agents && t in w.stm.threads
    requires w.agents[t].phase.Working? && w.stm.threads[t].pc.Idle? && w.agents[t].queue != []
    ensures CanMove(w, StartScan(t, drain)) && WorldInv(Step(w, StartScan(t, drain)))
    ensures var phase := Scanning(Goal(w.agents[t].queue, drain), drain, w.stm.threads.Keys, OFF_STATE);
      Step(w, StartScan(t, drain)) == w.(agents := w.agents[t := w.agents[t].(phase := phase)])
  {
    WorldKept(w, StartScan(t, drain));
  }

  lemma StartJoins(w: World, t: Tid, drain: bool, rest: seq<Move>, w': World, bound: Epoch, n: nat)
    requires CanMove(w, StartScan(t, drain))
    requires Reclaimed(Step(w, StartScan(t, drain)), t, rest, w', drain, bound, n)
    ensures Reclaimed(w, t, [StartScan(t, drain)] + rest, w', drain, bound, n)
  {
    var m := StartScan(t, drain);
    PathCons(w, m, rest, w');
    assert Step(w, m).place == w.place;
    assert forall v | IsFreed(w, v) :: IsFreed(Step(w, m), v);
  }

  /** In every run, a thread out of its transaction with something queued can reclaim, and while every
      node shows an epoch above its goal nothing but its own moves is needed: the oldest chunk and,
      further on, all chunks when draining, or those below the least epoch shown, are freed. */
  lemma ReclaimCompletes(worlds: seq<World>, moves: seq<Move>, i: nat, t: Tid, drain: bool)
    returns (more: seq<Move>, w': World, bound: Epoch, n: nat)
    requires WorldRun(worlds, moves) && i < |worlds| && t in worlds[i].agents && t in worlds[i].stm.threads
    requires worlds[i].agents[t].phase.Working? && worlds[i].stm.threads[t].pc.Idle?
    requires worlds[i].agents[t].queue != [] && AllNewer(worlds[i], Goal(worlds[i].agents[t].queue, drain))
    ensures Reclaimed(worlds[i], t, more, w', drain, bound, n)
    ensures Least(worlds[i], worlds[i].stm.threads.Keys, OFF_STATE, bound)
  {
    RunKeeps(worlds, moves, i);
    ScanOpen(worlds[i], t, drain);
    var rest;
    rest, w', bound, n := ScanCompletes(Step(worlds[i], StartScan(t, drain)), t);
    StartJoins(worlds[i], t, drain, rest, w', bound, n);
    more := [StartScan(t, drain)] + rest;
  }

  // ---------------------------------------------------------------- after a failed attempt

  lemma DoomStep(w: World, t: Tid, v: Storage)
    requires WorldInv(w) && t in w.agents && v in w.agents[t].doomed
    ensures CanMove(w, FreeDoomed(t, v)) && WorldInv(Step(w, FreeDoomed(t, v)))
    ensures var w1 := Step(w, FreeDoomed(t, v));
      w1.stm == w.stm && w1.agents == w.agents[t := w.agents[t].(doomed := w.agents[t].doomed - {v})]
    ensures forall u | u == v || IsFreed(w, u) :: IsFreed(Step(w, FreeDoomed(t, v)), u)
  {
    assert AgentPlaced(w, t);
    WorldKept(w, FreeDoomed(t, v));
    forall u | IsFreed(w, u) ensures IsFreed(Step(w, FreeDoomed(t, v)), u) {
      FreedStays(w, FreeDoomed(t, v), u);
    }
  }

  lemma {:induction false} DoomedAreFreed(w: World, t: Tid) returns (moves: seq<Move>, w': World)
    requires WorldInv(w) && t in w.agents
    ensures Path(w, moves, w') && Reclaims(moves, t) && w'.stm == w.stm
    ensures w'.agents == w.agents[t := w.agents[t].(doomed := {})]
    ensures forall v | v in w.agents[t].doomed || IsFreed(w, v) :: IsFreed(w', v)
    decreases w.agents[t].doomed
  {
    if w.agents[t].doomed == {} {
      return [], w;
    }
    var v :| v in w.agents[t].doomed;
    DoomStep(w, t, v);
    var rest;
    rest, w' := DoomedAreFreed(Step(w, FreeDoomed(t, v)), t);
    PathCons(w, FreeDoomed(t, v), rest, w');
    moves := [FreeDoomed(t, v)] + rest;
  }

  lemma FailedWorks(w: World, t: Tid)
    requires WorldInv(w) && t in w.agents && t in w.stm.threads && w.stm.threads[t].pc.Failed?
    ensures w.agents[t].phase.Working?
  {
    assert AgentInv(w, t);
  }

  lemma NextOpens(w: World, t: Tid, kind: Kind)
    requires t in w.agents && t in w.stm.threads && w.stm.threads[t].pc.Failed?
    requires w.agents[t].phase.Working? && w.agents[t].doomed == {}
    ensures CanMove(w, Tx(Begin(t, kind))) && CanMove(w, Tx(GiveUp(t)))
  {
  }

  /** In every run, the fail callbacks of an attempt run to their end without any other thread, free
      all that the attempt had allocated, and then the next attempt can begin, or the thread give up. */
  lemma FailureCompletes(worlds: seq<World>, moves: seq<Move>, i: nat, t: Tid, kind: Kind)
    returns (more: seq<Move>, w': World)
    requires WorldRun(worlds, moves) && i < |worlds| && t in worlds[i].agents
    requires t in worlds[i].stm.threads && worlds[i].stm.threads[t].pc.Failed?
    ensures Path(worlds[i], more, w') && Reclaims(more, t) && w'.stm == worlds[i].stm
    ensures forall v | v in worlds[i].agents[t].doomed || IsFreed(worlds[i], v) :: IsFreed(w', v)
    ensures CanMove(w', Tx(Begin(t, kind))) && CanMove(w', Tx(GiveUp(t)))
  {
    RunKeeps(worlds, moves, i);
    FailedWorks(worlds[i], t);
    more, w' := DoomedAreFreed(worlds[i], t);
    NextOpens(w', t, kind);
  }

  // ---------------------------------------------------------------- nothing is ever stuck

  /** Every thread can always move: in its transaction, in its scan, or running callbacks. */
  lemma NobodyIsStuck(worlds: seq<World>, moves: seq<Move>, i: nat, t: Tid) returns (m: Move)
    requires WorldRun(worlds, moves) && i < |worlds| && t in worlds[i].agents
    requires worlds[i].stm.clock < MAX_VERSION - BUMP_SIZE
    ensures CanMove(worlds[i], m) && t == if m.Tx? then m.a.t else m.t
  {
    var w := worlds[i];
    RunKeeps(worlds, moves, i);
    ScanKnowsNodes(worlds, moves, i, t);
    var agent := w.agents[t];
    assert AgentPlaced(w, t);
    match agent.phase {
      case Working =>
        if agent.doomed == {} {
          var a := NextStep(w.stm, t, w.next);
          m := Tx(a);
        } else {
          var v :| v in agent.doomed;
          m := FreeDoomed(t, v);
        }
      case Scanning(_, _, todo, _) =>
        m := ScanDone(t);
        if todo != {} {
          var d :| d in todo;
          m := Look(t, d);
        }
      case Waiting(_, _, _, _, _) => m := Poll(t);
      case Releasing(_, _) => m := NextRelease(w, t);
    }
  }
}
