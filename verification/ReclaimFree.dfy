/** The reclaiming side: scanning the nodes, waiting, and running the queued callbacks. */
module ReclaimFree {
  import opened CommitLog
  import opened Stm
  import opened StmInvariant
  import opened Reclaim
  import opened ReclaimInvariant
  import opened ReclaimGrace

  // ---------------------------------------------------------------- the scan

  lemma StartScanPhase(w: World, m: Move)
    requires CanMove(w, m) && m.StartScan?
    ensures PhaseInv(w.stm, NextAgent(w, m), m.t)
  {
  }

  /** A thread whose node shows an epoch above the goal holds nothing the scan may release,
      provided the result does not exceed what its node shows. */
  lemma AnnouncedPasses(w: World, t: Tid, d: Tid, goal: Epoch, result: Epoch)
    requires t in w.agents && d in w.stm.threads && ThreadInv(w.stm, d) && BirthsInv(w)
    requires QueueInv(w.stm, w.agents[t].queue, t)
    requires goal < w.stm.threads[d].active && result <= w.stm.threads[d].active
    ensures Passed(w.stm, w.agents[t].queue, d, goal, result)
  {
    var s, queue := w.stm, w.agents[t].queue;
    forall k, x | 0 <= k < |queue| && Covered(queue[k], goal, result) && x in queue[k].items
      ensures !HeldBy(s, d, queue[k].items[x])
    {
      assert ChunkRight(s, queue[k]);
      if HeldBy(s, d, queue[k].items[x]) {
        HolderIsOld(w, d, queue[k].epoch, x, queue[k].items[x]);
        HolderIsAnnounced(s, d, queue[k].items[x]);
        assert false;
      }
    }
  }

  /** The scan leaves a node it waited for out of its result.  That is sound: when the wait
      ends the thread has begun again, above everything queued. */
  lemma WaitedPasses(w: World, t: Tid, d: Tid, goal: Epoch, result: Epoch)
    requires t in w.agents && d in w.stm.threads && ThreadInv(w.stm, d) && BirthsInv(w)
    requires QueueInv(w.stm, w.agents[t].queue, t) && WaitInv(w.stm, w.agents[t].queue, goal, d)
    requires goal < w.stm.threads[d].active
    ensures Passed(w.stm, w.agents[t].queue, d, goal, result)
  {
    var s, queue := w.stm, w.agents[t].queue;
    forall k, x | 0 <= k < |queue| && Covered(queue[k], goal, result) && x in queue[k].items
      ensures !HeldBy(s, d, queue[k].items[x])
    {
      assert ChunkRight(s, queue[k]);
      if HeldBy(s, d, queue[k].items[x]) {
        HolderIsOld(w, d, queue[k].epoch, x, queue[k].items[x]);
        HolderIsAnnounced(s, d, queue[k].items[x]);
        assert false;
      }
    }
  }

  lemma PassedLess(s: State, queue: seq<Chunk>, d: Tid, goal: Epoch, result: Epoch, less: Epoch)
    requires d in s.threads && Passed(s, queue, d, goal, result) && less <= result
    ensures Passed(s, queue, d, goal, less)
  {
  }

  lemma LookPhase(w: World, m: Move)
    requires CanMove(w, m) && m.Look? && BirthsInv(w) && ThreadsInv(w.stm) && |w.stm.log| < MAX_VERSION
    requires m.t in w.stm.threads && AgentInv(w, m.t)
    ensures PhaseInv(w.stm, NextAgent(w, m), m.t)
  {
    var s, queue, p := w.stm, w.agents[m.t].queue, w.agents[m.t].phase;
    var epoch := s.threads[m.d].active;
    assert ThreadInv(s, m.d);
    if epoch <= p.goal {
      assert ChunkRight(s, queue[0]) && ChunkRight(s, queue[|queue| - 1]);
      assert p.todo - {m.d} + {m.d} == p.todo;
    } else {
      var result := Min(p.result, epoch);
      forall d | d in s.threads && d !in p.todo - {m.d} ensures Passed(s, queue, d, p.goal, result) {
        if d == m.d {
          AnnouncedPasses(w, m.t, d, p.goal, result);
        } else {
          PassedLess(s, queue, d, p.goal, p.result, result);
        }
      }
    }
  }

  lemma PollPhase(w: World, m: Move)
    requires CanMove(w, m) && m.Poll? && BirthsInv(w) && ThreadsInv(w.stm)
    requires m.t in w.stm.threads && AgentInv(w, m.t)
    ensures PhaseInv(w.stm, NextAgent(w, m), m.t)
  {
    var s, queue, p := w.stm, w.agents[m.t].queue, w.agents[m.t].phase;
    assert ThreadInv(s, p.node);
    if p.goal < s.threads[p.node].active {
      forall d | d in s.threads && d !in p.todo ensures Passed(s, queue, d, p.goal, p.result) {
        if d == p.node {
          WaitedPasses(w, m.t, d, p.goal, p.result);
        }
      }
    }
  }

  /** Once every node has been passed, the scan's result is a safe bound. */
  lemma ScanDonePhase(w: World, m: Move)
    requires CanMove(w, m) && m.ScanDone? && m.t in w.stm.threads && AgentInv(w, m.t)
    ensures PhaseInv(w.stm, NextAgent(w, m), m.t)
  {
    var s, queue, p := w.stm, w.agents[m.t].queue, w.agents[m.t].phase;
    forall k, x | 0 <= k < |queue| && (p.drain || k == 0 || queue[k].epoch < p.result) && x in queue[k].items
      ensures NobodyHolds(s, queue[k].items[x])
    {
      assert Covered(queue[k], p.goal, p.result);
      forall d | d in s.threads ensures !HeldBy(s, d, queue[k].items[x]) {
        assert Passed(s, queue, d, p.goal, p.result);
      }
    }
  }

  // ---------------------------------------------------------------- running callbacks

  function FreedItem(w: World, m: Move): Storage
    requires CanMove(w, m) && m.FreeItem?
  {
    w.agents[m.t].queue[0].items[m.x]
  }

  lemma FreeItemAgent(w: World, m: Move)
    requires CanMove(w, m) && m.FreeItem? && m.t in w.stm.threads && AgentInv(w, m.t)
    ensures QueueInv(w.stm, NextAgent(w, m).queue, m.t) && PhaseInv(w.stm, NextAgent(w, m), m.t)
    ensures NobodyHolds(w.stm, FreedItem(w, m))
  {
    var queue, queue' := w.agents[m.t].queue, NextAgent(w, m).queue;
    assert ChunkRight(w.stm, queue[0]);
    forall k | 0 <= k < |queue'| ensures ChunkRight(w.stm, queue'[k]) {
      assert ChunkRight(w.stm, queue[k]);
    }
  }

  lemma ChunkDoneAgent(w: World, m: Move)
    requires CanMove(w, m) && m.ChunkDone? && m.t in w.stm.threads && AgentInv(w, m.t)
    ensures QueueInv(w.stm, NextAgent(w, m).queue, m.t) && PhaseInv(w.stm, NextAgent(w, m), m.t)
  {
    var queue, queue' := w.agents[m.t].queue, NextAgent(w, m).queue;
    forall k | 0 <= k < |queue'| ensures queue'[k] == queue[k + 1] && ChunkRight(w.stm, queue'[k]) {
      assert ChunkRight(w.stm, queue[k + 1]);
    }
  }

  // ---------------------------------------------------------------- places

  /** The storage the callback frees. */
  function FreedBy(w: World, m: Move): set<Storage>
    requires CanMove(w, m)
  {
    match m
    case FreeDoomed(_, v) => {v}
    case FreeItem(_, _) => {FreedItem(w, m)}
    case _ => {}
  }

  /** A callback frees a storage that is queued or doomed, never one that was freed before. */
  lemma FreedWas(w: World, m: Move)
    requires CanMove(w, m) && PlacesInv(w)
    ensures m.FreeDoomed? ==> w.place[m.v] == Doomed(m.t)
    ensures m.FreeItem? ==> w.place[FreedItem(w, m)] == Queued(m.t, w.agents[m.t].queue[0].epoch, m.x)
  {
    if m.FreeDoomed? || m.FreeItem? {
      assert AgentPlaced(w, m.t);
    }
  }

  lemma FreeRight(w: World, m: Move, v: Storage)
    requires CanMove(w, m) && !m.Tx? && PlacesInv(w) && v in w.place && v !in FreedBy(w, m)
    ensures PlaceRight(Step(w, m), v)
  {
    var w' := Step(w, m);
    assert PlaceRight(w, v) && w'.place[v] == w.place[v];
    if w.place[v].Queued? && w.place[v].t == m.t {
      var queue, queue' := w.agents[m.t].queue, NextAgent(w, m).queue;
      var e, x := w.place[v].epoch, w.place[v].x;
      var k :| 0 <= k < |queue| && queue[k].epoch == e && x in queue[k].items && queue[k].items[x] == v;
      var k' := if m.ChunkDone? then k - 1 else k;
      assert 0 <= k' < |queue'| && queue'[k'].epoch == e && x in queue'[k'].items && queue'[k'].items[x] == v;
    }
  }

  ghost predicate StaysQueued(w: World, m: Move, e: Epoch, x: Var, v: Storage)
    requires CanMove(w, m) && !m.Tx?
  {
    v in w.place && v !in FreedBy(w, m) && w.place[v] == Queued(m.t, e, x)
  }

  lemma FreeAgent(w: World, m: Move)
    requires CanMove(w, m) && !m.Tx? && PlacesInv(w) && QueueInv(w.stm, w.agents[m.t].queue, m.t)
    ensures AgentPlaced(Step(w, m), m.t)
  {
    FreeShape(w, m);
    FreeQueue(w, m);
    FreeDoomedLeft(w, m);
  }

  lemma FreeDoomedLeft(w: World, m: Move)
    requires CanMove(w, m) && !m.Tx? && PlacesInv(w)
    ensures var doomed := NextAgent(w, m).doomed;
      && (forall v | v in doomed :: v in w.place && w.place[v] == Doomed(m.t) && v !in FreedBy(w, m))
      && (doomed != {} ==> m.t in w.stm.threads && w.stm.threads[m.t].pc.Failed?)
  {
    assert AgentPlaced(w, m.t);
    FreedWas(w, m);
  }

  /** What stays queued is not what the move frees. */
  lemma FreeQueue(w: World, m: Move)
    requires CanMove(w, m) && !m.Tx? && PlacesInv(w) && QueueInv(w.stm, w.agents[m.t].queue, m.t)
    ensures var queue := NextAgent(w, m).queue;
      forall k, x | 0 <= k < |queue| && x in queue[k].items :: StaysQueued(w, m, queue[k].epoch, x, queue[k].items[x])
  {
    assert AgentPlaced(w, m.t);
    FreedWas(w, m);
    var agent, agent' := w.agents[m.t], NextAgent(w, m);
    forall k, x | 0 <= k < |agent'.queue| && x in agent'.queue[k].items
      ensures StaysQueued(w, m, agent'.queue[k].epoch, x, agent'.queue[k].items[x])
    {
      var j := if m.ChunkDone? then k + 1 else k;
      assert x in agent.queue[j].items && agent'.queue[k].items[x] == agent.queue[j].items[x];
    }
  }

  lemma FreeShape(w: World, m: Move)
    requires CanMove(w, m) && !m.Tx? && PlacesInv(w)
    ensures var w' := Step(w, m);
      && w'.stm == w.stm && w'.origin == w.origin && w'.born == w.born && w'.next == w.next
      && w'.place.Keys == w.place.Keys && w'.agents == w.agents[m.t := NextAgent(w, m)]
      && (forall v | v in w.place && v !in FreedBy(w, m) :: w'.place[v] == w.place[v])
      && (forall v | v in FreedBy(w, m) :: v in w.place && w'.place[v] == Freed
            && (w.place[v].Queued? || w.place[v].Doomed?) && w.place[v].t == m.t)
  {
    FreedWas(w, m);
  }

  lemma FreeViews(w: World, m: Move, t: Tid)
    requires CanMove(w, m) && !m.Tx? && PlacesInv(w) && t in w.stm.threads
    ensures WritesPlaced(Step(w, m), t)
  {
    var w' := Step(w, m);
    FreeShape(w, m);
    assert WritesPlaced(w, t);
    forall x | x in w.stm.heap ensures WritePlaced(w', t, x) {
      assert WritePlaced(w, t, x);
    }
  }

  lemma FreeCells(w: World, m: Move)
    requires CanMove(w, m) && !m.Tx? && PlacesInv(w)
    ensures forall x {:trigger CellPlaced(Step(w, m), x)} | x in w.stm.mem :: CellPlaced(Step(w, m), x)
  {
    FreeShape(w, m);
    forall x | x in w.stm.mem ensures CellPlaced(Step(w, m), x) {
      assert CellPlaced(w, x);
    }
  }

  lemma FreeOther(w: World, m: Move, t: Tid)
    requires CanMove(w, m) && !m.Tx? && PlacesInv(w) && t in w.agents && t != m.t
    ensures AgentPlaced(Step(w, m), t)
  {
    assert AgentPlaced(w, t);
    FreeShape(w, m);
  }

  lemma FreePlaces(w: World, m: Move)
    requires CanMove(w, m) && !m.Tx? && PlacesInv(w) && QueueInv(w.stm, w.agents[m.t].queue, m.t)
    ensures PlacesInv(Step(w, m))
  {
    var w' := Step(w, m);
    FreeShape(w, m);
    forall v | v in w'.place ensures PlaceRight(w', v) {
      if v !in FreedBy(w, m) {
        FreeRight(w, m, v);
      }
    }
    FreeCells(w, m);
    forall t | t in w'.stm.threads ensures WritesPlaced(w', t) {
      FreeViews(w, m, t);
    }
    forall t | t in w'.agents ensures AgentPlaced(w', t) {
      if t == m.t {
        FreeAgent(w, m);
      } else {
        FreeOther(w, m, t);
      }
    }
  }

  // ---------------------------------------------------------------- every move keeps everything

  lemma OwnAgentInv(w: World, m: Move)
    requires WorldInv(w) && CanMove(w, m) && !m.Tx?
    ensures AgentInv(Step(w, m), m.t)
  {
    assert AgentInv(w, m.t);
    match m {
      case FreeDoomed(_, _) =>
      case StartScan(_, _) => StartScanPhase(w, m);
      case Look(_, _) => LookPhase(w, m);
      case Poll(_) => PollPhase(w, m);
      case ScanDone(_) => ScanDonePhase(w, m);
      case FreeItem(_, _) => FreeItemAgent(w, m);
      case ChunkDone(_) => ChunkDoneAgent(w, m);
    }
  }

  /** Nobody holds a storage at the moment its callback runs. */
  lemma FreedIsUnheld(w: World, m: Move, v: Storage)
    requires WorldInv(w) && CanMove(w, m) && v in FreedBy(w, m)
    ensures NobodyHolds(w.stm, v)
  {
    FreedWas(w, m);
    assert AgentInv(w, m.t);
    if m.FreeItem? {
      FreeItemAgent(w, m);
    } else {
      assert PlaceRight(w, v);
      forall d | d in w.stm.threads ensures !HeldBy(w.stm, d, v) {
        assert ThreadInv(w.stm, d);
        if HeldBy(w.stm, d, v) {
          HeldIsBorn(w, d, v);
        }
      }
    }
  }

  lemma FreeKeeps(w: World, m: Move)
    requires WorldInv(w) && CanMove(w, m) && !m.Tx?
    ensures WorldInv(Step(w, m))
  {
    var w' := Step(w, m);
    assert AgentInv(w, m.t);
    FreePlaces(w, m);
    FreeShape(w, m);
    forall t | t in w'.agents ensures AgentInv(w', t) {
      if t == m.t {
        OwnAgentInv(w, m);
      } else {
        assert AgentInv(w, t);
      }
    }
    forall v | v in w'.place && w'.place[v].Freed? ensures NobodyHolds(w'.stm, v) {
      if v in FreedBy(w, m) {
        FreedIsUnheld(w, m, v);
      }
    }
  }

  lemma WorldKept(w: World, m: Move)
    requires WorldInv(w) && CanMove(w, m)
    ensures WorldInv(Step(w, m))
  {
    if m.Tx? {
      TxKeeps(w, m.a);
    } else {
      FreeKeeps(w, m);
    }
  }
}
