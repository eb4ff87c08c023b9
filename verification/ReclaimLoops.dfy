/** The loops of `ThreadData` and the moves of the reclaiming threads do the same: a scan by moves
    finds the bound the loop computes, and a bound releases the same chunks in both. */
module ReclaimLoops {
  import opened CommitLog
  import opened Stm
  import opened Reclaim
  import opened ReclaimTheorems
  import D = ThreadData
  import Q = Quiescence

  /** The epoch a scan waits for: the newest queued to drain the queue, otherwise the oldest. */
  function Goal(queue: seq<Chunk>, drain: bool): Epoch
    requires queue != []
  {
    if drain then queue[|queue| - 1].epoch else queue[0].epoch
  }

  /** A scan that has looked at nodes showing `shown` has come as far as the loop. */
  ghost predicate ScanAt(agent: Agent, queue: seq<Chunk>, drain: bool, shown: seq<Epoch>) {
    && queue != [] && agent.queue == queue
    && match agent.phase
       case Scanning(goal, d, _, result) =>
         goal == Goal(queue, drain) && d == drain && result == D.MinAbove(shown, goal)
       case Waiting(goal, d, _, result, _) =>
         goal == Goal(queue, drain) && d == drain && result == D.MinAbove(shown, goal)
       case _ => false
  }

  /** What `t` sees by this move. */
  function Looked(w: World, m: Move, t: Tid): seq<Epoch> {
    if m.Look? && m.t == t && m.d in w.stm.threads then [w.stm.threads[m.d].active] else []
  }

  lemma LookAppends(shown: seq<Epoch>, epoch: Epoch, goal: Epoch)
    ensures var rest := D.MinAbove(shown, goal);
      D.MinAbove(shown + [epoch], goal) == if goal < epoch then Min(rest, epoch) else rest
  {
    assert (shown + [epoch])[..|shown|] == shown;
  }

  /** Whatever moves are made meanwhile, by whomever, a scan stays with the loop until it is done. */
  lemma ScanGoesOn(w: World, m: Move, t: Tid, queue: seq<Chunk>, drain: bool, shown: seq<Epoch>)
    requires CanMove(w, m) && t in w.agents && ScanAt(w.agents[t], queue, drain, shown) && m != ScanDone(t)
    ensures t in Step(w, m).agents && ScanAt(Step(w, m).agents[t], queue, drain, shown + Looked(w, m, t))
  {
    if m.Look? && m.t == t {
      LookAppends(shown, w.stm.threads[m.d].active, Goal(queue, drain));
    } else {
      assert shown + [] == shown;
    }
  }

  /** What `t` sees from move `i` up to move `j`. */
  ghost function Shown(worlds: seq<World>, moves: seq<Move>, t: Tid, i: nat, j: nat): seq<Epoch>
    requires |worlds| == |moves| + 1 && i <= j <= |moves|
    decreases j
  {
    if i == j then [] else Shown(worlds, moves, t, i, j - 1) + Looked(worlds[j - 1], moves[j - 1], t)
  }

  lemma ScanMoves(worlds: seq<World>, moves: seq<Move>, t: Tid, k: nat,
                  queue: seq<Chunk>, drain: bool, shown: seq<Epoch>)
    requires |worlds| == |moves| + 1 && k < |moves| && MoveAt(worlds, moves, k)
    requires t in worlds[k].agents && ScanAt(worlds[k].agents[t], queue, drain, shown) && moves[k] != ScanDone(t)
    ensures t in worlds[k + 1].agents
    ensures ScanAt(worlds[k + 1].agents[t], queue, drain, shown + Looked(worlds[k], moves[k], t))
  {
    ScanGoesOn(worlds[k], moves[k], t, queue, drain, shown);
  }

  lemma {:induction false} ScanFollows(worlds: seq<World>, moves: seq<Move>, t: Tid, i: nat, j: nat,
                                       queue: seq<Chunk>, drain: bool)
    requires WorldRun(worlds, moves) && i < j <= |moves|
    requires MoveAt(worlds, moves, i) && moves[i] == StartScan(t, drain) && queue == worlds[i].agents[t].queue
    requires forall k | i < k < j :: moves[k] != ScanDone(t)
    ensures t in worlds[j].agents
    ensures ScanAt(worlds[j].agents[t], queue, drain, Shown(worlds, moves, t, i + 1, j))
  {
    if j > i + 1 {
      ScanFollows(worlds, moves, t, i, j - 1, queue, drain);
      assert MoveAt(worlds, moves, j - 1);
      ScanMoves(worlds, moves, t, j - 1, queue, drain, Shown(worlds, moves, t, i + 1, j - 1));
    }
  }

  /** In every run, the bound a scan hands to the release loop is what `wait_min_epoch` computes from
      the epochs the scan has seen, although other threads go on beginning and ending attempts. */
  lemma ScanFindsBound(worlds: seq<World>, moves: seq<Move>, t: Tid, drain: bool, i: nat, j: nat)
    requires WorldRun(worlds, moves) && i < j < |moves| && MoveAt(worlds, moves, i)
    requires moves[i] == StartScan(t, drain) && moves[j] == ScanDone(t)
    requires forall k | i < k < j :: moves[k] != ScanDone(t)
    ensures var queue := worlds[i].agents[t].queue;
      && t in worlds[j + 1].agents && worlds[j + 1].agents[t].queue == queue
      && worlds[j + 1].agents[t].phase
         == Releasing(drain, D.MinAbove(Shown(worlds, moves, t, i + 1, j), Goal(queue, drain)))
  {
    assert MoveAt(worlds, moves, j);
    ScanFollows(worlds, moves, t, i, j, worlds[i].agents[t].queue, drain);
  }

  /** A release loop with that bound runs the chunks that the loop of `ThreadData` runs. */
  lemma SameReleases(queue: seq<Chunk>, chunks: seq<Q.Chunk>, n: nat, bound: Epoch)
    requires |queue| == |chunks| && forall k | 0 <= k < |queue| :: queue[k].epoch == chunks[k].epoch
    ensures Releases(queue, n, false, bound) <==> D.Releases(chunks, n, bound)
  {
  }
}
