/** What every reachable world of the reclamation layer satisfies. */
module ReclaimInvariant {
  import opened CommitLog
  import opened Stm
  import opened StmInvariant
  import opened Reclaim

  /** The pending write of `x` is in memory, or was until somebody replaced it. */
  ghost predicate Landed(th: Thread, x: Var) {
    x in th.writes && match th.pc
                      case Storing(todo) => x !in todo
                      case Publishing(_, _) => true
                      case Succeeding(_) => true
                      case _ => false
  }

  ghost predicate Unborn(th: Thread) { !th.pc.Publishing? && !th.pc.Succeeding? }

  /** The commit with clock value `e` before the bump replaced storage `v` of `x`. */
  ghost predicate Retired(s: State, e: Epoch, x: Var, v: Storage) {
    && e < |s.log| && x in s.heap && x in s.log[e].writes
    && v == Latest(s.init, s.log, e, x)
  }

  // ---------------------------------------------------------------- places

  /** The thread's view of where its storages for `x` are. */
  ghost predicate WritePlaced(w: World, t: Tid, x: Var)
    requires t in w.stm.threads
  {
    var th := w.stm.threads[t];
    && (x in th.writes && !Landed(th, x) ==>
          th.writes[x] in w.place && w.place[th.writes[x]] == Pending(t, x))
    && (x in th.writes && Unborn(th) ==>
          && th.writes[x] in w.place && th.writes[x] !in w.born
          && th.writes[x] in w.origin && w.origin[th.writes[x]] == x)
    && (Landed(th, x) ==>
          x in th.cur && th.cur[x] in w.place && w.place[th.cur[x]] == Replaced(t, x))
  }

  ghost predicate WritesPlaced(w: World, t: Tid)
    requires t in w.stm.threads
  {
    forall x {:trigger WritePlaced(w, t, x)} | x in w.stm.heap :: WritePlaced(w, t, x)
  }

  ghost predicate CellPlaced(w: World, x: Var)
    requires x in w.stm.mem
  {
    x in w.stm.heap ==>
      && w.stm.mem[x].storage in w.place
      && w.place[w.stm.mem[x].storage] == Current(x)
  }

  /** Where a storage is said to be, it is. */
  ghost predicate PlaceRight(w: World, v: Storage)
    requires v in w.place
  {
    match w.place[v]
    case Pending(t, x) =>
      && t in w.stm.threads && x in w.stm.heap && x in w.stm.threads[t].writes
      && !Landed(w.stm.threads[t], x) && w.stm.threads[t].writes[x] == v && v !in w.born
    case Current(x) => x in w.stm.heap && x in w.stm.mem && w.stm.mem[x].storage == v
    case Replaced(t, x) =>
      && t in w.stm.threads && x in w.stm.heap && Landed(w.stm.threads[t], x)
      && x in w.stm.threads[t].cur && w.stm.threads[t].cur[x] == v
    case Queued(t, e, x) =>
      && t in w.agents
      && exists k :: 0 <= k < |w.agents[t].queue| && w.agents[t].queue[k].epoch == e
                     && x in w.agents[t].queue[k].items && w.agents[t].queue[k].items[x] == v
    case Doomed(t) => t in w.agents && v in w.agents[t].doomed && v !in w.born
    case Freed => true
  }

  ghost predicate AgentPlaced(w: World, t: Tid)
    requires t in w.agents
  {
    var agent := w.agents[t];
    && (forall k, x | 0 <= k < |agent.queue| && x in agent.queue[k].items ::
          && agent.queue[k].items[x] in w.place
          && w.place[agent.queue[k].items[x]] == Queued(t, agent.queue[k].epoch, x))
    && (forall v | v in agent.doomed :: v in w.place && w.place[v] == Doomed(t))
    && (agent.doomed != {} ==> t in w.stm.threads && w.stm.threads[t].pc.Failed?)
  }

  ghost predicate PlacesInv(w: World) {
    && w.agents.Keys == w.stm.threads.Keys
    && w.stm.heap <= w.stm.mem.Keys
    && (forall v: Storage :: v in w.place <==> v < w.next)
    && w.origin.Keys == w.place.Keys
    && w.born.Keys <= w.place.Keys
    && (forall v {:trigger PlaceRight(w, v)} | v in w.place :: PlaceRight(w, v))
    && (forall x {:trigger CellPlaced(w, x)} | x in w.stm.mem :: CellPlaced(w, x))
    && (forall t {:trigger WritesPlaced(w, t)} | t in w.stm.threads :: WritesPlaced(w, t))
    && (forall t {:trigger AgentPlaced(w, t)} | t in w.agents :: AgentPlaced(w, t))
  }

  // ---------------------------------------------------------------- births

  /** A storage is installed at most once, for the variable it was allocated for. */
  ghost predicate BirthsInv(w: World) {
    && (forall x | x in w.stm.heap ::
          var v := At(w.stm.init, x);
          v in w.origin && w.origin[v] == x && v in w.born && w.born[v] == 0)
    && (forall i, x | 0 <= i < |w.stm.log| && x in w.stm.heap && x in w.stm.log[i].writes ::
          var v := w.stm.log[i].writes[x];
          v in w.origin && w.origin[v] == x && v in w.born && w.born[v] == i + 1)
  }

  // ---------------------------------------------------------------- queues and scans

  /** A read of the current attempt of `d` returned storage `v` of some heap variable. */
  ghost predicate HeldBy(s: State, d: Tid, v: Storage)
    requires d in s.threads
  {
    exists x :: x in s.heap && (x, v) in s.threads[d].held
  }

  ghost predicate NobodyHolds(s: State, v: Storage) {
    forall d | d in s.threads :: !HeldBy(s, d, v)
  }

  /** Everything in the chunk was replaced by the commit it was queued for. */
  ghost predicate ChunkRight(s: State, c: Chunk) {
    c.epoch < |s.log| && forall x | x in c.items :: Retired(s, c.epoch, x, c.items[x])
  }

  ghost predicate QueueInv(s: State, queue: seq<Chunk>, t: Tid) {
    && (forall k | 0 <= k < |queue| :: ChunkRight(s, queue[k]))
    && (forall j, k | 0 <= j < k < |queue| :: queue[j].epoch < queue[k].epoch)
    && t in s.threads
    && (InAttempt(s.threads[t]) ==> forall k | 0 <= k < |queue| :: queue[k].epoch < s.threads[t].version)
  }

  /** After the bump, what the success callbacks will free is what the commit replaced. */
  ghost predicate CommitRetires(s: State, t: Tid)
    requires t in s.threads
  {
    var th := s.threads[t];
    match th.pc
    case Publishing(_, published) =>
      published > 0 && forall x | x in th.cur :: Retired(s, published - 1, x, th.cur[x])
    case Succeeding(sync) => forall x | x in th.cur :: Retired(s, sync, x, th.cur[x])
    case _ => true
  }

  /** Which chunks the scan so far says something about. */
  ghost predicate Covered(c: Chunk, goal: Epoch, result: Epoch) { c.epoch <= goal || c.epoch < result }

  /** Thread `d` holds nothing from the chunks covered. */
  ghost predicate Passed(s: State, queue: seq<Chunk>, d: Tid, goal: Epoch, result: Epoch)
    requires d in s.threads
  {
    forall k, x | 0 <= k < |queue| && Covered(queue[k], goal, result) && x in queue[k].items ::
      !HeldBy(s, d, queue[k].items[x])
  }

  /** A node that has to be waited for is in the attempt it was seen in, or began after the scan. */
  ghost predicate WaitInv(s: State, queue: seq<Chunk>, goal: Epoch, d: Tid) {
    && d in s.threads
    && (s.threads[d].version <= goal || forall k | 0 <= k < |queue| :: queue[k].epoch < s.threads[d].version)
  }

  /** The chunks the release loop is going to run may be freed. */
  ghost predicate ReleaseInv(s: State, queue: seq<Chunk>, drain: bool, bound: Epoch) {
    forall k, x | 0 <= k < |queue| && (drain || k == 0 || queue[k].epoch < bound) && x in queue[k].items ::
      NobodyHolds(s, queue[k].items[x])
  }

  ghost predicate GoalInv(queue: seq<Chunk>, goal: Epoch, drain: bool) {
    queue != [] && goal == if drain then queue[|queue| - 1].epoch else queue[0].epoch
  }

  ghost predicate AllPassed(s: State, queue: seq<Chunk>, todo: set<Tid>, goal: Epoch, result: Epoch) {
    forall d {:trigger Passed(s, queue, d, goal, result)} | d in s.threads && d !in todo ::
      Passed(s, queue, d, goal, result)
  }

  ghost predicate PhaseInv(s: State, agent: Agent, t: Tid)
    requires t in s.threads
  {
    && (!agent.phase.Working? ==> s.threads[t].pc.Idle? && agent.queue != [])
    && match agent.phase
       case Working => true
       case Scanning(goal, drain, todo, result) =>
         GoalInv(agent.queue, goal, drain) && AllPassed(s, agent.queue, todo, goal, result)
       case Waiting(goal, drain, todo, result, node) =>
         && GoalInv(agent.queue, goal, drain)
         && WaitInv(s, agent.queue, goal, node)
         && AllPassed(s, agent.queue, todo + {node}, goal, result)
       case Releasing(drain, bound) => ReleaseInv(s, agent.queue, drain, bound)
  }

  /** No attempt holds a storage that has been freed. */
  ghost predicate NothingFreedHeld(w: World) {
    forall v | v in w.place && w.place[v].Freed? :: NobodyHolds(w.stm, v)
  }

  ghost predicate AgentInv(w: World, t: Tid)
    requires t in w.agents && t in w.stm.threads
  {
    && QueueInv(w.stm, w.agents[t].queue, t)
    && CommitRetires(w.stm, t)
    && PhaseInv(w.stm, w.agents[t], t)
  }

  ghost predicate WorldInv(w: World) {
    && Inv(w.stm)
    && PlacesInv(w)
    && BirthsInv(w)
    && (forall t {:trigger AgentInv(w, t)} | t in w.agents :: AgentInv(w, t))
    && NothingFreedHeld(w)
  }
}
