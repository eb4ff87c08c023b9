/** Deferred reclamation on top of the protocol: who holds every heap storage, the queues of
    storages replaced by commits, and the grace-period scan that lets them be freed. */
module Reclaim {
  import opened CommitLog
  import opened Stm
  import opened StmInvariant

  /** What one commit replaced: the epoch it synchronizes on, and by variable the storage. */
  datatype Chunk = Chunk(epoch: Epoch, items: map<Var, Storage>)

  /** Where a thread is in freeing what it has queued.  `drain` tells `reclaim_all` from
      `reclaim_slow_path`; `todo` are the nodes still to be looked at. */
  datatype Phase =
    | Working
    | Scanning(goal: Epoch, drain: bool, todo: set<Tid>, result: Epoch)
    | Waiting(goal: Epoch, drain: bool, todo: set<Tid>, result: Epoch, node: Tid)
    | Releasing(drain: bool, bound: Epoch)

  /** `doomed`: storages of a failed attempt whose fail callbacks have not run yet. */
  datatype Agent = Agent(queue: seq<Chunk>, doomed: set<Storage>, phase: Phase)

  datatype Place =
    | Pending(t: Tid, x: Var)
    | Current(x: Var)
    | Replaced(t: Tid, x: Var)
    | Queued(t: Tid, epoch: Epoch, x: Var)
    | Doomed(t: Tid)
    | Freed

  /** `place`, `origin` and `born` are bookkeeping: where each allocated storage is, the variable
      it was allocated for, and the version that installed it. */
  datatype World = World(
    stm: State, agents: map<Tid, Agent>,
    next: Storage, place: map<Storage, Place>, origin: map<Storage, Var>, born: map<Storage, nat>)

  datatype Move =
    | Tx(a: Action)
    | FreeDoomed(t: Tid, v: Storage)
    | StartScan(t: Tid, drain: bool)
    | Look(t: Tid, d: Tid)
    | Poll(t: Tid)
    | ScanDone(t: Tid)
    | FreeItem(t: Tid, x: Var)
    | ChunkDone(t: Tid)

  ghost predicate InitWorld(w: World) {
    && Init(w.stm)
    && w.stm.heap <= w.stm.mem.Keys
    && w.agents.Keys == w.stm.threads.Keys
    && (forall t | t in w.agents :: w.agents[t] == Agent([], {}, Working))
    && (forall v: Storage :: v in w.place <==> v < w.next)
    && w.origin.Keys == w.place.Keys
    && (forall x | x in w.stm.heap ::
          var v := At(w.stm.init, x);
          v in w.place && w.place[v] == Current(x) && w.origin[v] == x && v in w.born && w.born[v] == 0)
    && (forall v | v in w.place ::
          w.place[v].Current? && w.place[v].x in w.stm.heap && At(w.stm.init, w.place[v].x) == v)
    && (forall v | v in w.born :: v in w.place)
  }

  /** The storages of the heap variables in a write set. */
  function HeapWrites(s: State, th: Thread): set<Storage> {
    set x | x in th.writes && x in s.heap :: th.writes[x]
  }

  /** This action hands a new storage to the write set. */
  predicate Allocates(s: State, a: Action)
    requires Enabled(s, a)
  {
    || (a.WriteFast? && a.x in s.heap)
    || (a.WriteSlowCheck? && Valid(s.threads[a.t], s.mem[s.threads[a.t].pc.x].word))
  }

  /** A transaction runs only on a thread that is not reclaiming, allocation returns a storage
      never seen before, and a new attempt starts after the fail callbacks of the last. */
  predicate TxEnabled(w: World, a: Action) {
    && Enabled(w.stm, a) && a.t in w.agents && w.agents[a.t].phase.Working?
    && (Allocates(w.stm, a) ==> a.s == w.next)
    && (a.Begin? || a.GiveUp? ==> w.agents[a.t].doomed == {})
  }

  predicate CanMove(w: World, m: Move) {
    match m
    case Tx(a) => TxEnabled(w, a)
    case FreeDoomed(t, v) => t in w.agents && v in w.agents[t].doomed && v in w.place
    case StartScan(t, _) =>
      && t in w.agents && w.agents[t].phase.Working? && w.agents[t].queue != []
      && t in w.stm.threads && w.stm.threads[t].pc.Idle?
    case Look(t, d) =>
      && t in w.agents && w.agents[t].phase.Scanning? && d in w.agents[t].phase.todo
      && d in w.stm.threads
    case Poll(t) => t in w.agents && w.agents[t].phase.Waiting? && w.agents[t].phase.node in w.stm.threads
    case ScanDone(t) => t in w.agents && w.agents[t].phase.Scanning? && w.agents[t].phase.todo == {}
    case FreeItem(t, x) =>
      && t in w.agents && w.agents[t].phase.Releasing? && w.agents[t].queue != []
      && x in w.agents[t].queue[0].items && w.agents[t].queue[0].items[x] in w.place
    case ChunkDone(t) =>
      && t in w.agents && w.agents[t].phase.Releasing? && w.agents[t].queue != []
      && w.agents[t].queue[0].items == map[]
  }

  // ---------------------------------------------------------------- transactions

  function TxAgent(w: World, a: Action): Agent
    requires TxEnabled(w, a)
  {
    var th, agent := w.stm.threads[a.t], w.agents[a.t];
    if !a.Leave? then agent
    else if th.pc.Failing? then agent.(doomed := HeapWrites(w.stm, th))
    else if th.cur == map[] then agent
    else agent.(queue := agent.queue + [Chunk(th.pc.sync, th.cur)])
  }

  function TxPlace(w: World, a: Action): map<Storage, Place>
    requires TxEnabled(w, a)
  {
    var s, th := w.stm, w.stm.threads[a.t];
    if Allocates(s, a) then
      w.place[a.s := Pending(a.t, if a.WriteFast? then a.x else th.pc.x)]
    else if a.StoreOne? && a.x in s.heap then
      w.place[s.mem[a.x].storage := Replaced(a.t, a.x)][th.writes[a.x] := Current(a.x)]
    else if a.Leave? && th.pc.Failing? then
      w.place + (map v | v in HeapWrites(s, th) :: Doomed(a.t))
    else if a.Leave? then
      map v | v in w.place ::
        if w.place[v].Replaced? && w.place[v].t == a.t then Queued(a.t, th.pc.sync, w.place[v].x)
        else w.place[v]
    else w.place
  }

  function TxWorld(w: World, a: Action): World
    requires TxEnabled(w, a)
  {
    var s, th := w.stm, w.stm.threads[a.t];
    w.(stm := Apply(s, a),
       agents := w.agents[a.t := TxAgent(w, a)],
       next := if Allocates(s, a) then w.next + 1 else w.next,
       place := TxPlace(w, a),
       origin := if Allocates(s, a) then w.origin[a.s := if a.WriteFast? then a.x else th.pc.x] else w.origin,
       born := if a.BumpClock?
               then w.born + (map v | v in HeapWrites(s, th) :: s.clock + BUMP_SIZE) else w.born)
  }

  // ---------------------------------------------------------------- reclamation

  function Min(a: Epoch, b: Epoch): Epoch { if a < b then a else b }

  /** The reclaiming thread after its move. */
  function NextAgent(w: World, m: Move): Agent
    requires CanMove(w, m) && !m.Tx?
  {
    var agent := w.agents[m.t];
    match m
    case FreeDoomed(_, v) => agent.(doomed := agent.doomed - {v})
    case StartScan(_, drain) =>
      var goal := if drain then agent.queue[|agent.queue| - 1].epoch else agent.queue[0].epoch;
      agent.(phase := Scanning(goal, drain, w.stm.threads.Keys, OFF_STATE))
    case Look(_, d) =>
      var p, epoch := agent.phase, w.stm.threads[d].active;
      if epoch <= p.goal then agent.(phase := Waiting(p.goal, p.drain, p.todo - {d}, p.result, d))
      else agent.(phase := Scanning(p.goal, p.drain, p.todo - {d}, Min(p.result, epoch)))
    case Poll(_) =>
      var p := agent.phase;
      if w.stm.threads[p.node].active <= p.goal then agent
      else agent.(phase := Scanning(p.goal, p.drain, p.todo, p.result))
    case ScanDone(_) => agent.(phase := Releasing(agent.phase.drain, agent.phase.result))
    case FreeItem(_, x) =>
      var c := agent.queue[0];
      agent.(queue := agent.queue[0 := c.(items := c.items - {x})])
    case ChunkDone(_) =>
      var rest := agent.queue[1..];
      agent.(queue := rest,
             phase := if rest != [] && (agent.phase.drain || rest[0].epoch < agent.phase.bound)
                      then agent.phase else Working)
  }

  function Step(w: World, m: Move): World
    requires CanMove(w, m)
  {
    match m
    case Tx(a) => TxWorld(w, a)
    case FreeDoomed(t, v) =>
      w.(agents := w.agents[t := NextAgent(w, m)], place := w.place[v := Freed])
    case FreeItem(t, x) =>
      w.(agents := w.agents[t := NextAgent(w, m)],
         place := w.place[w.agents[t].queue[0].items[x] := Freed])
    case _ => w.(agents := w.agents[m.t := NextAgent(w, m)])
  }
}
