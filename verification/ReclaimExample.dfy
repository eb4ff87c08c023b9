/** Runs with reclamation exist: a concrete one in which a storage is replaced, waited for and freed. */
module ReclaimExample {
  import opened CommitLog
  import opened Options
  import opened Stm
  import opened Reclaim
  import opened ReclaimFree
  import opened ReclaimTheorems

  // one heap variable whose first storage is 0, a thread that writes it and one that reads it
  const X: Var := 0
  const A: Tid := 0
  const B: Tid := 1
  const OLD: Storage := 0
  const NEW: Storage := 1
  const INIT: Memory := map[X := OLD]

  const RECORD_A := Rec(4, 11, 14, 0, true, {}, map[X := NEW])
  const RECORD_B := Rec(0, 0, 18, 0, false, {(X, OLD)}, map[])

  /** B reads the variable and stays in its transaction; A replaces the storage, commits and scans,
      and has to wait for B; when B has left, A frees the storage. */
  function Act(k: nat): Move {
    match k
    case 0 => Tx(Begin(B, ReadOnly)) case 1 => Tx(Announce(B))
    case 2 => Tx(Load(B, X, false, false)) case 3 => Tx(CheckRead(B))
    case 4 => Tx(Begin(A, ReadWrite)) case 5 => Tx(Announce(A))
    case 6 => Tx(WriteFast(A, X, NEW)) case 7 => Tx(WriteFastLoad(A))
    case 8 => Tx(StartCommit(A)) case 9 => Tx(LockLoad(A, X)) case 10 => Tx(LockCas(A))
    case 11 => Tx(LocksDone(A)) case 12 => Tx(ReadsValid(A)) case 13 => Tx(StoreOne(A, X))
    case 14 => Tx(BumpClock(A)) case 15 => Tx(Publish(A, X)) case 16 => Tx(Published(A)) case 17 => Tx(Leave(A))
    case 18 => StartScan(A, false) case 19 => Look(A, B) case 20 => Poll(A)
    case 21 => Tx(CommitQuiet(B)) case 22 => Tx(Leave(B))
    case 23 => Poll(A) case 24 => Look(A, A) case 25 => ScanDone(A)
    case 26 => FreeItem(A, X)
    case _ => ChunkDone(A)
  }

  function Reader(k: nat): Thread {
    var started := NewThread.(kind := ReadOnly, active := 0);
    match k
    case 0 => NewThread
    case 1 => NewThread.(pc := Begun, kind := ReadOnly)
    case 2 => started.(pc := Body)
    case 3 => started.(pc := Reading(X, OLD, false, false))
    case _ =>
      if k < 22 then started.(pc := Body, held := {(X, OLD)})
      else if k < 23 then started.(pc := Succeeding(0), held := {(X, OLD)})
      else NewThread
  }

  function Writer(k: nat): Thread {
    var started := NewThread.(active := 0, began := 4);
    var pending := started.(writes := map[X := NEW]);
    var writing := pending.(cur := map[X := OLD]);
    if k < 5 || k > 17 then NewThread
    else
      match k
      case 5 => started.(pc := Begun, active := OFF_STATE)
      case 6 => started.(pc := Body)
      case 7 => pending.(pc := Writing(X))
      case 8 => writing.(pc := Body)
      case 9 => writing.(pc := Locking({X}))
      case 10 => writing.(pc := LockLoaded({X}, X, 0))
      case 11 => writing.(pc := Locking({}))
      case 12 => writing.(pc := Validating({}), time := 11)
      case 13 => writing.(pc := Storing({X}), time := 11)
      case 14 => writing.(pc := Storing({}), time := 11)
      case 15 => writing.(pc := Publishing({X}, 1), time := 11)
      case 16 => writing.(pc := Publishing({}, 1), time := 11)
      case _ => writing.(pc := Succeeding(0), time := 11)
  }

  function CellOf(k: nat): Cell {
    if k < 11 then Cell(0, OLD, None)
    else if k < 14 then Cell(LOCK_BIT, OLD, Some(A))
    else if k < 16 then Cell(LOCK_BIT, NEW, Some(A))
    else Cell(1, NEW, None)
  }

  function StmAt(k: nat): State {
    State(
      if k < 15 then 0 else 1, map[X := CellOf(k)], {X}, map[A := Writer(k), B := Reader(k)], INIT,
      if k < 15 then [] else [RECORD_A], if k < 22 then [] else [RECORD_B],
      if k < 19 then k else if k < 22 then 18 else if k < 23 then 19 else 20)
  }

  const IDLE := Agent([], {}, Working)

  function Reclaimer(k: nat): Agent {
    var queue := [Chunk(0, map[X := OLD])];
    if k < 18 || k > 27 then IDLE
    else if k < 19 then Agent(queue, {}, Working)
    else if k < 20 then Agent(queue, {}, Scanning(0, false, {A, B}, OFF_STATE))
    else if k < 24 then Agent(queue, {}, Waiting(0, false, {A}, OFF_STATE, B))
    else if k < 25 then Agent(queue, {}, Scanning(0, false, {A}, OFF_STATE))
    else if k < 26 then Agent(queue, {}, Scanning(0, false, {}, OFF_STATE))
    else if k < 27 then Agent(queue, {}, Releasing(false, OFF_STATE))
    else Agent([Chunk(0, map[])], {}, Releasing(false, OFF_STATE))
  }

  function PlaceOf(k: nat): map<Storage, Place> {
    if k < 7 then map[OLD := Current(X)]
    else if k < 14 then map[OLD := Current(X), NEW := Pending(A, X)]
    else if k < 18 then map[OLD := Replaced(A, X), NEW := Current(X)]
    else if k < 27 then map[OLD := Queued(A, 0, X), NEW := Current(X)]
    else map[OLD := Freed, NEW := Current(X)]
  }

  function NextOf(k: nat): Storage { if k < 7 then 1 else 2 }

  function OriginOf(k: nat): map<Storage, Var> { if k < 7 then map[OLD := X] else map[OLD := X, NEW := X] }

  function BornOf(k: nat): map<Storage, nat> { if k < 15 then map[OLD := 0] else map[OLD := 0, NEW := 1] }

  function WorldAt(k: nat): World {
    World(StmAt(k), map[A := Reclaimer(k), B := IDLE], NextOf(k), PlaceOf(k), OriginOf(k), BornOf(k))
  }

  ghost predicate Follows(k: nat) { CanMove(WorldAt(k), Act(k)) && WorldAt(k + 1) == Step(WorldAt(k), Act(k)) }

  ghost predicate StmFollows(k: nat)
    requires Act(k).Tx?
  {
    Enabled(StmAt(k), Act(k).a) && StmAt(k + 1) == Apply(StmAt(k), Act(k).a)
  }

  /** The sets and maps that occur on the way. */
  lemma Collections()
    ensures map[][X := NEW] == map[X := NEW] && map[][X := OLD] == map[X := OLD]
    ensures map[X := NEW].Keys == {X} && {X} - {X} == {} && {} - {X} == {} && {} + {(X, OLD)} == {(X, OLD)}
  {
  }

  lemma Queues()
    ensures [] + [Chunk(0, map[X := OLD])] == [Chunk(0, map[X := OLD])] && map[X := OLD] - {X} == map[]
    ensures [Chunk(0, map[X := OLD])][0 := Chunk(0, map[])] == [Chunk(0, map[])]
  {
  }

  lemma Nodes(k: nat)
    ensures StmAt(k).threads.Keys == {A, B} && {A, B} - {B} == {A} && {A} - {A} == {}
  {
  }

  /** A step is right if the acting thread, the cell and the logs are. */
  lemma StepIs(s: State, a: Action, s': State)
    requires Enabled(s, a)
    requires s.mem.Keys == s'.mem.Keys == {X} && s.threads.Keys == s'.threads.Keys == {A, B}
    requires s'.heap == s.heap && s'.init == s.init && s'.now == s.now + 1
    requires NextThread(s, a) == s'.threads[a.t] && s'.threads[1 - a.t] == s.threads[1 - a.t]
    requires NextMem(s, a).Keys == {X} && NextMem(s, a)[X] == s'.mem[X]
    requires s'.log == if a.BumpClock? then s.log + [WriterRec(s, s.threads[a.t])] else s.log
    requires s'.quiet == if a.CommitQuiet? then s.quiet + [QuietRec(s, s.threads[a.t])] else s.quiet
    requires s'.clock == if a.BumpClock? then s.clock + 1 else s.clock
    ensures s' == Apply(s, a)
  {
    assert s.threads[a.t := NextThread(s, a)] == s'.threads;
    assert NextMem(s, a) == s'.mem;
  }

  /** Most transaction steps leave everything but the protocol alone. */
  predicate Plain(a: Action) {
    !a.WriteFast? && !a.WriteSlowCheck? && !a.StoreOne? && !a.BumpClock? && !a.Leave?
  }

  lemma PlainIs(w: World, a: Action)
    requires TxEnabled(w, a) && Plain(a)
    ensures Step(w, Tx(a)) == w.(stm := Apply(w.stm, a))
  {
    assert w.agents[a.t := w.agents[a.t]] == w.agents;
  }

  lemma BumpIs(w: World, a: Action, v: Storage)
    requires TxEnabled(w, a) && a.BumpClock? && HeapWrites(w.stm, w.stm.threads[a.t]) == {v}
    ensures Step(w, Tx(a)) == w.(stm := Apply(w.stm, a), born := w.born[v := w.stm.clock + 1])
  {
    assert w.agents[a.t := w.agents[a.t]] == w.agents;
    assert Step(w, Tx(a)).born == w.born[v := w.stm.clock + 1];
  }

  ghost predicate PlainAt(k: nat) {
    && Act(k).Tx? && Plain(Act(k).a) && (Reclaimer(k).phase.Working? || Act(k).a.t == B)
    && Reclaimer(k + 1) == Reclaimer(k) && NextOf(k + 1) == NextOf(k) && PlaceOf(k + 1) == PlaceOf(k)
    && OriginOf(k + 1) == OriginOf(k) && BornOf(k + 1) == BornOf(k)
  }

  lemma PlainSteps(k: nat)
    requires k < 6 || 7 <= k < 13 || 15 <= k < 17 || k == 21
    ensures PlainAt(k)
  {
  }

  lemma PlainFollows(k: nat)
    requires PlainAt(k) && StmFollows(k)
    ensures Follows(k)
  {
    PlainIs(WorldAt(k), Act(k).a);
  }

  lemma ReclaimIs(w: World, m: Move, agent: Agent)
    requires CanMove(w, m) && !m.Tx? && !m.FreeDoomed? && !m.FreeItem? && agent == NextAgent(w, m)
    ensures Step(w, m) == w.(agents := w.agents[m.t := agent])
  {
  }

  lemma ReaderReads(k: nat)
    requires 0 <= k < 4
    ensures StmFollows(k)
  {
    Collections();
    StepIs(StmAt(k), Act(k).a, StmAt(k + 1));
  }

  lemma WriterWrites(k: nat)
    requires 4 <= k < 8
    ensures StmFollows(k)
  {
    Collections();
    StepIs(StmAt(k), Act(k).a, StmAt(k + 1));
  }

  lemma WriterLocks(k: nat)
    requires 8 <= k < 11
    ensures StmFollows(k)
  {
    Collections();
    StepIs(StmAt(k), Act(k).a, StmAt(k + 1));
  }

  lemma WriterValidates(k: nat)
    requires 11 <= k < 13
    ensures StmFollows(k)
  {
    Collections();
    StepIs(StmAt(k), Act(k).a, StmAt(k + 1));
  }

  lemma WriterStores(k: nat)
    requires k == 13
    ensures StmFollows(k)
  {
    Collections();
    StepIs(StmAt(k), Act(k).a, StmAt(k + 1));
  }

  lemma WriterBumps(k: nat)
    requires k == 14
    ensures StmFollows(k)
  {
    Collections();
    StepIs(StmAt(k), Act(k).a, StmAt(k + 1));
  }

  lemma WriterPublishes(k: nat)
    requires 15 <= k < 18
    ensures StmFollows(k)
  {
    Collections();
    StepIs(StmAt(k), Act(k).a, StmAt(k + 1));
  }

  lemma ReaderLeaves(k: nat)
    requires 21 <= k < 23
    ensures StmFollows(k)
  {
    Collections();
    StepIs(StmAt(k), Act(k).a, StmAt(k + 1));
  }

  /** The new storage is pending. */
  lemma Allocated(k: nat)
    requires k == 6 && StmFollows(k)
    ensures Follows(k)
  {
    assert WorldAt(k + 1).agents == Step(WorldAt(k), Act(k)).agents;
    assert WorldAt(k + 1).place == Step(WorldAt(k), Act(k)).place;
    assert WorldAt(k + 1).origin == Step(WorldAt(k), Act(k)).origin;
  }

  /** It takes the place of the old one. */
  lemma Swapped(k: nat)
    requires k == 13 && StmFollows(k)
    ensures Follows(k)
  {
    assert WorldAt(k + 1).agents == Step(WorldAt(k), Act(k)).agents;
    assert WorldAt(k + 1).place == Step(WorldAt(k), Act(k)).place;
  }

  ghost predicate BornAt(k: nat) {
    && Act(k) == Tx(BumpClock(A)) && HeapWrites(StmAt(k), Writer(k)) == {NEW}
    && Reclaimer(k + 1) == Reclaimer(k) && NextOf(k + 1) == NextOf(k) && PlaceOf(k + 1) == PlaceOf(k)
    && OriginOf(k + 1) == OriginOf(k) && BornOf(k + 1) == BornOf(k)[NEW := 1]
    && Reclaimer(k).phase.Working? && StmAt(k).clock == 0
  }

  lemma OnlyOneBorn(k: nat)
    requires k == 14
    ensures BornAt(k)
  {
    assert HeapWrites(StmAt(k), Writer(k)) == {NEW};
  }

  lemma Born(k: nat)
    requires BornAt(k) && StmFollows(k)
    ensures Follows(k)
  {
    BumpIs(WorldAt(k), Act(k).a, NEW);
  }

  /** Leaving queues what the commit replaced. */
  lemma LeaveIs(w: World, t: Tid, agent: Agent, place: map<Storage, Place>)
    requires TxEnabled(w, Leave(t)) && w.stm.threads[t].pc.Succeeding?
    requires agent == TxAgent(w, Leave(t)) && place.Keys == w.place.Keys
    requires forall v | v in place ::
               place[v] == if w.place[v].Replaced? && w.place[v].t == t
                           then Queued(t, w.stm.threads[t].pc.sync, w.place[v].x) else w.place[v]
    ensures Step(w, Tx(Leave(t))) == w.(stm := Apply(w.stm, Leave(t)), agents := w.agents[t := agent], place := place)
  {
    assert TxPlace(w, Leave(t)) == place;
  }

  /** Where the storages are afterwards, and what is queued. */
  ghost predicate LeftAt(k: nat) {
    && Act(k).Tx? && Act(k).a.Leave? && Act(k).a.t in WorldAt(k).agents && Act(k).a.t in StmAt(k).threads
    && var t, agent := Act(k).a.t, WorldAt(k + 1).agents[Act(k).a.t];
    && StmAt(k).threads[t].pc.Succeeding? && WorldAt(k).agents[t].phase.Working?
    && WorldAt(k + 1)
       == WorldAt(k).(stm := StmAt(k + 1), agents := WorldAt(k).agents[t := agent], place := PlaceOf(k + 1))
    && PlaceOf(k + 1).Keys == PlaceOf(k).Keys
    && forall v | v in PlaceOf(k) ::
         PlaceOf(k + 1)[v] == if PlaceOf(k)[v].Replaced? && PlaceOf(k)[v].t == t
                              then Queued(t, StmAt(k).threads[t].pc.sync, PlaceOf(k)[v].x) else PlaceOf(k)[v]
  }

  lemma WriterPlaces(k: nat)
    requires k == 17
    ensures LeftAt(k)
  {
    assert WorldAt(k).agents[A := Reclaimer(k + 1)] == WorldAt(k + 1).agents;
  }

  lemma ReaderPlaces(k: nat)
    requires k == 22
    ensures LeftAt(k)
  {
    assert WorldAt(k).agents[B := IDLE] == WorldAt(k).agents;
  }

  lemma Left(k: nat)
    requires LeftAt(k) && StmFollows(k) && (k == 17 || k == 22)
    ensures Follows(k)
  {
    Queues();
    LeaveIs(WorldAt(k), Act(k).a.t, WorldAt(k + 1).agents[Act(k).a.t], PlaceOf(k + 1));
  }

  lemma Waits(k: nat)
    requires 18 <= k < 21
    ensures Follows(k)
  {
    Nodes(k);
    ReclaimIs(WorldAt(k), Act(k), Reclaimer(k + 1));
    assert WorldAt(k + 1).agents == Step(WorldAt(k), Act(k)).agents;
  }

  lemma Scans(k: nat)
    requires 23 <= k < 26
    ensures Follows(k)
  {
    Nodes(k);
    ReclaimIs(WorldAt(k), Act(k), Reclaimer(k + 1));
    assert WorldAt(k + 1).agents == Step(WorldAt(k), Act(k)).agents;
  }

  lemma Frees(k: nat)
    requires k == 26
    ensures Follows(k) && FreedBy(WorldAt(k), Act(k)) == {OLD}
  {
    Queues();
    assert WorldAt(k + 1).agents == Step(WorldAt(k), Act(k)).agents;
    assert WorldAt(k + 1).place == Step(WorldAt(k), Act(k)).place;
  }

  lemma Drops(k: nat)
    requires k == 27
    ensures Follows(k)
  {
    ReclaimIs(WorldAt(k), Act(k), Reclaimer(k + 1));
    assert WorldAt(k + 1).agents == Step(WorldAt(k), Act(k)).agents;
  }

  lemma StmSteps(k: nat)
    requires k < 28 && Act(k).Tx?
    ensures StmFollows(k)
  {
    if k < 4 {
      ReaderReads(k);
    } else if k < 8 {
      WriterWrites(k);
    } else if k < 11 {
      WriterLocks(k);
    } else if k < 13 {
      WriterValidates(k);
    } else if k < 14 {
      WriterStores(k);
    } else if k < 15 {
      WriterBumps(k);
    } else if k < 18 {
      WriterPublishes(k);
    } else {
      ReaderLeaves(k);
    }
  }

  lemma TxSteps(k: nat)
    requires k < 28 && Act(k).Tx?
    ensures Follows(k)
  {
    StmSteps(k);
    match k {
      case 6 => Allocated(k);
      case 13 => Swapped(k);
      case 14 =>
        OnlyOneBorn(k);
        Born(k);
      case 17 =>
        WriterPlaces(k);
        Left(k);
      case 22 =>
        ReaderPlaces(k);
        Left(k);
      case _ =>
        PlainSteps(k);
        PlainFollows(k);
    }
  }

  lemma EveryStep(k: nat)
    requires k < 28
    ensures Follows(k)
  {
    if Act(k).Tx? {
      TxSteps(k);
    } else if k < 21 {
      Waits(k);
    } else if k < 26 {
      Scans(k);
    } else if k == 26 {
      Frees(k);
    } else {
      Drops(k);
    }
  }

  lemma StartsRight()
    ensures InitWorld(WorldAt(0))
  {
    assert WorldAt(0).stm.mem.Keys == {X} && WorldAt(0).stm.threads.Keys == {A, B};
  }

  /** The writer waits for the reader, which still holds the storage that was replaced. */
  ghost predicate WaitsForReader(w: World) {
    && A in w.agents && w.agents[A].phase.Waiting? && w.agents[A].phase.node == B
    && B in w.stm.threads && (X, OLD) in w.stm.threads[B].held
    && OLD in w.place && w.place[OLD] == Queued(A, 0, X)
  }

  lemma Waited()
    ensures WaitsForReader(WorldAt(21))
  {
  }

  lemma TheRun() returns (worlds: seq<World>, moves: seq<Move>)
    ensures WorldRun(worlds, moves) && |moves| == 28
    ensures (forall k | 0 <= k < 29 :: worlds[k] == WorldAt(k)) && forall k | 0 <= k < 28 :: moves[k] == Act(k)
  {
    worlds := seq(29, k requires 0 <= k < 29 => WorldAt(k));
    moves := seq(28, k requires 0 <= k < 28 => Act(k));
    StartsRight();
    forall i | 0 <= i < |moves| ensures MoveAt(worlds, moves, i) {
      EveryStep(i);
    }
  }

  /** There is a run in which a commit replaces a storage that another thread still holds, the
      scan waits for that thread, and the storage is freed when it has left. */
  lemma StorageIsFreed() returns (worlds: seq<World>, moves: seq<Move>)
    ensures WorldRun(worlds, moves) && |moves| == 28 && worlds[0].stm.heap == {X}
    ensures WaitsForReader(worlds[21])
    ensures MoveAt(worlds, moves, 26) && FreedBy(worlds[26], moves[26]) == {OLD}
    ensures worlds[28].place == map[OLD := Freed, NEW := Current(X)]
  {
    worlds, moves := TheRun();
    Waited();
    Frees(26);
    assert MoveAt(worlds, moves, 26);
  }
}
