/** The grace period: a storage is freed only when no attempt can still be using it. */
module ReclaimGrace {
  import opened CommitLog
  import opened Stm
  import opened StmInvariant
  import opened StmActor
  import opened StmStep
  import opened Reclaim
  import opened ReclaimInvariant
  import opened ReclaimPlaces

  // ---------------------------------------------------------------- who can hold what

  /** Every value a heap variable ever had was born for it, at the version that installed it. */
  lemma LatestIsBorn(w: World, v: nat, x: Var)
    requires BirthsInv(w) && v <= |w.stm.log| && x in w.stm.heap
    ensures var u := Latest(w.stm.init, w.stm.log, v, x);
      u in w.origin && w.origin[u] == x && u in w.born && w.born[u] == LastVersion(w.stm.log, v, x)
  {
    LatestIsLastWrite(w.stm.init, w.stm.log, v, x);
  }

  lemma HeldIsRead(s: State, d: Tid, x: Var, v: Storage)
    requires d in s.threads && ReadsInv(s, s.threads[d]) && (x, v) in s.threads[d].held
    ensures s.threads[d].version <= |s.log| && v == Latest(s.init, s.log, s.threads[d].version, x)
  {
    var p := (x, v);
    assert ReadAt(s, s.threads[d].version, s.threads[d].began, p.0, p.1);
  }

  lemma HeldIsBorn(w: World, d: Tid, v: Storage)
    requires BirthsInv(w) && d in w.stm.threads && ReadsInv(w.stm, w.stm.threads[d]) && HeldBy(w.stm, d, v)
    ensures v in w.born
  {
    var x :| x in w.stm.heap && (x, v) in w.stm.threads[d].held;
    HeldIsRead(w.stm, d, x, v);
    LatestIsBorn(w, w.stm.threads[d].version, x);
  }

  /** Whoever still holds a storage replaced by the commit at clock `e` began at `e` or before. */
  lemma HolderIsOld(w: World, d: Tid, e: Epoch, x: Var, v: Storage)
    requires BirthsInv(w) && d in w.stm.threads && ReadsInv(w.stm, w.stm.threads[d])
    requires Retired(w.stm, e, x, v) && HeldBy(w.stm, d, v)
    ensures w.stm.threads[d].version <= e
  {
    var s, version := w.stm, w.stm.threads[d].version;
    var y :| y in s.heap && (y, v) in s.threads[d].held;
    HeldIsRead(s, d, y, v);
    LatestIsBorn(w, version, y);
    LatestIsBorn(w, e, x);
    if e < version {
      LastVersionMonotone(s.log, e + 1, version, x);
      assert false;
    }
  }

  /** What a thread has read is announced: its node shows the version it reads at. */
  lemma HolderIsAnnounced(s: State, d: Tid, v: Storage)
    requires d in s.threads && SetsInv(s, s.threads[d]) && AgeInv(s, s.threads[d]) && HeldBy(s, d, v)
    ensures s.threads[d].active == s.threads[d].version
  {
    var x :| x in s.heap && (x, v) in s.threads[d].held;
  }

  /** A successful read returns what is in memory at the moment of the version test. */
  lemma NewHeldIsCurrent(w: World, a: Action)
    requires Enabled(w.stm, a) && a.CheckRead? && Inv(w.stm) && PlacesInv(w)
    requires w.stm.threads[a.t].pc.x in w.stm.heap
    requires Valid(w.stm.threads[a.t], w.stm.mem[w.stm.threads[a.t].pc.x].word)
    ensures w.stm.threads[a.t].pc.s in w.place && w.place[w.stm.threads[a.t].pc.s].Current?
  {
    var s, th := w.stm, w.stm.threads[a.t];
    assert ThreadInv(s, a.t) && CellInv(s, th.pc.x) && CellPlaced(w, th.pc.x);
    ValidMeansNewest(s, th.version, th.pc.x);
  }

  lemma HeldStep(s: State, a: Action, d: Tid, p: (Var, Storage))
    requires Enabled(s, a) && d in s.threads && p in Apply(s, a).threads[d].held
    ensures || p in s.threads[d].held
            || (a.CheckRead? && d == a.t && p == (s.threads[d].pc.x, s.threads[d].pc.s)
                && Valid(s.threads[d], s.mem[s.threads[d].pc.x].word))
  {
  }

  /** No transaction step lets anybody get hold of a storage that is no longer current. */
  lemma HeldStable(w: World, a: Action, d: Tid, v: Storage)
    requires TxEnabled(w, a) && Inv(w.stm) && PlacesInv(w) && d in w.stm.threads
    requires v in w.place && !w.place[v].Current? && !HeldBy(w.stm, d, v)
    ensures !HeldBy(Apply(w.stm, a), d, v)
  {
    var s' := Apply(w.stm, a);
    forall x | x in s'.heap && (x, v) in s'.threads[d].held
      ensures false
    {
      HeldStep(w.stm, a, d, (x, v));
      assert (x, v) !in w.stm.threads[d].held;
      NewHeldIsCurrent(w, a);
    }
  }

  lemma NobodyStable(w: World, a: Action, v: Storage)
    requires TxEnabled(w, a) && Inv(w.stm) && PlacesInv(w)
    requires v in w.place && !w.place[v].Current? && NobodyHolds(w.stm, v)
    ensures NobodyHolds(Apply(w.stm, a), v)
  {
    forall d | d in Apply(w.stm, a).threads ensures !HeldBy(Apply(w.stm, a), d, v) {
      HeldStable(w, a, d, v);
    }
  }

  // ---------------------------------------------------------------- transactions: births and queues

  /** The log only grows. */
  ghost predicate Extends(s: State, s': State) {
    && s'.init == s.init && s'.heap == s.heap && s'.threads.Keys == s.threads.Keys
    && s.log <= s'.log
  }

  lemma LogGrows(s: State, a: Action)
    requires Enabled(s, a)
    ensures Extends(s, Apply(s, a))
    ensures !a.BumpClock? ==> Apply(s, a).log == s.log
  {
  }

  /** An attempt keeps its version; a new one takes the clock. */
  lemma VersionKept(s: State, a: Action)
    requires Enabled(s, a)
    ensures var th, th' := s.threads[a.t], NextThread(s, a);
      && (th'.version == th.version || th'.version == s.clock || !InAttempt(th'))
      && (th'.version == th.version || th'.version == s.clock || th'.version == 0)
      && (InAttempt(th') && th'.version != s.clock ==> InAttempt(th))
  {
    if !Fresh(a) {
      AttemptFields(s, a);
    }
  }

  lemma BumpBirths(w: World, a: Action)
    requires TxEnabled(w, a) && a.BumpClock? && WritesPlaced(w, a.t) && w.stm.clock == |w.stm.log|
    ensures forall v | v in w.born :: v in TxWorld(w, a).born && TxWorld(w, a).born[v] == w.born[v]
    ensures forall x | x in w.stm.threads[a.t].writes && x in w.stm.heap ::
              var v := w.stm.threads[a.t].writes[x];
              && v in w.origin && w.origin[v] == x
              && v in TxWorld(w, a).born && TxWorld(w, a).born[v] == |w.stm.log| + 1
  {
    var s, th := w.stm, w.stm.threads[a.t];
    forall v | v in HeapWrites(s, th) ensures v !in w.born {
      var x :| x in th.writes && x in s.heap && th.writes[x] == v;
      assert WritePlaced(w, a.t, x);
    }
    forall x | x in th.writes && x in s.heap
      ensures th.writes[x] in HeapWrites(s, th) && th.writes[x] in w.origin && w.origin[th.writes[x]] == x
    {
      assert WritePlaced(w, a.t, x);
    }
  }

  lemma BirthsGrow(w: World, w': World)
    requires BirthsInv(w) && Extends(w.stm, w'.stm)
    requires forall v | v in w.origin :: v in w'.origin && w'.origin[v] == w.origin[v]
    requires forall v | v in w.born :: v in w'.born && w'.born[v] == w.born[v]
    requires forall i, x | |w.stm.log| <= i < |w'.stm.log| && x in w.stm.heap && x in w'.stm.log[i].writes ::
               var v := w'.stm.log[i].writes[x];
               v in w.origin && w.origin[v] == x && v in w'.born && w'.born[v] == i + 1
    ensures BirthsInv(w')
  {
    forall i, x | 0 <= i < |w'.stm.log| && x in w'.stm.heap && x in w'.stm.log[i].writes
      ensures var v := w'.stm.log[i].writes[x];
        v in w'.origin && w'.origin[v] == x && v in w'.born && w'.born[v] == i + 1
    {
      if i < |w.stm.log| {
        assert w'.stm.log[i] == w.stm.log[i];
      }
    }
  }

  lemma TxBirths(w: World, a: Action)
    requires TxEnabled(w, a) && BirthsInv(w) && PlacesInv(w) && w.stm.clock == |w.stm.log|
    ensures BirthsInv(TxWorld(w, a))
  {
    LogGrows(w.stm, a);
    if a.BumpClock? {
      BumpBirths(w, a);
    }
    BirthsGrow(w, TxWorld(w, a));
  }

  lemma RetiredStable(s: State, s': State, e: Epoch, x: Var, v: Storage)
    requires Extends(s, s') && Retired(s, e, x, v)
    ensures Retired(s', e, x, v)
  {
    PrefixKept(s.init, s.log, s'.log, e, x);
  }

  /** The success callbacks of a commit name exactly what the bump replaced. */
  lemma BumpRetires(s: State, a: Action)
    requires Enabled(s, a) && a.BumpClock? && s.clock == |s.log| && CellsInv(s)
    requires LocksInv(s, a.t) && SetsInv(s, s.threads[a.t])
    ensures CommitRetires(Apply(s, a), a.t)
  {
    var th, s' := s.threads[a.t], Apply(s, a);
    forall x | x in th.cur ensures Retired(s', |s.log|, x, th.cur[x]) {
      assert Stored(th, x) && Holds(th, x) && OwnerIs(s, x, a.t) && CellInv(s, x);
      PrefixKept(s.init, s.log, s'.log, |s.log|, x);
    }
  }

  /** What the thread says it is committing, at which epoch. */
  ghost predicate Retiring(th: Thread, e: Epoch) {
    match th.pc
    case Publishing(_, published) => published == e + 1
    case Succeeding(sync) => sync == e
    case _ => false
  }

  lemma RetiringKept(s: State, a: Action, e: Epoch)
    requires Enabled(s, a) && !a.BumpClock? && !a.CommitQuiet? && Retiring(NextThread(s, a), e)
    requires s.threads[a.t].pc.Publishing? ==> s.threads[a.t].pc.published > 0
    ensures Retiring(s.threads[a.t], e) && NextThread(s, a).cur == s.threads[a.t].cur
  {
  }

  lemma RetiresMeans(s: State, t: Tid)
    requires t in s.threads
    ensures CommitRetires(s, t) <==>
      (var th := s.threads[t];
       && (th.pc.Publishing? ==> th.pc.published > 0)
       && forall e: Epoch, x {:trigger Retired(s, e, x, th.cur[x])} | Retiring(th, e) && x in th.cur ::
            Retired(s, e, x, th.cur[x]))
  {
    var th := s.threads[t];
    if th.pc.Publishing? && th.pc.published > 0 {
      assert Retiring(th, th.pc.published - 1);
    }
    if th.pc.Succeeding? {
      assert Retiring(th, th.pc.sync);
    }
  }

  lemma PublishingPositive(s: State, a: Action)
    requires Enabled(s, a) && (s.threads[a.t].pc.Publishing? ==> s.threads[a.t].pc.published > 0)
    ensures NextThread(s, a).pc.Publishing? ==> NextThread(s, a).pc.published > 0
  {
  }

  lemma QuietHasNoCallbacks(s: State, a: Action)
    requires Enabled(s, a) && a.CommitQuiet? && SetsInv(s, s.threads[a.t])
    ensures NextThread(s, a).cur == map[]
  {
    assert s.threads[a.t].cur.Keys == {};
  }

  lemma OwnRetires(s: State, a: Action)
    requires Enabled(s, a) && !a.BumpClock? && CommitRetires(s, a.t) && SetsInv(s, s.threads[a.t])
    ensures CommitRetires(Apply(s, a), a.t)
  {
    var s', th, th' := Apply(s, a), s.threads[a.t], NextThread(s, a);
    RetiresMeans(s, a.t);
    PublishingPositive(s, a);
    LogGrows(s, a);
    if a.CommitQuiet? {
      QuietHasNoCallbacks(s, a);
    } else {
      forall e: Epoch, x | Retiring(th', e) && x in th'.cur ensures Retired(s', e, x, th'.cur[x]) {
        RetiringKept(s, a, e);
        RetiredStable(s, s', e, x, th.cur[x]);
      }
    }
    RetiresMeans(s', a.t);
  }

  lemma OtherRetires(s: State, s': State, t: Tid)
    requires Extends(s, s') && t in s.threads && s'.threads[t] == s.threads[t]
    requires CommitRetires(s, t)
    ensures CommitRetires(s', t)
  {
    var th := s.threads[t];
    RetiresMeans(s, t);
    forall e: Epoch, x | Retiring(th, e) && x in th.cur ensures Retired(s', e, x, th.cur[x]) {
      RetiredStable(s, s', e, x, th.cur[x]);
    }
    RetiresMeans(s', t);
  }

  lemma TxRetires(s: State, a: Action, t: Tid)
    requires Enabled(s, a) && Inv(s) && t in s.threads && CommitRetires(s, t)
    ensures CommitRetires(Apply(s, a), t)
  {
    assert ThreadInv(s, a.t);
    if t != a.t {
      LogGrows(s, a);
      OtherRetires(s, Apply(s, a), t);
    } else if a.BumpClock? {
      BumpRetires(s, a);
    } else {
      OwnRetires(s, a);
    }
  }

  lemma ChunkStable(s: State, s': State, c: Chunk)
    requires Extends(s, s') && ChunkRight(s, c)
    ensures ChunkRight(s', c)
  {
    forall x | x in c.items ensures Retired(s', c.epoch, x, c.items[x]) {
      RetiredStable(s, s', c.epoch, x, c.items[x]);
    }
  }

  /** The queue's facts survive growth of the log, as long as an attempt's version stays above
      everything queued. */
  lemma QueueStable(s: State, s': State, queue: seq<Chunk>, t: Tid)
    requires Extends(s, s') && QueueInv(s, queue, t)
    requires var th, th' := s.threads[t], s'.threads[t];
      InAttempt(th') ==> th'.version == |s.log| || (InAttempt(th) && th'.version == th.version)
    ensures QueueInv(s', queue, t)
  {
    forall k | 0 <= k < |queue| ensures ChunkRight(s', queue[k]) {
      ChunkStable(s, s', queue[k]);
    }
  }

  /** A chunk queued by a commit comes after everything this thread queued before. */
  lemma PushQueue(s: State, s': State, queue: seq<Chunk>, t: Tid, c: Chunk)
    requires Extends(s, s') && QueueInv(s, queue, t) && !InAttempt(s'.threads[t])
    requires InAttempt(s.threads[t]) && s.threads[t].version <= c.epoch && ChunkRight(s, c)
    ensures QueueInv(s', queue + [c], t)
  {
    var queue' := queue + [c];
    forall k | 0 <= k < |queue'| ensures ChunkRight(s', queue'[k]) {
      ChunkStable(s, s', queue'[k]);
    }
  }

  lemma LeaveQueue(w: World, a: Action)
    requires TxEnabled(w, a) && a.Leave? && QueueInv(w.stm, w.agents[a.t].queue, a.t)
    requires CommitRetires(w.stm, a.t) && LoadInv(w.stm, w.stm.threads[a.t]) && SetsInv(w.stm, w.stm.threads[a.t])
    ensures QueueInv(Apply(w.stm, a), TxAgent(w, a).queue, a.t)
  {
    var s, th, queue := w.stm, w.stm.threads[a.t], w.agents[a.t].queue;
    LogGrows(s, a);
    if th.pc.Succeeding? && th.cur != map[] {
      var x :| x in th.cur;
      assert x in th.writes;
      PushQueue(s, Apply(s, a), queue, a.t, Chunk(th.pc.sync, th.cur));
    } else {
      QueueStable(s, Apply(s, a), queue, a.t);
    }
  }

  lemma TxQueue(w: World, a: Action, t: Tid)
    requires TxEnabled(w, a) && t in w.agents && QueueInv(w.stm, w.agents[t].queue, t) && w.stm.clock == |w.stm.log|
    requires CommitRetires(w.stm, a.t) && LoadInv(w.stm, w.stm.threads[a.t]) && SetsInv(w.stm, w.stm.threads[a.t])
    ensures QueueInv(Apply(w.stm, a), TxWorld(w, a).agents[t].queue, t)
  {
    if t == a.t && a.Leave? {
      LeaveQueue(w, a);
    } else {
      LogGrows(w.stm, a);
      VersionKept(w.stm, a);
      assert TxWorld(w, a).agents[t] == w.agents[t];
      QueueStable(w.stm, Apply(w.stm, a), w.agents[t].queue, t);
    }
  }

  // ---------------------------------------------------------------- transactions: scans

  lemma PassedStable(w: World, a: Action, t: Tid, d: Tid, goal: Epoch, result: Epoch)
    requires TxEnabled(w, a) && Inv(w.stm) && PlacesInv(w)
    requires t in w.agents && d in w.stm.threads && Passed(w.stm, w.agents[t].queue, d, goal, result)
    ensures Passed(Apply(w.stm, a), w.agents[t].queue, d, goal, result)
  {
    var queue := w.agents[t].queue;
    assert AgentPlaced(w, t);
    forall k, x | 0 <= k < |queue| && Covered(queue[k], goal, result) && x in queue[k].items
      ensures !HeldBy(Apply(w.stm, a), d, queue[k].items[x])
    {
      HeldStable(w, a, d, queue[k].items[x]);
    }
  }

  lemma AllPassedStable(w: World, a: Action, t: Tid, todo: set<Tid>, goal: Epoch, result: Epoch)
    requires TxEnabled(w, a) && Inv(w.stm) && PlacesInv(w)
    requires t in w.agents && AllPassed(w.stm, w.agents[t].queue, todo, goal, result)
    ensures AllPassed(Apply(w.stm, a), w.agents[t].queue, todo, goal, result)
  {
    var queue, s' := w.agents[t].queue, Apply(w.stm, a);
    forall d | d in s'.threads && d !in todo ensures Passed(s', queue, d, goal, result) {
      assert Passed(w.stm, queue, d, goal, result);
      PassedStable(w, a, t, d, goal, result);
    }
  }

  /** A thread being waited for can only start over with a version above everything queued. */
  lemma WaitStable(s: State, s': State, queue: seq<Chunk>, t: Tid, goal: Epoch, d: Tid)
    requires QueueInv(s, queue, t) && WaitInv(s, queue, goal, d) && d in s'.threads
    requires var v, v' := s.threads[d].version, s'.threads[d].version;
      v' == v || v' == 0 || v' == |s.log|
    ensures WaitInv(s', queue, goal, d)
  {
    assert forall k | 0 <= k < |queue| :: ChunkRight(s, queue[k]);
  }

  lemma ReleaseStable(w: World, a: Action, t: Tid, drain: bool, bound: Epoch)
    requires TxEnabled(w, a) && Inv(w.stm) && PlacesInv(w)
    requires t in w.agents && ReleaseInv(w.stm, w.agents[t].queue, drain, bound)
    ensures ReleaseInv(Apply(w.stm, a), w.agents[t].queue, drain, bound)
  {
    var queue := w.agents[t].queue;
    assert AgentPlaced(w, t);
    forall k, x | 0 <= k < |queue| && (drain || k == 0 || queue[k].epoch < bound) && x in queue[k].items
      ensures NobodyHolds(Apply(w.stm, a), queue[k].items[x])
    {
      NobodyStable(w, a, queue[k].items[x]);
    }
  }

  lemma TxPhase(w: World, a: Action, t: Tid)
    requires TxEnabled(w, a) && Inv(w.stm) && PlacesInv(w) && t != a.t
    requires t in w.agents && t in w.stm.threads
    requires QueueInv(w.stm, w.agents[t].queue, t) && PhaseInv(w.stm, w.agents[t], t)
    ensures PhaseInv(Apply(w.stm, a), w.agents[t], t)
  {
    match w.agents[t].phase {
      case Working =>
      case Scanning(goal, drain, todo, result) => AllPassedStable(w, a, t, todo, goal, result);
      case Waiting(goal, drain, todo, result, node) =>
        AllPassedStable(w, a, t, todo + {node}, goal, result);
        VersionKept(w.stm, a);
        WaitStable(w.stm, Apply(w.stm, a), w.agents[t].queue, t, goal, node);
      case Releasing(drain, bound) => ReleaseStable(w, a, t, drain, bound);
    }
  }

  lemma TxAgentInv(w: World, a: Action, t: Tid)
    requires TxEnabled(w, a) && WorldInv(w) && t in w.agents
    ensures AgentInv(TxWorld(w, a), t)
  {
    assert ThreadInv(w.stm, a.t) && AgentInv(w, a.t) && AgentInv(w, t);
    TxQueue(w, a, t);
    TxRetires(w.stm, a, t);
    if t != a.t {
      TxPhase(w, a, t);
    }
  }

  lemma TxFreesNothing(w: World, a: Action, v: Storage)
    requires TxEnabled(w, a) && v in TxPlace(w, a) && TxPlace(w, a)[v].Freed?
    ensures v in w.place && w.place[v].Freed?
  {
  }

  lemma TxKeeps(w: World, a: Action)
    requires WorldInv(w) && TxEnabled(w, a)
    ensures WorldInv(TxWorld(w, a))
  {
    var w' := TxWorld(w, a);
    InvKept(w.stm, a);
    TxPlaces(w, a);
    TxBirths(w, a);
    forall t | t in w'.agents ensures AgentInv(w', t) {
      TxAgentInv(w, a, t);
    }
    forall v | v in w'.place && w'.place[v].Freed? ensures NobodyHolds(w'.stm, v) {
      TxFreesNothing(w, a, v);
      NobodyStable(w, a, v);
    }
  }
}
