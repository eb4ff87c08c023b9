/** What every reachable state of the protocol satisfies. */
module StmInvariant {
  import opened CommitLog
  import opened Options
  import opened Stm

  // ---------------------------------------------------------------- vocabulary

  /** The word of `x` was locked by this thread and not yet released. */
  ghost predicate Holds(th: Thread, x: Var) {
    match th.pc
    case Locking(todo) => x in th.writes && x !in todo
    case LockLoaded(todo, _, _) => x in th.writes && x !in todo
    case Unlocking(todo) => x in todo
    case UnlockLoaded(todo, _, _) => x in todo
    case Validating(_) => x in th.writes
    case Storing(_) => x in th.writes
    case Publishing(todo, _) => x in todo
    case _ => false
  }

  /** All locks taken, commit not yet in the log. */
  ghost predicate Complete(th: Thread) { th.pc.Validating? || th.pc.Storing? }

  /** The pending write to `x` has reached shared memory, its version has not. */
  ghost predicate Stored(th: Thread, x: Var) { th.pc.Storing? && x in th.writes && x !in th.pc.todo }

  ghost predicate OwnerIs(s: State, x: Var, t: Tid) { x in s.mem && s.mem[x].owner == Some(t) }

  /** `x` has, or is bound to get, a version above `v`. */
  ghost predicate Overtaken(s: State, v: Epoch, x: Var) {
    || LastVersion(s.log, |s.log|, x) > v
    || exists w :: OwnerIs(s, x, w) && w in s.threads && Stored(s.threads[w], x)
  }

  /** A storage loaded from `x` is the value at `v` unless `x` is overtaken. */
  ghost predicate LoadedAt(s: State, v: Epoch, x: Var, value: Storage) {
    v <= |s.log| && (value == Latest(s.init, s.log, v, x) || Overtaken(s, v, x))
  }

  /** Every commit to `x` above version `v`, made or under way, comes at `time` or later. */
  ghost predicate NothingBetween(s: State, v: Epoch, time: nat, x: Var) {
    && (forall j | v <= j < |s.log| && x in s.log[j].writes :: time <= s.log[j].time)
    && (forall w | OwnerIs(s, x, w) && w in s.threads && Complete(s.threads[w]) ::
          time <= s.threads[w].time)
  }

  /** A successful read: the value at version `v`, still the newest at `time`. */
  ghost predicate ReadAt(s: State, v: Epoch, time: nat, x: Var, value: Storage) {
    v <= |s.log| && value == Latest(s.init, s.log, v, x) && NothingBetween(s, v, time, x)
  }

  // ---------------------------------------------------------------- invariant

  ghost predicate CellInv(s: State, x: Var)
    requires x in s.mem
  {
    var c := s.mem[x];
    var n := |s.log|;
    match c.owner
    case None => c.word == LastVersion(s.log, n, x) && c.storage == Latest(s.init, s.log, n, x)
    case Some(w) =>
      w in s.threads &&
      var th := s.threads[w];
      && Holds(th, x)
      && x in th.writes
      && Locked(c.word)
      && if th.pc.Publishing? then
           c.storage == Latest(s.init, s.log, n, x) == th.writes[x]
           && LastVersion(s.log, n, x) == th.pc.published
         else
           && c.word == LOCK_BIT + LastVersion(s.log, n, x)
           && LastVersion(s.log, n, x) <= th.version
           && c.storage == (if Stored(th, x) then th.writes[x] else Latest(s.init, s.log, n, x))
           && (x in s.heap ==> x in th.cur && th.cur[x] == Latest(s.init, s.log, n, x))
           && (Complete(th) ==> forall j | 0 <= j < n && x in s.log[j].writes :: s.log[j].time < th.time)
  }

  ghost predicate InAttempt(th: Thread) { !th.pc.Idle? && !th.pc.Failed? }

  /** Which reads commit has made sure of: a locked variable needs no validation. */
  ghost predicate Checked(th: Thread, x: Var) {
    match th.pc
    case Validating(todo) => x !in todo
    case Storing(_) => true
    case _ => false
  }

  ghost predicate Committing(th: Thread) {
    th.pc.Locking? || th.pc.LockLoaded? || th.pc.Unlocking? || th.pc.UnlockLoaded?
    || th.pc.Validating? || th.pc.Storing? || th.pc.Publishing? || th.pc.Succeeding? || th.pc.Failing?
  }

  /** Every lock the thread believes it has, it has. */
  ghost predicate LocksInv(s: State, t: Tid)
    requires t in s.threads
  {
    forall x | Holds(s.threads[t], x) :: OwnerIs(s, x, t)
  }

  /** Read set, write set and callbacks fit together. */
  ghost predicate SetsInv(s: State, th: Thread) {
    && th.writes.Keys <= s.mem.Keys && th.readSet <= s.mem.Keys
    && (forall x | x in th.writes && x in s.heap :: x in th.cur || th.pc == Writing(x))
    && th.cur.Keys <= th.writes.Keys * s.heap
    && (th.kind.ReadOnly? ==> th.writes == map[])
    && th.seen <= th.held
    && (forall r | r in th.held :: r.0 in s.mem)
    && (forall r | r in th.seen :: r.0 in th.readSet || (Committing(th) && r.0 in th.writes))
    && (th.pc.Idle? || th.pc.Begun? || th.pc.Failed? ==>
          th.writes == map[] && th.held == {} && th.readSet == {})
  }

  /** The program counter's variables and worklists fit the sets. */
  ghost predicate PcInv(s: State, th: Thread) {
    match th.pc
    case Reading(x, _, tracked, slow) => x in s.mem && (th.kind.ReadOnly? ==> !slow && !tracked)
    case Rereading(x, _) => x in s.mem && th.kind.ReadWrite?
    case Writing(x) => x in th.writes && x in s.heap && x !in th.cur && th.kind.ReadWrite?
    case WritingSlow(x, _) => x in s.mem && x in s.heap && x !in th.writes && th.kind.ReadWrite?
    case WritingAtomic(x) => x in th.writes
    case Locking(todo) => todo <= th.writes.Keys && th.writes != map[] && th.readSet !! th.writes.Keys
    case LockLoaded(todo, x, word) =>
      todo <= th.writes.Keys && th.writes != map[] && x in todo && word <= th.version
      && th.readSet !! th.writes.Keys
    case Unlocking(todo) => todo <= th.writes.Keys
    case UnlockLoaded(todo, x, _) => todo <= th.writes.Keys && x in todo
    case Validating(todo) => todo <= th.readSet && th.writes != map[] && th.readSet !! th.writes.Keys
    case Storing(todo) => todo <= th.writes.Keys && th.writes != map[]
    case Publishing(todo, _) => todo <= th.writes.Keys
    case _ => true
  }

  /** What a thread knows about values it has loaded but not checked, and about its own commit. */
  ghost predicate LoadInv(s: State, th: Thread) {
    match th.pc
    case Reading(x, v, _, _) => LoadedAt(s, th.version, x, v)
    case WritingSlow(x, v) => LoadedAt(s, th.version, x, v)
    case LockLoaded(_, x, word) => th.version <= |s.log| && word == LastVersion(s.log, th.version, x)
    case UnlockLoaded(_, x, word) => word == LastVersion(s.log, |s.log|, x)
    case Publishing(_, published) =>
      && th.version < published <= |s.log|
      && s.log[published - 1].writes == th.writes
      && s.log[published - 1].seen == th.seen
    case Succeeding(sync) =>
      th.writes == map[] || (th.version <= sync < |s.log| && s.log[sync].writes == th.writes)
    case _ => true
  }

  /** The announced epoch and the times of the attempt. */
  ghost predicate AgeInv(s: State, th: Thread) {
    && th.active == (if th.pc.Idle? || th.pc.Begun? || th.pc.Failed? then OFF_STATE else th.version)
    && th.version <= |s.log|
    && (InAttempt(th) ==> th.began < s.now)
    && (InAttempt(th) ==> forall j | 0 <= j < th.version :: s.log[j].end < th.began)
    && (Complete(th) ==> th.began <= th.time < s.now)
  }

  /** Every read of the attempt is of the snapshot at its version. */
  ghost predicate ReadsInv(s: State, th: Thread) {
    && (forall r | r in th.held :: ReadAt(s, th.version, th.began, r.0, r.1))
    && (forall x | x in th.cur :: LoadedAt(s, th.version, x, th.cur[x]))
    && (forall r | r in th.seen && Checked(th, r.0) :: NothingBetween(s, th.version, th.time, r.0))
  }

  ghost predicate ThreadInv(s: State, t: Tid)
    requires t in s.threads
  {
    var th := s.threads[t];
    LocksInv(s, t) && SetsInv(s, th) && PcInv(s, th) && LoadInv(s, th) && AgeInv(s, th) && ReadsInv(s, th)
  }

  ghost predicate RecInv(s: State, r: Rec) {
    && r.begin <= r.time <= r.end < s.now
    && r.version <= |s.log|
    && (forall j | 0 <= j < r.version :: s.log[j].end < r.begin)
    && (forall p | p in r.seen :: ReadAt(s, r.version, r.time, p.0, p.1))
  }

  /** No two writers completed their locks at the same step. */
  ghost predicate TimesDistinct(s: State) {
    && (forall i, j | 0 <= i < j < |s.log| :: s.log[i].time != s.log[j].time)
    && (forall t, j {:trigger Complete(s.threads[t]), s.log[j]}
          | t in s.threads && Complete(s.threads[t]) && 0 <= j < |s.log| ::
          s.log[j].time != s.threads[t].time)
    && (forall t, u {:trigger Complete(s.threads[t]), Complete(s.threads[u])}
          | t in s.threads && u in s.threads && t != u
            && Complete(s.threads[t]) && Complete(s.threads[u]) ::
          s.threads[t].time != s.threads[u].time)
  }

  ghost predicate RecsInv(s: State) {
    && (forall i {:trigger RecInv(s, s.log[i])} | 0 <= i < |s.log| :: RecInv(s, s.log[i]))
    && (forall i {:trigger RecInv(s, s.quiet[i])} | 0 <= i < |s.quiet| :: RecInv(s, s.quiet[i]))
  }

  ghost predicate LogInv(s: State) {
    && s.clock == |s.log| < MAX_VERSION
    && RecsInv(s)
    && (forall i | 0 <= i < |s.log| :: s.log[i].version <= i && s.log[i].writer)
    && (forall i | 0 <= i < |s.quiet| ::
          !s.quiet[i].writer && s.quiet[i].writes == map[] && s.quiet[i].time == s.quiet[i].begin)
    && (forall i, j, x | 0 <= i < j < |s.log| && x in s.log[i].writes && x in s.log[j].writes ::
          s.log[i].time < s.log[j].time)
    && TimesDistinct(s)
  }

  ghost predicate CellsInv(s: State) {
    forall x {:trigger CellInv(s, x)} | x in s.mem :: CellInv(s, x)
  }

  ghost predicate ThreadsInv(s: State) {
    forall t {:trigger ThreadInv(s, t)} | t in s.threads :: ThreadInv(s, t)
  }

  ghost predicate Inv(s: State) { LogInv(s) && CellsInv(s) && ThreadsInv(s) }

  lemma InitInv(s: State)
    requires Init(s)
    ensures Inv(s)
  {
  }
}
