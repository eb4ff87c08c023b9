/** What `try_commit` does while its thread is the only one that moves, whatever the others left
    behind: locks of other threads, newer versions, half-finished commits. */
module StmAlone {
  import opened CommitLog
  import opened Options
  import opened Stm
  import opened StmInvariant
  import opened StmActor
  import opened StmStep

  // ---------------------------------------------------------------- it ends

  /** `acts` leads from `s` to `s'`. */
  ghost predicate Leads(s: State, acts: seq<Action>, s': State)
    decreases acts
  {
    if acts == [] then s == s'
    else Enabled(s, acts[0]) && Leads(Apply(s, acts[0]), acts[1..], s')
  }

  lemma LeadsCons(s: State, a: Action, s1: State, rest: seq<Action>, s': State)
    requires Enabled(s, a) && s1 == Apply(s, a) && Leads(s1, rest, s')
    requires InCommit(a) && CommitsBy(rest, a.t)
    ensures Leads(s, [a] + rest, s') && CommitsBy([a] + rest, a.t)
  {
    assert ([a] + rest)[1..] == rest;
  }

  /** The actions of `try_commit` with a nonempty write set. */
  predicate InCommit(a: Action) {
    a.StartCommit? || a.LockLoad? || a.LockCas? || a.LocksDone? || a.Validate? || a.ReadsValid?
    || a.StoreOne? || a.BumpClock? || a.Publish? || a.Published?
    || a.UnlockLoad? || a.UnlockStore? || a.UnlockDone?
  }

  ghost predicate CommitsBy(acts: seq<Action>, t: Tid) {
    forall i | 0 <= i < |acts| :: acts[i].t == t && InCommit(acts[i])
  }

  predicate Bumped(pc: Pc) { pc.Publishing? || pc.Succeeding? }

  predicate Unlocks(pc: Pc) { pc.Unlocking? || pc.UnlockLoaded? }

  predicate Ended(pc: Pc) { pc.Succeeding? || pc.Failing? }

  /** In `try_commit`, or about to call it with something written; the clock has room. */
  ghost predicate Commits(s: State, t: Tid) {
    && t in s.threads
    && var pc := s.threads[t].pc;
       || Bumped(pc) || Unlocks(pc) || pc.Failing?
       || (&& s.clock < MAX_VERSION - BUMP_SIZE
           && ((pc.Body? && s.threads[t].writes != map[])
               || pc.Locking? || pc.LockLoaded? || pc.Validating? || pc.Storing?))
  }

  function Stage(pc: Pc): nat {
    match pc
    case Body => 6
    case Locking(_) => 5
    case LockLoaded(_, _, _) => 5
    case Validating(_) => 4
    case Storing(_) => 3
    case Publishing(_, _) => 2
    case Unlocking(_) => 1
    case UnlockLoaded(_, _, _) => 1
    case _ => 0
  }

  function Todo(pc: Pc): set<Var> {
    match pc
    case Locking(todo) => todo
    case LockLoaded(todo, _, _) => todo
    case Validating(todo) => todo
    case Storing(todo) => todo
    case Publishing(todo, _) => todo
    case Unlocking(todo) => todo
    case UnlockLoaded(todo, _, _) => todo
    case _ => {}
  }

  predicate Choosing(pc: Pc) { pc.Locking? || pc.Unlocking? }

  /** The action of a loop that takes `x` from its worklist. */
  function LoopAction(pc: Pc, t: Tid, x: Var): Action {
    match pc
    case Locking(_) => LockLoad(t, x)
    case Validating(_) => Validate(t, x)
    case Storing(_) => StoreOne(t, x)
    case Publishing(_, _) => Publish(t, x)
    case _ => UnlockLoad(t, x)
  }

  /** The action that ends the loop, or the one that is due. */
  function DueAction(pc: Pc, t: Tid): Action {
    match pc
    case Locking(_) => LocksDone(t)
    case LockLoaded(_, _, _) => LockCas(t)
    case Validating(_) => ReadsValid(t)
    case Storing(_) => BumpClock(t)
    case Publishing(_, _) => Published(t)
    case Unlocking(_) => UnlockDone(t)
    case UnlockLoaded(_, _, _) => UnlockStore(t)
    case _ => StartCommit(t)
  }

  /** A commit is never stuck. */
  lemma CommitAction(s: State, t: Tid) returns (a: Action)
    requires Inv(s) && Commits(s, t) && !Ended(s.threads[t].pc)
    ensures a.t == t && Enabled(s, a) && InCommit(a)
  {
    var pc := s.threads[t].pc;
    assert ThreadInv(s, t);
    if Todo(pc) == {} || pc.LockLoaded? || pc.UnlockLoaded? {
      a := DueAction(pc, t);
    } else {
      var x :| x in Todo(pc);
      a := LoopAction(pc, t, x);
    }
  }

  ghost predicate RankBelow(pc': Pc, pc: Pc) {
    || Stage(pc') < Stage(pc)
    || (Stage(pc') == Stage(pc) && Todo(pc') < Todo(pc))
    || (Stage(pc') == Stage(pc) && Todo(pc') == Todo(pc) && Choosing(pc) && !Choosing(pc'))
  }

  lemma RankDrops(s: State, a: Action)
    requires Enabled(s, a) && InCommit(a) && PcInv(s, s.threads[a.t])
    ensures RankBelow(NextThread(s, a).pc, s.threads[a.t].pc)
  {
  }

  lemma CommitGoesOn(s: State, a: Action)
    requires Enabled(s, a) && InCommit(a) && Commits(s, a.t)
    ensures Commits(Apply(s, a), a.t)
  {
  }

  lemma CommitStep(s: State, t: Tid) returns (a: Action, s': State)
    requires Inv(s) && Commits(s, t) && !Ended(s.threads[t].pc)
    ensures a.t == t && Enabled(s, a) && InCommit(a) && s' == Apply(s, a)
    ensures Inv(s') && Commits(s', t) && RankBelow(s'.threads[t].pc, s.threads[t].pc)
  {
    a := CommitAction(s, t);
    s' := Apply(s, a);
    InvKept(s, a);
    assert ThreadInv(s, t);
    RankDrops(s, a);
    CommitGoesOn(s, a);
  }

  /** From anywhere in it, `try_commit` ends by its own steps alone. */
  lemma {:induction false} AloneEnds(s: State, t: Tid) returns (acts: seq<Action>, s': State)
    requires Inv(s) && Commits(s, t)
    ensures Leads(s, acts, s') && CommitsBy(acts, t)
    ensures t in s'.threads && Ended(s'.threads[t].pc)
    decreases Stage(s.threads[t].pc), Todo(s.threads[t].pc), Choosing(s.threads[t].pc)
  {
    if Ended(s.threads[t].pc) {
      return [], s;
    }
    var a, s1 := CommitStep(s, t);
    var rest;
    rest, s' := AloneEnds(s1, t);
    LeadsCons(s, a, s1, rest, s');
    acts := [a] + rest;
  }

  // ---------------------------------------------------------------- what it computes

  /** Every variable written and every other variable read passes the version test. */
  ghost predicate AllOpen(s: State, t: Tid)
    requires t in s.threads
  {
    forall x | x in s.threads[t].writes.Keys + s.threads[t].readSet :: Open(s, t, x)
  }

  ghost predicate Open(s: State, t: Tid, x: Var)
    requires t in s.threads
  {
    x in s.mem && s.mem[x].word <= s.threads[t].version
  }

  function LockedBy(c: Cell, t: Tid): Cell { Cell(AsLocked(c.word), c.storage, Some(t)) }

  /** What has become of cell `c` of a variable with pending write `v`. */
  function CellAt(c: Cell, t: Tid, pc: Pc, x: Var, v: Storage, published: Epoch): Cell {
    match pc
    case Locking(todo) => if x in todo then c else LockedBy(c, t)
    case LockLoaded(todo, _, _) => if x in todo then c else LockedBy(c, t)
    case Validating(_) => LockedBy(c, t)
    case Storing(todo) => if x in todo then LockedBy(c, t) else LockedBy(c, t).(storage := v)
    case Publishing(todo, _) => if x in todo then LockedBy(c, t).(storage := v) else Cell(published, v, None)
    case Succeeding(_) => Cell(published, v, None)
    case Unlocking(todo) => if x in todo then LockedBy(c, t) else c
    case UnlockLoaded(todo, _, _) => if x in todo then LockedBy(c, t) else c
    case _ => c
  }

  /** What the thread knows about the cells it found. */
  ghost predicate Knows(s0: State, t: Tid, pc: Pc)
    requires t in s0.threads
  {
    var writes := s0.threads[t].writes;
    match pc
    case Locking(todo) => todo <= writes.Keys && forall x | x in writes && x !in todo :: Open(s0, t, x)
    case LockLoaded(todo, y, word) =>
      && y in todo && todo <= writes.Keys && (forall x | x in writes && x !in todo :: Open(s0, t, x))
      && Open(s0, t, y) && word == s0.mem[y].word
    case Validating(todo) =>
      forall x | x in writes.Keys + s0.threads[t].readSet && (x in writes || x !in todo) :: Open(s0, t, x)
    case Storing(_) => AllOpen(s0, t)
    case Publishing(_, published) => AllOpen(s0, t) && published == s0.clock + BUMP_SIZE
    case Succeeding(sync) => AllOpen(s0, t) && sync == s0.clock
    case Unlocking(todo) => todo <= writes.Keys && (forall x | x in todo :: Open(s0, t, x)) && !AllOpen(s0, t)
    case UnlockLoaded(todo, y, word) =>
      && y in todo && todo <= writes.Keys && (forall x | x in todo :: Open(s0, t, x)) && !AllOpen(s0, t)
      && word == s0.mem[y].word
    case Failing => !AllOpen(s0, t)
    case _ => false
  }

  ghost predicate CellsAt(s0: State, s: State, t: Tid, pc: Pc)
    requires t in s0.threads
  {
    var writes := s0.threads[t].writes;
    && s.mem.Keys == s0.mem.Keys && writes.Keys <= s0.mem.Keys
    && (forall x | x in s.mem && x !in writes :: s.mem[x] == s0.mem[x])
    && (forall x | x in writes :: s.mem[x] == CellAt(s0.mem[x], t, pc, x, writes[x], s0.clock + BUMP_SIZE))
  }

  /** The commit of `t` that began in `s0` has come to `s`. */
  ghost predicate AloneAt(s0: State, s: State, t: Tid) {
    && t in s0.threads && t in s.threads
    && var th0, th := s0.threads[t], s.threads[t];
    && th.version == th0.version && th.writes == th0.writes && th.readSet == th0.readSet - th0.writes.Keys
    && Knows(s0, t, th.pc)
    && CellsAt(s0, s, t, th.pc)
    && s.clock == if Bumped(th.pc) then s0.clock + BUMP_SIZE else s0.clock
  }

  /** Only an unlocked word passes the version test. */
  ghost predicate OpenIsFree(s: State, t: Tid)
    requires t in s.threads
  {
    forall x | Open(s, t, x) :: s.mem[x].owner == None && s.mem[x].word < LOCK_BIT
  }

  lemma FreeWhenOpen(s: State, t: Tid)
    requires Inv(s) && t in s.threads
    ensures OpenIsFree(s, t)
  {
    assert ThreadInv(s, t);
    forall x | Open(s, t, x) ensures s.mem[x].owner == None && s.mem[x].word < LOCK_BIT {
      assert CellInv(s, x);
    }
  }

  lemma StartAt(s0: State, t: Tid)
    requires Enabled(s0, StartCommit(t)) && SetsInv(s0, s0.threads[t])
    ensures AloneAt(s0, Apply(s0, StartCommit(t)), t)
  {
  }

  lemma LockLoadAt(s0: State, s: State, a: Action)
    requires AloneAt(s0, s, a.t) && Enabled(s, a) && a.LockLoad?
    ensures AloneAt(s0, Apply(s, a), a.t)
  {
    assert s.mem[a.x] == s0.mem[a.x] && a.x in s0.threads[a.t].writes;
    assert Valid(s.threads[a.t], s.mem[a.x].word) <==> Open(s0, a.t, a.x);
  }

  lemma LockCasAt(s0: State, s: State, a: Action)
    requires AloneAt(s0, s, a.t) && Enabled(s, a) && a.LockCas? && OpenIsFree(s0, a.t)
    ensures AloneAt(s0, Apply(s, a), a.t)
  {
    var x := s.threads[a.t].pc.x;
    assert s.mem[x] == s0.mem[x] && Open(s0, a.t, x);
  }

  lemma LocksDoneAt(s0: State, s: State, a: Action)
    requires AloneAt(s0, s, a.t) && Enabled(s, a) && a.LocksDone?
    ensures AloneAt(s0, Apply(s, a), a.t)
  {
  }

  lemma ValidateAt(s0: State, s: State, a: Action)
    requires AloneAt(s0, s, a.t) && Enabled(s, a) && a.Validate? && PcInv(s, s.threads[a.t])
    ensures AloneAt(s0, Apply(s, a), a.t)
  {
    assert a.x in s0.threads[a.t].readSet && s.mem[a.x] == s0.mem[a.x];
    assert Valid(s.threads[a.t], s.mem[a.x].word) <==> Open(s0, a.t, a.x);
  }

  lemma ReadsValidAt(s0: State, s: State, a: Action)
    requires AloneAt(s0, s, a.t) && Enabled(s, a) && a.ReadsValid?
    ensures AloneAt(s0, Apply(s, a), a.t)
  {
  }

  lemma StoreAt(s0: State, s: State, a: Action)
    requires AloneAt(s0, s, a.t) && Enabled(s, a) && a.StoreOne?
    ensures AloneAt(s0, Apply(s, a), a.t)
  {
  }

  lemma BumpAt(s0: State, s: State, a: Action)
    requires AloneAt(s0, s, a.t) && Enabled(s, a) && a.BumpClock?
    ensures AloneAt(s0, Apply(s, a), a.t)
  {
  }

  lemma PublishAt(s0: State, s: State, a: Action)
    requires AloneAt(s0, s, a.t) && Enabled(s, a) && a.Publish? && PcInv(s, s.threads[a.t])
    ensures AloneAt(s0, Apply(s, a), a.t)
  {
  }

  lemma PublishedAt(s0: State, s: State, a: Action)
    requires AloneAt(s0, s, a.t) && Enabled(s, a) && a.Published?
    ensures AloneAt(s0, Apply(s, a), a.t)
  {
  }

  lemma UnlockLoadAt(s0: State, s: State, a: Action)
    requires AloneAt(s0, s, a.t) && Enabled(s, a) && a.UnlockLoad? && OpenIsFree(s0, a.t)
    ensures AloneAt(s0, Apply(s, a), a.t)
  {
    assert Open(s0, a.t, a.x) && s.mem[a.x] == LockedBy(s0.mem[a.x], a.t);
  }

  lemma UnlockStoreAt(s0: State, s: State, a: Action)
    requires AloneAt(s0, s, a.t) && Enabled(s, a) && a.UnlockStore? && OpenIsFree(s0, a.t)
    ensures AloneAt(s0, Apply(s, a), a.t)
  {
    var x := s.threads[a.t].pc.x;
    assert Open(s0, a.t, x) && s.mem[x] == LockedBy(s0.mem[x], a.t);
  }

  lemma UnlockDoneAt(s0: State, s: State, a: Action)
    requires AloneAt(s0, s, a.t) && Enabled(s, a) && a.UnlockDone?
    ensures AloneAt(s0, Apply(s, a), a.t)
  {
  }

  lemma CheckAlone(s0: State, s: State, a: Action)
    requires AloneAt(s0, s, a.t) && Enabled(s, a) && PcInv(s, s.threads[a.t]) && OpenIsFree(s0, a.t)
    requires a.LockLoad? || a.LockCas? || a.LocksDone? || a.Validate? || a.ReadsValid?
    ensures AloneAt(s0, Apply(s, a), a.t)
  {
    match a {
      case LockLoad(_, _) => LockLoadAt(s0, s, a);
      case LockCas(_) => LockCasAt(s0, s, a);
      case LocksDone(_) => LocksDoneAt(s0, s, a);
      case Validate(_, _) => ValidateAt(s0, s, a);
      case ReadsValid(_) => ReadsValidAt(s0, s, a);
    }
  }

  lemma UndoAlone(s0: State, s: State, a: Action)
    requires AloneAt(s0, s, a.t) && Enabled(s, a) && OpenIsFree(s0, a.t)
    requires a.UnlockLoad? || a.UnlockStore? || a.UnlockDone?
    ensures AloneAt(s0, Apply(s, a), a.t)
  {
    match a {
      case UnlockLoad(_, _) => UnlockLoadAt(s0, s, a);
      case UnlockStore(_) => UnlockStoreAt(s0, s, a);
      case UnlockDone(_) => UnlockDoneAt(s0, s, a);
    }
  }

  lemma InstallAlone(s0: State, s: State, a: Action)
    requires AloneAt(s0, s, a.t) && Enabled(s, a) && PcInv(s, s.threads[a.t])
    requires a.StoreOne? || a.BumpClock? || a.Publish? || a.Published?
    ensures AloneAt(s0, Apply(s, a), a.t)
  {
    match a {
      case StoreOne(_, _) => StoreAt(s0, s, a);
      case BumpClock(_) => BumpAt(s0, s, a);
      case Publish(_, _) => PublishAt(s0, s, a);
      case Published(_) => PublishedAt(s0, s, a);
    }
  }

  lemma StepAlone(s0: State, s: State, a: Action)
    requires AloneAt(s0, s, a.t) && Enabled(s, a) && InCommit(a) && PcInv(s, s.threads[a.t])
    requires OpenIsFree(s0, a.t)
    ensures AloneAt(s0, Apply(s, a), a.t)
  {
    if a.LockLoad? || a.LockCas? || a.LocksDone? || a.Validate? || a.ReadsValid? {
      CheckAlone(s0, s, a);
    } else if a.UnlockLoad? || a.UnlockStore? || a.UnlockDone? {
      UndoAlone(s0, s, a);
    } else {
      assert !a.StartCommit?;
      InstallAlone(s0, s, a);
    }
  }

  lemma NextAlone(s0: State, s: State, a: Action)
    requires Inv(s) && AloneAt(s0, s, a.t) && Enabled(s, a) && InCommit(a) && OpenIsFree(s0, a.t)
    ensures Inv(Apply(s, a)) && AloneAt(s0, Apply(s, a), a.t)
  {
    assert ThreadInv(s, a.t);
    StepAlone(s0, s, a);
    InvKept(s, a);
  }

  lemma {:induction false} LeadsAlone(s0: State, s: State, acts: seq<Action>, s': State, t: Tid)
    requires Inv(s) && AloneAt(s0, s, t) && OpenIsFree(s0, t)
    requires Leads(s, acts, s') && CommitsBy(acts, t)
    ensures AloneAt(s0, s', t)
    decreases |acts|
  {
    if acts != [] {
      NextAlone(s0, s, acts[0]);
      LeadsAlone(s0, Apply(s, acts[0]), acts[1..], s', t);
    }
  }

  /** The memory after: every pending write under one version, all other cells as they were. */
  ghost predicate Installed(s: State, t: Tid, s': State)
    requires t in s.threads
  {
    && s'.mem.Keys == s.mem.Keys && s'.clock == s.clock + BUMP_SIZE
    && forall x | x in s.mem ::
         s'.mem[x] == if x in s.threads[t].writes then Cell(s'.clock, s.threads[t].writes[x], None) else s.mem[x]
  }

  /** Whatever order it visits its sets in, a commit that only its own thread moves succeeds exactly
      if every variable written and every other variable read passes the version test when it
      starts.  Then all its writes are in memory under one new version; otherwise memory and clock
      are exactly what they were. */
  lemma AloneCommits(s: State, acts: seq<Action>, s': State, t: Tid)
    requires Inv(s) && Enabled(s, StartCommit(t)) && acts != [] && acts[0] == StartCommit(t)
    requires Leads(s, acts, s') && CommitsBy(acts, t)
    requires t in s'.threads && Ended(s'.threads[t].pc)
    ensures s'.threads[t].pc.Succeeding? <==> AllOpen(s, t)
    ensures s'.threads[t].pc.Succeeding? ==> s'.threads[t].pc.sync == s.clock && Installed(s, t, s')
    ensures s'.threads[t].pc.Failing? ==> s'.mem == s.mem && s'.clock == s.clock
  {
    StartAlone(s, t);
    LeadsAlone(s, Apply(s, acts[0]), acts[1..], s', t);
    EndAlone(s, s', t);
  }

  lemma StartAlone(s: State, t: Tid)
    requires Inv(s) && Enabled(s, StartCommit(t))
    ensures var s1 := Apply(s, StartCommit(t)); Inv(s1) && AloneAt(s, s1, t) && OpenIsFree(s, t)
  {
    assert ThreadInv(s, t);
    FreeWhenOpen(s, t);
    StartAt(s, t);
    InvKept(s, StartCommit(t));
  }

  lemma EndAlone(s: State, s': State, t: Tid)
    requires AloneAt(s, s', t) && Ended(s'.threads[t].pc)
    ensures s'.threads[t].pc.Succeeding? <==> AllOpen(s, t)
    ensures s'.threads[t].pc.Succeeding? ==> s'.threads[t].pc.sync == s.clock && Installed(s, t, s')
    ensures s'.threads[t].pc.Failing? ==> s'.mem == s.mem && s'.clock == s.clock
  {
  }
}
