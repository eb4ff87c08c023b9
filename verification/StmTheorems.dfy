/** What the protocol promises, for every run of any number of threads. */
module StmTheorems {
  import opened CommitLog
  import opened Options
  import opened SerialOrder
  import opened Stm
  import opened StmInvariant
  import opened StmProof
  import opened StmActor
  import opened StmStep

  /** The `i`th action is enabled where it is taken and leads to the next state. */
  ghost predicate StepAt(states: seq<State>, acts: seq<Action>, i: nat)
    requires |states| == |acts| + 1 && i < |acts|
  {
    Enabled(states[i], acts[i]) && states[i + 1] == Apply(states[i], acts[i])
  }

  /** `states` is a run that takes the actions `acts` in turn. */
  ghost predicate Run(states: seq<State>, acts: seq<Action>) {
    && |states| == |acts| + 1
    && Init(states[0])
    && forall i {:trigger StepAt(states, acts, i)} | 0 <= i < |acts| :: StepAt(states, acts, i)
  }

  lemma {:induction false} RunInv(states: seq<State>, acts: seq<Action>, i: nat)
    requires Run(states, acts) && i < |states|
    ensures Inv(states[i])
  {
    if i == 0 {
      InitInv(states[0]);
    } else {
      RunInv(states, acts, i - 1);
      assert StepAt(states, acts, i - 1);
      InvKept(states[i - 1], acts[i - 1]);
    }
  }

  // ---------------------------------------------------------------- opacity

  /** Every successful read of memory of an attempt, tracked or not, whatever becomes of the
      attempt, is of the value its variable had after exactly `version` commits. */
  lemma Opacity(states: seq<State>, acts: seq<Action>, i: nat, t: Tid, x: Var, value: Storage)
    requires Run(states, acts) && i < |states|
    requires t in states[i].threads && (x, value) in states[i].threads[t].held
    ensures var s := states[i];
      s.threads[t].version <= s.clock == |s.log|
      && value == Latest(s.init, s.log, s.threads[t].version, x)
  {
    RunInv(states, acts, i);
    var s := states[i];
    assert ThreadInv(s, t);
    assert ReadAt(s, s.threads[t].version, s.threads[t].began, (x, value).0, (x, value).1);
  }

  // ---------------------------------------------------------------- serializability

  lemma LogIsRight(s: State)
    requires LogInv(s)
    ensures LogRight(s.log, s.quiet)
    ensures forall r | r in s.log + s.quiet :: WellTimed(s.init, s.log, r)
  {
    forall r | r in s.log + s.quiet
      ensures WellTimed(s.init, s.log, r)
    {
      assert RecInv(s, r);
      RecordWellTimed(s, r);
    }
  }

  lemma RecordWellTimed(s: State, r: Rec)
    requires LogInv(s) && RecInv(s, r)
    ensures WellTimed(s.init, s.log, r)
  {
    forall p | p in r.seen
      ensures ReadRight(s.init, s.log, r, p)
    {
      assert ReadAt(s, r.version, r.time, p.0, p.1);
      assert forall j | 0 <= j < r.version :: RecInv(s, s.log[j]) && s.log[j].end < r.begin;
    }
  }

  /** At every point of every run the committed transactions are equivalent to running them one
      at a time in the order of their time stamps: writers at the step their locks were complete,
      the others at the step they read the clock. */
  lemma Serializability(states: seq<State>, acts: seq<Action>, i: nat)
    requires Run(states, acts) && i < |states|
    ensures var s := states[i];
      SerialFor(s.init, s.log, s.quiet, Sort(s.log + s.quiet))
  {
    RunInv(states, acts, i);
    LogIsRight(states[i]);
    SortIsSerial(states[i].init, states[i].log, states[i].quiet);
  }

  /** At every point of every run the committed transactions together with any attempt still under
      way, with every read of memory it has made so far, even if it fails later, are one serial
      execution: the attempt goes where it read the clock. */
  lemma LiveAttemptIsSerial(states: seq<State>, acts: seq<Action>, i: nat, t: Tid)
    requires Run(states, acts) && i < |states|
    requires t in states[i].threads && InAttempt(states[i].threads[t])
    ensures var s := states[i];
      var quiet := s.quiet + [QuietRec(s, s.threads[t])];
      SerialFor(s.init, s.log, quiet, Sort(s.log + quiet))
  {
    RunInv(states, acts, i);
    var s := states[i];
    AttemptWellTimed(s, t);
    LogIsRight(s);
    var quiet := s.quiet + [QuietRec(s, s.threads[t])];
    assert forall r | r in s.log + quiet :: r in s.log + s.quiet || r == QuietRec(s, s.threads[t]);
    SortIsSerial(s.init, s.log, quiet);
  }

  lemma AttemptWellTimed(s: State, t: Tid)
    requires Inv(s) && t in s.threads && InAttempt(s.threads[t])
    ensures WellTimed(s.init, s.log, QuietRec(s, s.threads[t]))
  {
    var th := s.threads[t];
    assert ThreadInv(s, t);
    forall p | p in th.held ensures ReadRight(s.init, s.log, QuietRec(s, th), p) {
      assert ReadAt(s, th.version, th.began, p.0, p.1);
      assert forall j | 0 <= j < th.version :: RecInv(s, s.log[j]) && s.log[j].end < th.began;
    }
  }

  /** What is in memory is what the log says: an unlocked variable carries the last version that
      wrote it and that version's value.  In particular every commit that failed left no trace. */
  lemma MemoryIsTheLog(states: seq<State>, acts: seq<Action>, i: nat, x: Var)
    requires Run(states, acts) && i < |states| && x in states[i].mem
    ensures var s, n, c := states[i], |states[i].log|, states[i].mem[x];
      && (!Locked(c.word) <==> c.owner == None)
      && (!Locked(c.word) ==>
            && c.word == LastVersion(s.log, n, x) <= s.clock
            && c.storage == Latest(s.init, s.log, n, x))
      && (Locked(c.word) ==> forall t | t in s.threads :: s.threads[t].version < c.word)
  {
    RunInv(states, acts, i);
    var s := states[i];
    assert CellInv(s, x);
    assert forall t | t in s.threads :: ThreadInv(s, t);
  }

  // ---------------------------------------------------------------- all or nothing

  predicate PastStore(pc: Pc) {
    pc.Storing? || pc.Publishing? || pc.Succeeding?
  }

  lemma StoreStep(s: State, a: Action, t: Tid)
    requires Enabled(s, a)
    requires (a.StoreOne? && a.t == t) || (t in s.threads && PastStore(s.threads[t].pc) && a != Leave(t))
    ensures t in Apply(s, a).threads && PastStore(Apply(s, a).threads[t].pc)
  {
  }

  /** An attempt that has stored one pending write can only go on to succeed. */
  lemma {:induction false} StoredMeansCommitted(states: seq<State>, acts: seq<Action>, k: nat, j: nat, t: Tid)
    requires Run(states, acts) && k < j < |states|
    requires acts[k].StoreOne? && acts[k].t == t
    requires forall m | k < m < j :: acts[m] != Leave(t)
    ensures t in states[j].threads && PastStore(states[j].threads[t].pc)
  {
    if j > k + 1 {
      StoredMeansCommitted(states, acts, k, j - 1, t);
    }
    assert StepAt(states, acts, j - 1);
    StoreStep(states[j - 1], acts[j - 1], t);
  }

  lemma PublishedInstalled(s: State, th: Thread, x: Var)
    requires LoadInv(s, th) && th.pc.Publishing? && x in th.writes
    ensures th.version < th.pc.published <= |s.log|
    ensures s.log[th.pc.published - 1].writes == th.writes
    ensures Latest(s.init, s.log, th.pc.published, x) == th.writes[x]
    ensures LastVersion(s.log, |s.log|, x) >= th.pc.published
  {
    LastVersionMonotone(s.log, th.pc.published, |s.log|, x);
  }

  /** A commit publishes its whole write set under one version, above every version it replaces. */
  lemma CommitInstallsAll(states: seq<State>, acts: seq<Action>, i: nat, t: Tid, x: Var)
    requires Run(states, acts) && i < |acts| && StepAt(states, acts, i) && acts[i] == Published(t)
    requires x in states[i].threads[t].writes
    ensures var s, th := states[i], states[i].threads[t];
      && th.version < th.pc.published <= s.clock == |s.log|
      && s.log[th.pc.published - 1].writes == th.writes
      && Latest(s.init, s.log, th.pc.published, x) == th.writes[x]
      && LastVersion(s.log, |s.log|, x) >= th.pc.published
  {
    RunInv(states, acts, i);
    var s := states[i];
    assert ThreadInv(s, t) && s.threads[t].pc.Publishing?;
    PublishedInstalled(s, s.threads[t], x);
  }

  /** Nobody who has left or is about to leave an attempt owns a variable. */
  lemma NothingLeftLocked(states: seq<State>, acts: seq<Action>, i: nat, t: Tid, x: Var)
    requires Run(states, acts) && i < |states| && t in states[i].threads
    requires var pc := states[i].threads[t].pc; pc.Failing? || pc.Failed? || pc.Succeeding? || pc.Idle?
    ensures !OwnerIs(states[i], x, t)
  {
    RunInv(states, acts, i);
    if x in states[i].mem {
      assert CellInv(states[i], x);
    }
  }

  // ---------------------------------------------------------------- clock and versions

  /** No version and no announced epoch exceeds the clock, which stays below the lock bit, and the
      value that means `not announced` is above every epoch. */
  lemma ClockAndVersions(states: seq<State>, acts: seq<Action>, i: nat, t: Tid)
    requires Run(states, acts) && i < |states| && t in states[i].threads
    ensures var s, th := states[i], states[i].threads[t];
      && th.version <= s.clock < MAX_VERSION < LOCK_BIT < OFF_STATE
      && (th.active == OFF_STATE || th.active == th.version)
      && (th.pc.Begun? || th.pc.Idle? || th.pc.Failed? <==> th.active == OFF_STATE)
  {
    RunInv(states, acts, i);
    assert ThreadInv(states[i], t);
  }

  lemma StoredIsLocked(s: State, t: Tid, x: Var)
    requires Inv(s) && Enabled(s, BumpClock(t)) && x in s.threads[t].writes
    ensures x in s.mem && Locked(s.mem[x].word) && FlipLock(s.mem[x].word) <= s.threads[t].version
  {
    assert ThreadInv(s, t) && Holds(s.threads[t], x) && OwnerIs(s, x, t) && CellInv(s, x);
  }

  /** A commit gives every variable it writes a version strictly above the one it locked. */
  lemma BumpRaises(states: seq<State>, acts: seq<Action>, i: nat, t: Tid, x: Var)
    requires Run(states, acts) && i < |acts| && StepAt(states, acts, i)
    requires acts[i] == BumpClock(t) && x in states[i].threads[t].writes
    ensures x in states[i].mem && Locked(states[i].mem[x].word)
    ensures states[i + 1].threads[t].pc.Publishing?
    ensures FlipLock(states[i].mem[x].word) < states[i + 1].threads[t].pc.published == states[i + 1].clock
  {
    RunInv(states, acts, i);
    StoredIsLocked(states[i], t, x);
    ClockAndVersions(states, acts, i, t);
  }

  // ---------------------------------------------------------------- failed commits

  ghost predicate HeldThrough(states: seq<State>, t: Tid, x: Var, i: nat, j: nat)
    requires j < |states|
  {
    forall k {:trigger OwnerIs(states[k], x, t)} | i <= k <= j :: OwnerIs(states[k], x, t)
  }

  lemma PublishingStep(s: State, a: Action, t: Tid, x: Var)
    requires Inv(s) && Enabled(s, a) && Inv(Apply(s, a)) && OwnerIs(Apply(s, a), x, t)
    requires a == BumpClock(t) || (t in s.threads && s.threads[t].pc.Publishing?)
    ensures t in Apply(s, a).threads && Apply(s, a).threads[t].pc.Publishing?
  {
    assert CellInv(Apply(s, a), x);
  }

  lemma PublishingStepAt(states: seq<State>, acts: seq<Action>, t: Tid, x: Var, k: nat)
    requires Run(states, acts) && k < |acts| && OwnerIs(states[k + 1], x, t)
    requires acts[k] == BumpClock(t) || (t in states[k].threads && states[k].threads[t].pc.Publishing?)
    ensures t in states[k + 1].threads && states[k + 1].threads[t].pc.Publishing?
  {
    RunInv(states, acts, k);
    RunInv(states, acts, k + 1);
    assert StepAt(states, acts, k);
    PublishingStep(states[k], acts[k], t, x);
  }

  /** After its bump a thread that owns a variable is publishing. */
  lemma {:induction false} PublishingStays(states: seq<State>, acts: seq<Action>, t: Tid, x: Var, i: nat, j: nat)
    requires Run(states, acts) && i < j < |states| && acts[i] == BumpClock(t) && HeldThrough(states, t, x, i, j)
    ensures t in states[j].threads && states[j].threads[t].pc.Publishing?
  {
    if j > i + 1 {
      PublishingStays(states, acts, t, x, i, j - 1);
    }
    assert OwnerIs(states[j], x, t);
    PublishingStepAt(states, acts, t, x, j - 1);
  }

  /** The cell of `x` when nobody has it locked: the last version that wrote it and its value. */
  ghost function FreeCell(s: State, x: Var): Cell {
    Cell(LastVersion(s.log, |s.log|, x), Latest(s.init, s.log, |s.log|, x), None)
  }

  /** A step that is not the owner's bump leaves the last version of an owned variable alone. */
  lemma OwnedStep(s: State, a: Action, t: Tid, x: Var)
    requires Inv(s) && Enabled(s, a) && OwnerIs(s, x, t) && a != BumpClock(t)
    ensures FreeCell(Apply(s, a), x) == FreeCell(s, x)
  {
    assert ThreadInv(s, a.t);
    if a.LockCas? {
      assert CellInv(s, s.threads[a.t].pc.x);
    }
    StepShape(s, a);
    if a.t != t || !a.BumpClock? {
      LastVersionKept(s, Apply(s, a), a.t, x);
    }
  }

  lemma OwnedStepAt(states: seq<State>, acts: seq<Action>, t: Tid, x: Var, k: nat)
    requires Run(states, acts) && k < |acts| && OwnerIs(states[k], x, t) && acts[k] != BumpClock(t)
    ensures FreeCell(states[k + 1], x) == FreeCell(states[k], x)
  {
    RunInv(states, acts, k);
    assert StepAt(states, acts, k);
    OwnedStep(states[k], acts[k], t, x);
  }

  lemma {:induction false} OwnedVersionStays(states: seq<State>, acts: seq<Action>, t: Tid, x: Var, i: nat, j: nat)
    requires Run(states, acts) && i <= j < |states| && HeldThrough(states, t, x, i, j)
    requires t in states[j].threads && !states[j].threads[t].pc.Publishing?
    ensures FreeCell(states[j], x) == FreeCell(states[i], x)
    decreases j - i
  {
    if i < j {
      if acts[i] == BumpClock(t) {
        PublishingStays(states, acts, t, x, i, j);
      }
      assert OwnerIs(states[i], x, t);
      OwnedStepAt(states, acts, t, x, i);
      OwnedVersionStays(states, acts, t, x, i + 1, j);
    }
  }

  lemma LockTakesFree(s: State, t: Tid, x: Var)
    requires Inv(s) && Enabled(s, LockCas(t)) && x in s.mem && !OwnerIs(s, x, t)
    requires OwnerIs(Apply(s, LockCas(t)), x, t)
    ensures s.mem[x] == FreeCell(s, x) == FreeCell(Apply(s, LockCas(t)), x)
  {
    assert ThreadInv(s, t) && CellInv(s, x);
  }

  lemma UnlockGivesBack(s: State, t: Tid)
    requires Inv(s) && Enabled(s, UnlockStore(t))
    ensures Apply(s, UnlockStore(t)).mem[s.threads[t].pc.x] == FreeCell(s, s.threads[t].pc.x)
  {
    var x := s.threads[t].pc.x;
    assert ThreadInv(s, t) && Holds(s.threads[t], x) && OwnerIs(s, x, t) && CellInv(s, x);
  }

  lemma LockedAt(states: seq<State>, acts: seq<Action>, t: Tid, x: Var, i: nat)
    requires Run(states, acts) && i < |acts| && acts[i] == LockCas(t) && x in states[i].mem
    requires !OwnerIs(states[i], x, t) && OwnerIs(states[i + 1], x, t)
    ensures states[i].mem[x] == FreeCell(states[i + 1], x)
  {
    RunInv(states, acts, i);
    assert StepAt(states, acts, i);
    LockTakesFree(states[i], t, x);
  }

  lemma UnlockedAt(states: seq<State>, acts: seq<Action>, t: Tid, j: nat)
    requires Run(states, acts) && j < |acts| && StepAt(states, acts, j) && acts[j] == UnlockStore(t)
    ensures var x := states[j].threads[t].pc.x;
      x in states[j + 1].mem && states[j + 1].mem[x] == FreeCell(states[j], x)
  {
    RunInv(states, acts, j);
    UnlockGivesBack(states[j], t);
  }

  /** A lock taken by a commit that then fails is released with word and value exactly what they
      were before, whatever other threads did in the meantime. */
  lemma FailedCommitRestores(states: seq<State>, acts: seq<Action>, t: Tid, x: Var, i: nat, j: nat)
    requires Run(states, acts) && i < j < |acts| && x in states[i].mem
    requires acts[i] == LockCas(t) && !OwnerIs(states[i], x, t) && HeldThrough(states, t, x, i + 1, j)
    requires StepAt(states, acts, j) && acts[j] == UnlockStore(t) && states[j].threads[t].pc.x == x
    ensures x in states[j + 1].mem && states[j + 1].mem[x] == states[i].mem[x]
  {
    assert OwnerIs(states[i + 1], x, t);
    LockedAt(states, acts, t, x, i);
    OwnedVersionStays(states, acts, t, x, i + 1, j);
    UnlockedAt(states, acts, t, j);
  }
}
