/** Cells and log keep their invariants, so every action keeps the whole. */
module StmStep {
  import opened CommitLog
  import opened Stm
  import opened StmInvariant
  import opened StmProof
  import opened StmActor

  // ---------------------------------------------------------------- cells

  lemma LockedCell(s: State, a: Action, x: Var)
    requires Enabled(s, a) && a.LockCas? && x == s.threads[a.t].pc.x && CellInv(s, x)
    requires PcInv(s, s.threads[a.t]) && SetsInv(s, s.threads[a.t])
    requires s.threads[a.t].version <= |s.log| < LOCK_BIT
    requires x in s.threads[a.t].cur ==> LoadedAt(s, s.threads[a.t].version, x, s.threads[a.t].cur[x])
    requires s.mem[x].word == s.threads[a.t].pc.word
    ensures CellInv(Apply(s, a), x)
  {
    var th := s.threads[a.t];
    ValidMeansNewest(s, th.version, x);
    assert Holds(NextThread(s, a), x);
    LatestUnchanged(s.init, s.log, th.version, |s.log|, x);
  }

  lemma StoredCell(s: State, a: Action, x: Var)
    requires Enabled(s, a) && (a.StoreOne? || a.Publish?) && x == a.x
    requires OwnerIs(s, x, a.t) && CellInv(s, x)
    ensures CellInv(Apply(s, a), x)
  {
    assert a.StoreOne? ==> Stored(NextThread(s, a), x) && Holds(NextThread(s, a), x);
  }

  lemma UnlockedCell(s: State, a: Action, x: Var)
    requires Enabled(s, a) && a.UnlockStore? && x == s.threads[a.t].pc.x
    requires OwnerIs(s, x, a.t) && CellInv(s, x) && LoadInv(s, s.threads[a.t])
    ensures CellInv(Apply(s, a), x)
  {
  }

  lemma BumpedCell(s: State, a: Action, x: Var)
    requires Enabled(s, a) && a.BumpClock? && OwnerIs(s, x, a.t) && CellInv(s, x)
    requires s.clock == |s.log|
    ensures CellInv(Apply(s, a), x)
  {
    var th := s.threads[a.t];
    assert Stored(th, x) && Holds(NextThread(s, a), x);
    assert Apply(s, a).log[|s.log|].writes == th.writes;
  }

  /** An owned cell that the action leaves alone. */
  lemma OwnedCell(s: State, a: Action, x: Var)
    requires Enabled(s, a) && OwnerIs(s, x, a.t) && CellInv(s, x) && PcInv(s, s.threads[a.t])
    requires !a.BumpClock? && NextMem(s, a)[x] == s.mem[x]
    requires (a.StoreOne? || a.Publish?) ==> x != a.x
    requires a.UnlockStore? ==> x != s.threads[a.t].pc.x
    requires forall j | 0 <= j < |s.log| :: s.log[j].time < s.now
    ensures CellInv(Apply(s, a), x)
  {
    var th, th' := s.threads[a.t], NextThread(s, a);
    assert Holds(th, x);
    assert Holds(th', x) && th'.writes == th.writes && th'.cur == th.cur && th'.version == th.version;
    assert Stored(th', x) == Stored(th, x);
    assert th'.pc.Publishing? == th.pc.Publishing? && (th.pc.Publishing? ==> th'.pc.published == th.pc.published);
    assert Complete(th') ==> if Complete(th) then th'.time == th.time else th'.time == s.now;
  }

  /** The action writes the cell of `x`. */
  predicate Targets(s: State, a: Action, x: Var)
    requires Enabled(s, a)
  {
    || ((a.StoreOne? || a.Publish?) && x == a.x)
    || (a.UnlockStore? && x == s.threads[a.t].pc.x)
    || (a.LockCas? && x == s.threads[a.t].pc.x && s.mem[x].word == s.threads[a.t].pc.word)
  }

  lemma TargetCell(s: State, a: Action, x: Var)
    requires Enabled(s, a) && ThreadInv(s, a.t) && |s.log| < LOCK_BIT
    requires x in s.mem && CellInv(s, x) && Targets(s, a, x)
    ensures CellInv(Apply(s, a), x)
  {
    var th := s.threads[a.t];
    if a.LockCas? {
      LockedCell(s, a, x);
    } else {
      assert Holds(th, x) && OwnerIs(s, x, a.t);
      if a.UnlockStore? {
        UnlockedCell(s, a, x);
      } else {
        StoredCell(s, a, x);
      }
    }
  }

  lemma BystanderCell(s: State, a: Action, x: Var)
    requires Enabled(s, a) && LocksInv(s, a.t) && PcInv(s, s.threads[a.t]) && Step(s, Apply(s, a), a.t)
    requires s.clock == |s.log| && forall j | 0 <= j < |s.log| :: s.log[j].time < s.now
    requires x in s.mem && CellInv(s, x) && !Targets(s, a, x)
    ensures CellInv(Apply(s, a), x)
  {
    assert NextMem(s, a)[x] == s.mem[x];
    if !OwnerIs(s, x, a.t) {
      OtherCell(s, Apply(s, a), a.t, x);
    } else if a.BumpClock? {
      BumpedCell(s, a, x);
    } else {
      OwnedCell(s, a, x);
    }
  }

  // ---------------------------------------------------------------- log

  lemma QuietRecord(s: State, a: Action)
    requires Enabled(s, a) && a.CommitQuiet? && LocksInv(s, a.t) && Step(s, Apply(s, a), a.t)
    requires AgeInv(s, s.threads[a.t]) && ReadsInv(s, s.threads[a.t])
    ensures RecInv(Apply(s, a), QuietRec(s, s.threads[a.t]))
  {
    ReadsStable(s, Apply(s, a), a.t, s.threads[a.t]);
  }

  /** Validation and locking together cover every tracked read of a writer. */
  lemma WriterRecord(s: State, a: Action)
    requires Enabled(s, a) && a.BumpClock? && LocksInv(s, a.t) && Step(s, Apply(s, a), a.t)
    requires SetsInv(s, s.threads[a.t]) && AgeInv(s, s.threads[a.t]) && ReadsInv(s, s.threads[a.t])
    ensures RecInv(Apply(s, a), WriterRec(s, s.threads[a.t]))
  {
    var th, s' := s.threads[a.t], Apply(s, a);
    ReadsStable(s, s', a.t, th);
    forall r | r in th.seen
      ensures ReadAt(s', th.version, th.time, r.0, r.1)
    {
      assert r in th.held && Checked(th, r.0);
    }
    assert forall j | 0 <= j < th.version :: s'.log[j] == s.log[j];
  }

  lemma TimesKept(s: State, s': State, t: Tid)
    requires Step(s, s', t) && TimesDistinct(s)
    requires forall j | 0 <= j < |s.log| :: s.log[j].time < s.now
    requires forall u | u in s.threads && Complete(s.threads[u]) :: s.threads[u].time < s.now
    ensures TimesDistinct(s')
  {
    var th' := s'.threads[t];
    assert forall u | u in s'.threads && Complete(s'.threads[u]) && u != t :: Complete(s.threads[u]);
    if Complete(th') {
      assert th'.time == s.now || (Complete(s.threads[t]) && th'.time == s.threads[t].time);
    }
    if s'.log != s.log {
      assert Complete(s.threads[t]) && s'.log[|s.log|].time == s.threads[t].time;
    }
  }

  lemma OldRecords(s: State, s': State, t: Tid)
    requires Step(s, s', t) && LocksInv(s, t)
    ensures forall i | 0 <= i < |s.log| && RecInv(s, s.log[i]) :: RecInv(s', s.log[i])
    ensures forall i | 0 <= i < |s.quiet| && RecInv(s, s.quiet[i]) :: RecInv(s', s.quiet[i])
  {
    forall i | 0 <= i < |s.log| && RecInv(s, s.log[i]) ensures RecInv(s', s.log[i]) {
      RecStable(s, s', t, s.log[i]);
    }
    forall i | 0 <= i < |s.quiet| && RecInv(s, s.quiet[i]) ensures RecInv(s', s.quiet[i]) {
      RecStable(s, s', t, s.quiet[i]);
    }
  }

  /** Commits to one variable finish locking in the order of their versions. */
  lemma OrderKept(s: State, a: Action)
    requires Enabled(s, a) && LocksInv(s, a.t)
    requires forall x | OwnerIs(s, x, a.t) :: CellInv(s, x)
    requires forall i, j, x | 0 <= i < j < |s.log| && x in s.log[i].writes && x in s.log[j].writes ::
               s.log[i].time < s.log[j].time
    ensures var log' := Apply(s, a).log;
      forall i, j, x | 0 <= i < j < |log'| && x in log'[i].writes && x in log'[j].writes ::
        log'[i].time < log'[j].time
  {
    var th, log' := s.threads[a.t], Apply(s, a).log;
    forall i, j, x | 0 <= i < j < |log'| && x in log'[i].writes && x in log'[j].writes
      ensures log'[i].time < log'[j].time
    {
      if j == |s.log| {
        assert Holds(th, x) && OwnerIs(s, x, a.t) && Complete(th);
        assert s.log[i].time < th.time;
      }
    }
  }

  lemma RecordsKept(s: State, a: Action)
    requires Enabled(s, a) && LocksInv(s, a.t) && Step(s, Apply(s, a), a.t)
    requires SetsInv(s, s.threads[a.t]) && AgeInv(s, s.threads[a.t]) && ReadsInv(s, s.threads[a.t])
    requires RecsInv(s)
    ensures RecsInv(Apply(s, a))
  {
    OldRecords(s, Apply(s, a), a.t);
    if a.CommitQuiet? {
      QuietRecord(s, a);
    } else if a.BumpClock? {
      WriterRecord(s, a);
    }
  }

  lemma LogKept(s: State, a: Action)
    requires Enabled(s, a) && LocksInv(s, a.t) && Step(s, Apply(s, a), a.t) && LogInv(s)
    requires SetsInv(s, s.threads[a.t]) && AgeInv(s, s.threads[a.t]) && ReadsInv(s, s.threads[a.t])
    requires forall x | OwnerIs(s, x, a.t) :: CellInv(s, x)
    requires forall j | 0 <= j < |s.log| :: s.log[j].time < s.now
    requires forall u | u in s.threads && Complete(s.threads[u]) :: s.threads[u].time < s.now
    ensures LogInv(Apply(s, a))
  {
    RecordsKept(s, a);
    OrderKept(s, a);
    TimesKept(s, Apply(s, a), a.t);
  }

  // ---------------------------------------------------------------- the invariant

  lemma CellsKept(s: State, a: Action)
    requires Enabled(s, a) && ThreadInv(s, a.t) && Step(s, Apply(s, a), a.t)
    requires s.clock == |s.log| < LOCK_BIT && forall j | 0 <= j < |s.log| :: s.log[j].time < s.now
    requires CellsInv(s)
    ensures CellsInv(Apply(s, a))
  {
    forall x | x in s.mem ensures CellInv(Apply(s, a), x) {
      if Targets(s, a, x) {
        TargetCell(s, a, x);
      } else {
        BystanderCell(s, a, x);
      }
    }
  }

  lemma ThreadsKept(s: State, a: Action)
    requires Enabled(s, a) && LocksInv(s, a.t) && ThreadInv(Apply(s, a), a.t) && Step(s, Apply(s, a), a.t)
    requires ThreadsInv(s)
    ensures ThreadsInv(Apply(s, a))
  {
    forall u | u in s.threads ensures ThreadInv(Apply(s, a), u) {
      if u != a.t {
        OtherThread(s, Apply(s, a), a.t, u);
      }
    }
  }

  lemma TimesPast(s: State)
    requires RecsInv(s) && ThreadsInv(s)
    ensures forall j | 0 <= j < |s.log| :: s.log[j].end < s.now && s.log[j].time < s.now
    ensures forall u | u in s.threads && Complete(s.threads[u]) :: s.threads[u].time < s.now
  {
    assert forall u | u in s.threads :: ThreadInv(s, u);
    forall j | 0 <= j < |s.log|
      ensures s.log[j].end < s.now && s.log[j].time < s.now
    {
      assert RecInv(s, s.log[j]);
    }
  }

  lemma CellsReady(s: State, a: Action)
    requires Enabled(s, a) && LocksInv(s, a.t)
    requires CellsInv(s)
    ensures CellsKnown(s, a)
    ensures a.LockCas? ==> CellInv(s, s.threads[a.t].pc.x)
    ensures forall x | OwnerIs(s, x, a.t) :: CellInv(s, x)
  {
  }

  lemma InvKept(s: State, a: Action)
    requires Inv(s) && Enabled(s, a)
    ensures Inv(Apply(s, a))
  {
    assert ThreadInv(s, a.t);
    TimesPast(s);
    CellsReady(s, a);
    StepShape(s, a);
    ActorKept(s, a);
    ThreadsKept(s, a);
    CellsKept(s, a);
    LogKept(s, a);
  }
}
