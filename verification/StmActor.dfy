/** The acting thread keeps its own invariant, one part at a time. */
module StmActor {
  import opened CommitLog
  import opened Options
  import opened Stm
  import opened StmInvariant
  import opened StmProof

  /** `rw_valid` succeeded: nobody has locked or overwritten `x` since version `v`. */
  lemma ValidMeansNewest(s: State, v: Epoch, x: Var)
    requires x in s.mem && CellInv(s, x)
    requires s.mem[x].word <= v <= |s.log| < LOCK_BIT
    ensures s.mem[x].owner == None && LastVersion(s.log, |s.log|, x) <= v
    ensures !Overtaken(s, v, x)
    ensures forall time: nat :: NothingBetween(s, v, time, x)
    ensures s.mem[x].storage == Latest(s.init, s.log, v, x)
  {
    NoWriteSince(s.log, |s.log|, x);
    LatestUnchanged(s.init, s.log, v, |s.log|, x);
  }

  /** Whatever is loaded from `x` is the snapshot value, or `x` is overtaken. */
  lemma LoadIsSound(s: State, v: Epoch, x: Var)
    requires x in s.mem && CellInv(s, x) && v <= |s.log|
    ensures LoadedAt(s, v, x, s.mem[x].storage)
  {
    if LastVersion(s.log, |s.log|, x) <= v {
      LatestUnchanged(s.init, s.log, v, |s.log|, x);
      if s.mem[x].owner.Some? {
        assert OwnerIs(s, x, s.mem[x].owner.value);
      }
    }
  }

  /** Holding the lock of `x` since an old version protects the reads of `x`. */
  lemma OwnedIsProtected(s: State, t: Tid, time: nat, x: Var)
    requires t in s.threads && OwnerIs(s, x, t) && CellInv(s, x)
    requires !s.threads[t].pc.Publishing? && !Complete(s.threads[t])
    ensures NothingBetween(s, s.threads[t].version, time, x)
  {
    NoWriteSince(s.log, |s.log|, x);
  }

  lemma LocksKept(s: State, a: Action)
    requires Enabled(s, a) && LocksInv(s, a.t) && PcInv(s, s.threads[a.t])
    ensures LocksInv(Apply(s, a), a.t)
  {
    var th, th' := s.threads[a.t], NextThread(s, a);
    var s' := Apply(s, a);
    forall x | Holds(th', x)
      ensures OwnerIs(s', x, a.t)
    {
      assert Holds(th, x) ==> OwnerIs(s, x, a.t);
    }
  }

  /** Actions after the user's function returned, and those that only look. */
  predicate SetsAlone(a: Action) {
    !Fresh(a) && !a.CheckRead? && !a.WriteFast? && !a.WriteFastLoad? && !a.WriteSlowCheck? && !a.WriteAtomic?
  }

  lemma SetsKeptAlone(s: State, a: Action)
    requires Enabled(s, a) && SetsAlone(a)
    requires SetsInv(s, s.threads[a.t]) && PcInv(s, s.threads[a.t])
    ensures SetsInv(s, NextThread(s, a))
  {
    var th, th' := s.threads[a.t], NextThread(s, a);
    assert th'.writes == th.writes && th'.cur == th.cur && th'.seen == th.seen && th'.held == th.held;
    assert Committing(th) && !th.pc.Failing? && !th.pc.Succeeding? ==> Committing(th');
  }

  lemma SetsKeptRead(s: State, a: Action)
    requires Enabled(s, a) && a.CheckRead?
    requires SetsInv(s, s.threads[a.t]) && PcInv(s, s.threads[a.t])
    ensures SetsInv(s, NextThread(s, a))
  {
  }

  lemma SetsKeptFresh(s: State, a: Action)
    requires Enabled(s, a) && Fresh(a)
    ensures SetsInv(s, NextThread(s, a))
  {
  }

  lemma SetsKeptWrite(s: State, a: Action)
    requires Enabled(s, a) && !SetsAlone(a) && !a.CheckRead? && !Fresh(a)
    requires SetsInv(s, s.threads[a.t]) && PcInv(s, s.threads[a.t])
    ensures SetsInv(s, NextThread(s, a))
  {
    var th, th' := s.threads[a.t], NextThread(s, a);
    assert th'.seen == th.seen && th'.held == th.held && th'.readSet == th.readSet;
  }

  lemma SetsKept(s: State, a: Action)
    requires Enabled(s, a) && SetsInv(s, s.threads[a.t]) && PcInv(s, s.threads[a.t])
    ensures SetsInv(Apply(s, a), NextThread(s, a))
  {
    if SetsAlone(a) {
      SetsKeptAlone(s, a);
    } else if a.CheckRead? {
      SetsKeptRead(s, a);
    } else if Fresh(a) {
      SetsKeptFresh(s, a);
    } else {
      SetsKeptWrite(s, a);
    }
  }

  lemma PcKept(s: State, a: Action)
    requires Enabled(s, a) && SetsInv(s, s.threads[a.t]) && PcInv(s, s.threads[a.t])
    ensures PcInv(Apply(s, a), NextThread(s, a))
  {
  }

  predicate Fresh(a: Action) { a.Begin? || a.Leave? || a.GiveUp? }

  lemma AgeStable(s: State, s': State, th: Thread, th': Thread)
    requires AgeInv(s, th) && InAttempt(th) && s.log <= s'.log && s'.now == s.now + 1
    requires th'.version == th.version && th'.began == th.began
    requires th'.active == if th'.pc.Idle? || th'.pc.Begun? || th'.pc.Failed? then OFF_STATE else th'.version
    requires Complete(th') ==> if Complete(th) then th'.time == th.time else th'.time == s.now
    ensures AgeInv(s', th')
  {
    assert forall j | 0 <= j < th.version :: s'.log[j] == s.log[j];
  }

  lemma FreshAge(s: State, s': State, a: Action)
    requires Enabled(s, a) && Fresh(a)
    requires s.clock == |s.log| && forall j | 0 <= j < |s.log| :: s.log[j].end < s.now
    requires s'.log == s.log && s'.now == s.now + 1
    ensures AgeInv(s', NextThread(s, a))
  {
  }

  lemma AttemptFields(s: State, a: Action)
    requires Enabled(s, a) && !Fresh(a)
    ensures var th, th' := s.threads[a.t], NextThread(s, a);
      InAttempt(th) && th'.version == th.version && th'.began == th.began
  {
  }

  lemma ActiveKept(s: State, a: Action)
    requires Enabled(s, a) && !Fresh(a) && AgeInv(s, s.threads[a.t])
    ensures var th' := NextThread(s, a);
      th'.active == if th'.pc.Idle? || th'.pc.Begun? || th'.pc.Failed? then OFF_STATE else th'.version
  {
  }

  lemma AgeKept(s: State, a: Action)
    requires Enabled(s, a) && AgeInv(s, s.threads[a.t])
    requires s.clock == |s.log| && forall j | 0 <= j < |s.log| :: s.log[j].end < s.now
    ensures AgeInv(Apply(s, a), NextThread(s, a))
  {
    if Fresh(a) {
      FreshAge(s, Apply(s, a), a);
    } else {
      AttemptFields(s, a);
      ActiveKept(s, a);
      TimeKept(s, a);
      AgeStable(s, Apply(s, a), s.threads[a.t], NextThread(s, a));
    }
  }

  /** The variables whose cell an action looks at. */
  ghost predicate CellsKnown(s: State, a: Action)
    requires Enabled(s, a)
  {
    var pc := s.threads[a.t].pc;
    && (a.Load? || a.WriteSlow? || a.LockLoad? || a.UnlockLoad? || a.Validate? ==> CellInv(s, a.x))
    && (a.CheckRead? || a.Reload? || a.WriteFastLoad? ==> CellInv(s, pc.x))
    && (a.LocksDone? ==> forall x | OwnerIs(s, x, a.t) :: CellInv(s, x))
  }

  lemma LoadsKept(s: State, a: Action, x: Var)
    requires Enabled(s, a) && (a.Load? || a.WriteSlow? || a.Reload?) && LocksInv(s, a.t)
    requires x == if a.Reload? then s.threads[a.t].pc.x else a.x
    requires CellInv(s, x) && s.threads[a.t].version <= |s.log| && Step(s, Apply(s, a), a.t)
    ensures LoadInv(Apply(s, a), NextThread(s, a))
  {
    LoadIsSound(s, s.threads[a.t].version, x);
    LoadedStable(s, Apply(s, a), a.t, s.threads[a.t].version, x, s.mem[x].storage);
  }

  /** A word that passes the version test is the last version the snapshot knows. */
  lemma LockLoadKept(s: State, a: Action)
    requires Enabled(s, a) && a.LockLoad? && CellInv(s, a.x)
    requires s.threads[a.t].version <= |s.log| < LOCK_BIT
    ensures LoadInv(Apply(s, a), NextThread(s, a))
  {
    var th := s.threads[a.t];
    if Valid(th, s.mem[a.x].word) {
      ValidMeansNewest(s, th.version, a.x);
      LatestUnchanged(s.init, s.log, th.version, |s.log|, a.x);
    }
  }

  lemma UnlockLoadKept(s: State, a: Action)
    requires Enabled(s, a) && a.UnlockLoad? && LocksInv(s, a.t) && CellInv(s, a.x)
    ensures LoadInv(Apply(s, a), NextThread(s, a))
  {
    assert Holds(s.threads[a.t], a.x) && OwnerIs(s, a.x, a.t);
  }

  lemma BumpLoadKept(s: State, a: Action)
    requires Enabled(s, a) && a.BumpClock? && s.clock == |s.log| && s.threads[a.t].version <= |s.log|
    ensures LoadInv(Apply(s, a), NextThread(s, a))
  {
  }

  lemma OtherLoadKept(s: State, a: Action)
    requires Enabled(s, a) && LoadInv(s, s.threads[a.t])
    requires !a.Load? && !a.WriteSlow? && !a.Reload? && !a.LockLoad? && !a.UnlockLoad? && !a.BumpClock?
    ensures LoadInv(Apply(s, a), NextThread(s, a))
  {
    var pc := NextThread(s, a).pc;
    assert !pc.Reading? && !pc.WritingSlow? && !pc.LockLoaded? && !pc.UnlockLoaded?;
  }

  lemma LoadKept(s: State, a: Action)
    requires Enabled(s, a) && LocksInv(s, a.t) && LoadInv(s, s.threads[a.t]) && CellsKnown(s, a)
    requires s.threads[a.t].version <= |s.log|
    requires Step(s, Apply(s, a), a.t) && s.clock == |s.log| < LOCK_BIT
    ensures LoadInv(Apply(s, a), NextThread(s, a))
  {
    if a.Load? || a.WriteSlow? || a.Reload? {
      LoadsKept(s, a, if a.Reload? then s.threads[a.t].pc.x else a.x);
    } else if a.LockLoad? {
      LockLoadKept(s, a);
    } else if a.UnlockLoad? {
      UnlockLoadKept(s, a);
    } else if a.BumpClock? {
      BumpLoadKept(s, a);
    } else {
      OtherLoadKept(s, a);
    }
  }

  lemma CheckReadKept(s: State, a: Action)
    requires Enabled(s, a) && a.CheckRead? && LocksInv(s, a.t) && CellsKnown(s, a)
    requires LoadInv(s, s.threads[a.t]) && ReadsInv(s, s.threads[a.t]) && AgeInv(s, s.threads[a.t])
    requires Step(s, Apply(s, a), a.t) && |s.log| < LOCK_BIT
    ensures ReadsInv(Apply(s, a), NextThread(s, a))
  {
    var s' := Apply(s, a);
    var th := s.threads[a.t];
    ReadsStable(s, s', a.t, th);
    if Valid(th, s.mem[th.pc.x].word) {
      ValidMeansNewest(s, th.version, th.pc.x);
      ReadStable(s, s', a.t, th.version, th.began, th.pc.x, th.pc.s);
    }
  }

  lemma CurKept(s: State, a: Action)
    requires Enabled(s, a) && (a.WriteFastLoad? || a.WriteSlowCheck?) && LocksInv(s, a.t) && CellsKnown(s, a)
    requires LoadInv(s, s.threads[a.t]) && ReadsInv(s, s.threads[a.t]) && AgeInv(s, s.threads[a.t])
    requires Step(s, Apply(s, a), a.t)
    ensures ReadsInv(Apply(s, a), NextThread(s, a))
  {
    var s' := Apply(s, a);
    var th := s.threads[a.t];
    ReadsStable(s, s', a.t, th);
    if a.WriteFastLoad? {
      LoadIsSound(s, th.version, th.pc.x);
      LoadedStable(s, s', a.t, th.version, th.pc.x, s.mem[th.pc.x].storage);
    } else {
      LoadedStable(s, s', a.t, th.version, th.pc.x, th.pc.cur);
    }
  }

  /** With every write locked, a read that needs no validation is of a variable held locked. */
  lemma LocksDoneKept(s: State, a: Action)
    requires Enabled(s, a) && a.LocksDone? && LocksInv(s, a.t) && CellsKnown(s, a)
    requires SetsInv(s, s.threads[a.t]) && ReadsInv(s, s.threads[a.t]) && AgeInv(s, s.threads[a.t])
    requires Step(s, Apply(s, a), a.t)
    ensures ReadsInv(Apply(s, a), NextThread(s, a))
  {
    var s' := Apply(s, a);
    var th, th' := s.threads[a.t], NextThread(s, a);
    ReadsStable(s, s', a.t, th);
    forall r | r in th'.seen && Checked(th', r.0)
      ensures NothingBetween(s', th'.version, th'.time, r.0)
    {
      assert Holds(th, r.0) && OwnerIs(s, r.0, a.t);
      OwnedIsProtected(s, a.t, s.now, r.0);
      NothingBetweenStable(s, s', a.t, th.version, s.now, r.0);
    }
  }

  lemma ValidateKept(s: State, a: Action)
    requires Enabled(s, a) && a.Validate? && LocksInv(s, a.t) && CellsKnown(s, a)
    requires ReadsInv(s, s.threads[a.t]) && AgeInv(s, s.threads[a.t])
    requires Step(s, Apply(s, a), a.t) && |s.log| < LOCK_BIT
    ensures ReadsInv(Apply(s, a), NextThread(s, a))
  {
    var s' := Apply(s, a);
    var th := s.threads[a.t];
    ReadsStable(s, s', a.t, th);
    if Valid(th, s.mem[a.x].word) {
      ValidMeansNewest(s, th.version, a.x);
      NothingBetweenStable(s, s', a.t, th.version, th.time, a.x);
    }
  }

  predicate ReadsAlone(a: Action) {
    !Fresh(a) && !a.CheckRead? && !a.WriteFastLoad? && !a.WriteSlowCheck? && !a.LocksDone? && !a.Validate?
  }

  lemma ReadFields(s: State, a: Action)
    requires Enabled(s, a) && ReadsAlone(a)
    ensures var th, th' := s.threads[a.t], NextThread(s, a);
      && th'.held == th.held && th'.seen == th.seen && th'.cur == th.cur
      && th'.version == th.version && th'.began == th.began && th'.time == th.time
  {
  }

  lemma CheckedAlready(s: State, a: Action, x: Var)
    requires Enabled(s, a) && ReadsAlone(a) && Checked(NextThread(s, a), x)
    ensures Checked(s.threads[a.t], x)
  {
  }

  lemma ReadsKeptAlone(s: State, a: Action, s': State, th': Thread)
    requires Enabled(s, a) && LocksInv(s, a.t) && Step(s, s', a.t) && ReadsAlone(a)
    requires ReadsInv(s, s.threads[a.t]) && s.threads[a.t].began < s.now
    requires Complete(s.threads[a.t]) ==> s.threads[a.t].time < s.now
    requires th' == NextThread(s, a)
    ensures ReadsInv(s', th')
  {
    ReadsStable(s, s', a.t, s.threads[a.t]);
    ReadFields(s, a);
    forall r | r in th'.seen && Checked(th', r.0)
      ensures NothingBetween(s', th'.version, th'.time, r.0)
    {
      CheckedAlready(s, a, r.0);
    }
  }

  lemma ReadsKept(s: State, a: Action)
    requires Enabled(s, a) && LocksInv(s, a.t) && CellsKnown(s, a)
    requires SetsInv(s, s.threads[a.t]) && LoadInv(s, s.threads[a.t])
    requires AgeInv(s, s.threads[a.t]) && ReadsInv(s, s.threads[a.t])
    requires Step(s, Apply(s, a), a.t) && |s.log| < LOCK_BIT
    ensures ReadsInv(Apply(s, a), NextThread(s, a))
  {
    if ReadsAlone(a) {
      assert InAttempt(s.threads[a.t]);
      ReadsKeptAlone(s, a, Apply(s, a), NextThread(s, a));
    } else if a.CheckRead? {
      CheckReadKept(s, a);
    } else if a.WriteFastLoad? || a.WriteSlowCheck? {
      CurKept(s, a);
    } else if a.LocksDone? {
      LocksDoneKept(s, a);
    } else if a.Validate? {
      ValidateKept(s, a);
    } else {
      FreshReads(s, a, Apply(s, a));
    }
  }

  lemma FreshReads(s: State, a: Action, s': State)
    requires Enabled(s, a) && Fresh(a)
    ensures ReadsInv(s', NextThread(s, a))
  {
  }

  lemma ActorKept(s: State, a: Action)
    requires Enabled(s, a) && ThreadInv(s, a.t) && CellsKnown(s, a)
    requires Step(s, Apply(s, a), a.t) && s.clock == |s.log| < LOCK_BIT
    requires forall j | 0 <= j < |s.log| :: s.log[j].end < s.now
    ensures ThreadInv(Apply(s, a), a.t)
  {
    LocksKept(s, a);
    SetsKept(s, a);
    PcKept(s, a);
    AgeKept(s, a);
    LoadKept(s, a);
    ReadsKept(s, a);
  }
}
