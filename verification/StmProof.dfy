/** Every action keeps the invariant.  A step is first reduced to what the other threads
    can see of it, then the facts they rely on are shown to be stable under that. */
module StmProof {
  import opened CommitLog
  import opened Options
  import opened Stm
  import opened StmInvariant

  /** What a step of `t` may look like to everybody else. */
  ghost predicate Step(s: State, s': State, t: Tid) {
    && t in s.threads && s'.threads.Keys == s.threads.Keys
    && (forall u | u in s.threads && u != t :: s'.threads[u] == s.threads[u])
    && s'.init == s.init && s'.heap == s.heap && s'.mem.Keys == s.mem.Keys && s'.now == s.now + 1
    && (forall x | x in s.mem && s'.mem[x] != s.mem[x] ::
          && (s.mem[x].owner == None || s.mem[x].owner == Some(t))
          && (s'.mem[x].owner == None || s'.mem[x].owner == Some(t)))
    && var th, th' := s.threads[t], s'.threads[t];
    && (|| s'.log == s.log
        || (&& s'.log == s.log + [WriterRec(s, th)]
            && th.pc == Storing({}) && !Complete(th')))
    && (s'.log == s.log ==> forall x | x in s.mem && Stored(th, x) ::
          Stored(th', x) && s'.mem[x].owner == s.mem[x].owner)
    && (Complete(th') ==> if Complete(th) then th'.time == th.time else th'.time == s.now)
    && (Complete(th') && Complete(th) ==> forall x | x in s.mem :: OwnerIs(s', x, t) ==> OwnerIs(s, x, t))
  }

  predicate TouchesMem(a: Action) { a.LockCas? || a.StoreOne? || a.Publish? || a.UnlockStore? }

  lemma TimeKept(s: State, a: Action)
    requires Enabled(s, a)
    ensures var th, th' := s.threads[a.t], NextThread(s, a);
      Complete(th') ==> if Complete(th) then th'.time == th.time else th'.time == s.now
  {
  }

  lemma LocalShape(s: State, a: Action)
    requires Enabled(s, a) && !TouchesMem(a)
    ensures Step(s, Apply(s, a), a.t)
  {
    var th, th' := s.threads[a.t], NextThread(s, a);
    TimeKept(s, a);
    assert NextMem(s, a) == s.mem;
    assert a.BumpClock? ==> !Complete(th');
    assert !a.BumpClock? ==> !th.pc.Storing?;
  }

  /** Only an unlocked word passes the version test, so the swap takes a free variable. */
  lemma LockShape(s: State, a: Action)
    requires Enabled(s, a) && a.LockCas?
    requires s.threads[a.t].pc.word <= s.threads[a.t].version <= |s.log| < LOCK_BIT
    requires CellInv(s, s.threads[a.t].pc.x)
    ensures Step(s, Apply(s, a), a.t)
  {
  }

  lemma StoreShape(s: State, a: Action)
    requires Enabled(s, a) && (a.StoreOne? || a.Publish?)
    requires OwnerIs(s, a.x, a.t)
    ensures Step(s, Apply(s, a), a.t)
  {
  }

  lemma UnlockShape(s: State, a: Action)
    requires Enabled(s, a) && a.UnlockStore?
    requires OwnerIs(s, s.threads[a.t].pc.x, a.t)
    ensures Step(s, Apply(s, a), a.t)
  {
  }

  lemma StepShape(s: State, a: Action)
    requires Enabled(s, a) && LocksInv(s, a.t) && PcInv(s, s.threads[a.t])
    requires s.threads[a.t].version <= |s.log| < LOCK_BIT
    requires a.LockCas? ==> CellInv(s, s.threads[a.t].pc.x)
    ensures Step(s, Apply(s, a), a.t)
  {
    var th := s.threads[a.t];
    assert forall x | Holds(th, x) :: OwnerIs(s, x, a.t);
    if a.LockCas? {
      LockShape(s, a);
    } else if a.StoreOne? || a.Publish? {
      assert Holds(th, a.x);
      StoreShape(s, a);
    } else if a.UnlockStore? {
      assert Holds(th, th.pc.x);
      UnlockShape(s, a);
    } else {
      LocalShape(s, a);
    }
  }

  lemma OvertakenStable(s: State, s': State, t: Tid, v: Epoch, x: Var)
    requires Step(s, s', t) && LocksInv(s, t)
    requires v <= |s.log| && Overtaken(s, v, x)
    ensures Overtaken(s', v, x)
  {
    PrefixKeptAll(s.init, s.log, s'.log);
    if LastVersion(s.log, |s.log|, x) > v {
      LastVersionMonotone(s'.log, |s.log|, |s'.log|, x);
    } else {
      var w :| OwnerIs(s, x, w) && w in s.threads && Stored(s.threads[w], x);
      if s'.log == s.log || w != t {
        assert OwnerIs(s', x, w);
      }
    }
  }

  lemma LoadedStable(s: State, s': State, t: Tid, v: Epoch, x: Var, value: Storage)
    requires Step(s, s', t) && LocksInv(s, t)
    requires LoadedAt(s, v, x, value)
    ensures LoadedAt(s', v, x, value)
  {
    PrefixKept(s.init, s.log, s'.log, v, x);
    if Overtaken(s, v, x) {
      OvertakenStable(s, s', t, v, x);
    }
  }

  lemma NothingBetweenStable(s: State, s': State, t: Tid, v: Epoch, time: nat, x: Var)
    requires Step(s, s', t) && LocksInv(s, t)
    requires NothingBetween(s, v, time, x) && time <= s.now
    ensures NothingBetween(s', v, time, x)
  {
    forall j | v <= j < |s'.log| && x in s'.log[j].writes
      ensures time <= s'.log[j].time
    {
      if j == |s.log| {
        assert OwnerIs(s, x, t);
      }
    }
    forall w | OwnerIs(s', x, w) && w in s'.threads && Complete(s'.threads[w])
      ensures time <= s'.threads[w].time
    {
      if w != t || Complete(s.threads[t]) {
        assert OwnerIs(s, x, w);
      }
    }
  }

  lemma ReadStable(s: State, s': State, t: Tid, v: Epoch, time: nat, x: Var, value: Storage)
    requires Step(s, s', t) && LocksInv(s, t)
    requires ReadAt(s, v, time, x, value) && time <= s.now
    ensures ReadAt(s', v, time, x, value)
  {
    PrefixKept(s.init, s.log, s'.log, v, x);
    NothingBetweenStable(s, s', t, v, time, x);
  }

  lemma RecStable(s: State, s': State, t: Tid, r: Rec)
    requires Step(s, s', t) && LocksInv(s, t)
    requires RecInv(s, r)
    ensures RecInv(s', r)
  {
    forall p | p in r.seen
      ensures ReadAt(s', r.version, r.time, p.0, p.1)
    {
      ReadStable(s, s', t, r.version, r.time, p.0, p.1);
    }
  }

  lemma ReadsStable(s: State, s': State, t: Tid, th: Thread)
    requires Step(s, s', t) && LocksInv(s, t)
    requires ReadsInv(s, th) && th.began <= s.now && (Complete(th) ==> th.time <= s.now)
    ensures ReadsInv(s', th)
  {
    forall r | r in th.held ensures ReadAt(s', th.version, th.began, r.0, r.1) {
      ReadStable(s, s', t, th.version, th.began, r.0, r.1);
    }
    forall x | x in th.cur ensures LoadedAt(s', th.version, x, th.cur[x]) {
      LoadedStable(s, s', t, th.version, x, th.cur[x]);
    }
    forall r | r in th.seen && Checked(th, r.0) ensures NothingBetween(s', th.version, th.time, r.0) {
      NothingBetweenStable(s, s', t, th.version, th.time, r.0);
    }
  }

  lemma LoadStable(s: State, s': State, t: Tid, th: Thread)
    requires Step(s, s', t) && LocksInv(s, t)
    requires LoadInv(s, th)
    requires th.pc.UnlockLoaded? ==> !OwnerIs(s, th.pc.x, t) || s'.log == s.log
    ensures LoadInv(s', th)
  {
    match th.pc {
      case Reading(x, v, _, _) => LoadedStable(s, s', t, th.version, x, v);
      case WritingSlow(x, v) => LoadedStable(s, s', t, th.version, x, v);
      case LockLoaded(_, x, _) => PrefixKept(s.init, s.log, s'.log, th.version, x);
      case UnlockLoaded(_, x, _) => LastVersionKept(s, s', t, x);
      case _ =>
    }
  }

  lemma OtherLocks(s: State, s': State, t: Tid, u: Tid)
    requires Step(s, s', t)
    requires u in s.threads && u != t && LocksInv(s, u)
    ensures LocksInv(s', u)
  {
    assert forall x | Holds(s.threads[u], x) :: OwnerIs(s, x, u);
  }

  lemma OtherThread(s: State, s': State, t: Tid, u: Tid)
    requires Step(s, s', t) && LocksInv(s, t)
    requires u in s.threads && u != t && ThreadInv(s, u)
    ensures ThreadInv(s', u)
  {
    var th := s.threads[u];
    OtherLocks(s, s', t, u);
    if th.pc.UnlockLoaded? {
      assert Holds(th, th.pc.x) && OwnerIs(s, th.pc.x, u);
    }
    LoadStable(s, s', t, th);
    if InAttempt(th) {
      ReadsStable(s, s', t, th);
    }
  }

  /** A commit touches no variable its thread does not own. */
  lemma LastVersionKept(s: State, s': State, t: Tid, x: Var)
    requires Step(s, s', t) && LocksInv(s, t)
    requires !OwnerIs(s, x, t) || s'.log == s.log
    ensures LastVersion(s'.log, |s'.log|, x) == LastVersion(s.log, |s.log|, x)
    ensures Latest(s'.init, s'.log, |s'.log|, x) == Latest(s.init, s.log, |s.log|, x)
  {
    PrefixKept(s.init, s.log, s'.log, |s.log|, x);
  }

  lemma OtherCell(s: State, s': State, t: Tid, x: Var)
    requires Step(s, s', t) && LocksInv(s, t)
    requires x in s.mem && CellInv(s, x)
    requires !OwnerIs(s, x, t) && s'.mem[x] == s.mem[x]
    ensures CellInv(s', x)
  {
    LastVersionKept(s, s', t, x);
    if s'.log != s.log {
      assert x !in s.threads[t].writes;
    }
  }
}
