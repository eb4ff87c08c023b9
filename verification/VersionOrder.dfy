/** When the order of versions is a serial order.  It is not in general, because the clock is bumped
    after validation and after the writes; here is exactly when it is. */
module VersionOrder {
  import opened CommitLog
  import opened SerialOrder
  import opened Stm
  import opened StmInvariant
  import opened StmTheorems
  import opened Reclaim
  import opened ReclaimInvariant
  import opened ReclaimGrace
  import opened ReclaimTheorems

  /** No commit in `log[v..k]` writes `x`: a check of `x` at the bump would still pass. */
  ghost predicate Unwritten(log: seq<Rec>, v: nat, k: nat, x: Var)
    requires k <= |log|
  {
    forall i | v <= i < k :: x !in log[i].writes
  }

  /** Some commit in `log[v..k]` writes `x`, and the last one that does puts `value` back. */
  ghost predicate PutBack(log: seq<Rec>, v: nat, k: nat, x: Var, value: Storage)
    requires k <= |log|
  {
    exists i :: v <= i < k && x in log[i].writes && log[i].writes[x] == value && Unwritten(log, i + 1, k, x)
  }

  /** The reads of commit `k` stand although it is placed behind every lower version.  Only the bits
      of an atomic variable can come back; a heap variable never gets the same storage twice. */
  ghost predicate StandsAt(heap: set<Var>, log: seq<Rec>, k: nat, p: (Var, Storage))
    requires k < |log|
  {
    Unwritten(log, log[k].version, k, p.0) || (p.0 !in heap && PutBack(log, log[k].version, k, p.0, p.1))
  }

  /** No commit read a variable that is overwritten between its start version and its place. */
  ghost predicate VersionsFit(heap: set<Var>, log: seq<Rec>) {
    forall k, p | 0 <= k < |log| && p in log[k].seen :: StandsAt(heap, log, k, p)
  }

  lemma {:induction false} UnwrittenSame(init: Memory, log: seq<Rec>, v: nat, k: nat, x: Var)
    requires v <= k <= |log| && Unwritten(log, v, k, x)
    ensures Latest(init, log, k, x) == Latest(init, log, v, x)
    ensures LastVersion(log, k, x) == LastVersion(log, v, x)
    decreases k
  {
    if v < k {
      UnwrittenSame(init, log, v, k - 1, x);
    }
  }

  lemma PutBackIsLatest(init: Memory, log: seq<Rec>, v: nat, k: nat, x: Var, value: Storage)
    requires v <= k <= |log| && PutBack(log, v, k, x, value)
    ensures Latest(init, log, k, x) == value
  {
    var i :| v <= i < k && x in log[i].writes && log[i].writes[x] == value && Unwritten(log, i + 1, k, x);
    UnwrittenSame(init, log, i + 1, k, x);
  }

  /** A value that is still, or again, there was not overwritten or was put back. */
  lemma SameMeansStands(init: Memory, log: seq<Rec>, v: nat, k: nat, x: Var)
    requires v <= k <= |log| && Latest(init, log, k, x) == Latest(init, log, v, x)
    ensures Unwritten(log, v, k, x) || PutBack(log, v, k, x, Latest(init, log, v, x))
    ensures LastVersion(log, k, x) == LastVersion(log, v, x) ==> Unwritten(log, v, k, x)
  {
    var u := LastVersion(log, k, x);
    NoWriteSince(log, k, x);
    LatestIsLastWrite(init, log, k, x);
    if v < u {
      assert v <= u - 1 < k && Unwritten(log, u - 1 + 1, k, x);
    }
  }

  /** One read: it is right at its commit's place exactly if it stands there. */
  lemma ReadStands(s: State, k: nat, p: (Var, Storage))
    requires LogInv(s) && k < |s.log| && p in s.log[k].seen
    ensures p.1 == Latest(s.init, s.log, k, p.0) <==> StandsAt({}, s.log, k, p)
  {
    var v, x := s.log[k].version, p.0;
    assert RecInv(s, s.log[k]) && ReadAt(s, v, s.log[k].time, p.0, p.1);
    if Unwritten(s.log, v, k, x) {
      UnwrittenSame(s.init, s.log, v, k, x);
    } else if PutBack(s.log, v, k, x, p.1) {
      PutBackIsLatest(s.init, s.log, v, k, x, p.1);
    } else if p.1 == Latest(s.init, s.log, k, x) {
      SameMeansStands(s.init, s.log, v, k, x);
    }
  }

  /** A heap variable's storage is installed once, so that it cannot come back. */
  lemma HeapReadStands(w: World, k: nat, p: (Var, Storage))
    requires LogInv(w.stm) && BirthsInv(w) && k < |w.stm.log| && p in w.stm.log[k].seen
    ensures p.1 == Latest(w.stm.init, w.stm.log, k, p.0) <==> StandsAt(w.stm.heap, w.stm.log, k, p)
  {
    var s, v, x := w.stm, w.stm.log[k].version, p.0;
    ReadStands(s, k, p);
    if x in s.heap && p.1 == Latest(s.init, s.log, k, x) {
      assert RecInv(s, s.log[k]) && ReadAt(s, v, s.log[k].time, p.0, p.1);
      SameMeansStands(s.init, s.log, v, k, x);
      LatestIsBorn(w, v, x);
      LatestIsBorn(w, k, x);
    }
  }

  /** At every point of every run of the protocol, whatever the variables hold: the commits, run one
      at a time in the order of their versions, read what they read exactly if every variable read
      is not overwritten between the start version and the commit's place, or put back. */
  lemma VersionOrderIff(states: seq<State>, acts: seq<Action>, i: nat)
    requires Run(states, acts) && i < |states|
    ensures Legal(states[i].init, states[i].log) <==> VersionsFit({}, states[i].log)
  {
    RunInv(states, acts, i);
    var s := states[i];
    forall k, p | 0 <= k < |s.log| && p in s.log[k].seen
      ensures p.1 == Latest(s.init, s.log, k, p.0) <==> StandsAt({}, s.log, k, p)
    {
      ReadStands(s, k, p);
    }
  }

  /** With storages allocated as the code does, only atomic variables can be put back. */
  lemma AllocatedVersionOrderIff(worlds: seq<World>, moves: seq<Move>, i: nat)
    requires WorldRun(worlds, moves) && i < |worlds|
    ensures var s := worlds[i].stm; Legal(s.init, s.log) <==> VersionsFit(s.heap, s.log)
  {
    RunKeeps(worlds, moves, i);
    var w := worlds[i];
    forall k, p | 0 <= k < |w.stm.log| && p in w.stm.log[k].seen
      ensures p.1 == Latest(w.stm.init, w.stm.log, k, p.0) <==> StandsAt(w.stm.heap, w.stm.log, k, p)
    {
      HeapReadStands(w, k, p);
    }
  }

  ghost predicate ReadsOnly(log: seq<Rec>, vars: set<Var>) {
    forall k, p | 0 <= k < |log| && p in log[k].seen :: p.0 in vars
  }

  /** Over heap variables the condition is only that nothing read is written in between. */
  lemma HeapVersionOrder(worlds: seq<World>, moves: seq<Move>, i: nat)
    requires WorldRun(worlds, moves) && i < |worlds|
    requires ReadsOnly(worlds[i].stm.log, worlds[i].stm.heap)
    ensures var s := worlds[i].stm;
      Legal(s.init, s.log) <==>
      forall k, p | 0 <= k < |s.log| && p in s.log[k].seen :: Unwritten(s.log, s.log[k].version, k, p.0)
  {
    AllocatedVersionOrderIff(worlds, moves, i);
    var s := worlds[i].stm;
    forall k, p | 0 <= k < |s.log| && p in s.log[k].seen
      ensures StandsAt(s.heap, s.log, k, p) <==> Unwritten(s.log, s.log[k].version, k, p.0)
    {
      assert p.0 in s.heap;
    }
  }

  /** A transaction that wrote nothing always fits right behind the version it started from. */
  lemma QuietFits(states: seq<State>, acts: seq<Action>, i: nat, r: Rec, p: (Var, Storage))
    requires Run(states, acts) && i < |states| && r in states[i].quiet && p in r.seen
    ensures r.version <= |states[i].log| && p.1 == Latest(states[i].init, states[i].log, r.version, p.0)
  {
    RunInv(states, acts, i);
    LogIsRight(states[i]);
    assert r in states[i].log + states[i].quiet;
    assert ReadRight(states[i].init, states[i].log, r, p);
  }

  // ---------------------------------------------------------------- at the bump

  /** A version test of `x` at this moment would pass for `t`, were `x` not locked. */
  ghost predicate StillValid(s: State, t: Tid, x: Var)
    requires t in s.threads
  {
    LastVersion(s.log, |s.log|, x) <= s.threads[t].version
  }

  lemma {:induction false} LegalAppend(init: Memory, log: seq<Rec>, r: Rec)
    ensures Legal(init, log + [r]) <==>
              Legal(init, log) && forall p | p in r.seen :: p.1 == Latest(init, log, |log|, p.0)
  {
    var log' := log + [r];
    PrefixKeptAll(init, log, log');
    assert forall k | 0 <= k < |log| :: log'[k] == log[k];
    assert log'[|log|] == r;
    if Legal(init, log') {
      forall k, p | 0 <= k < |log| && p in log[k].seen ensures p.1 == Latest(init, log, k, p.0) {
        assert p in log'[k].seen;
      }
    }
  }

  /** A commit keeps the order of versions serial if everything it read, validated some steps
      ago, is still valid when it bumps the clock; over heap variables, exactly if. */
  lemma BumpKeepsVersionOrder(worlds: seq<World>, moves: seq<Move>, i: nat, t: Tid)
    requires WorldRun(worlds, moves) && i < |moves| && MoveAt(worlds, moves, i) && moves[i] == Tx(BumpClock(t))
    requires Legal(worlds[i].stm.init, worlds[i].stm.log)
    ensures var s, s' := worlds[i].stm, worlds[i + 1].stm;
      && ((forall p | p in s.threads[t].seen :: StillValid(s, t, p.0)) ==> Legal(s'.init, s'.log))
      && ((forall p | p in s.threads[t].seen :: p.0 in s.heap) ==>
            (Legal(s'.init, s'.log) <==> forall p | p in s.threads[t].seen :: StillValid(s, t, p.0)))
  {
    RunKeeps(worlds, moves, i);
    var w, s := worlds[i], worlds[i].stm;
    var th := s.threads[t];
    assert ThreadInv(s, t);
    LegalAppend(s.init, s.log, WriterRec(s, th));
    forall p | p in th.seen
      ensures StillValid(s, t, p.0) ==> p.1 == Latest(s.init, s.log, |s.log|, p.0)
      ensures p.0 in s.heap ==> (StillValid(s, t, p.0) <==> p.1 == Latest(s.init, s.log, |s.log|, p.0))
    {
      ValidAtBump(w, t, p);
    }
  }

  lemma ValidAtBump(w: World, t: Tid, p: (Var, Storage))
    requires BirthsInv(w) && t in w.stm.threads && ThreadInv(w.stm, t) && p in w.stm.threads[t].seen
    ensures StillValid(w.stm, t, p.0) ==> p.1 == Latest(w.stm.init, w.stm.log, |w.stm.log|, p.0)
    ensures p.0 in w.stm.heap ==>
              (StillValid(w.stm, t, p.0) <==> p.1 == Latest(w.stm.init, w.stm.log, |w.stm.log|, p.0))
  {
    var s, v, x := w.stm, w.stm.threads[t].version, p.0;
    assert p in s.threads[t].held && ReadAt(s, v, s.threads[t].began, p.0, p.1);
    if StillValid(s, t, x) {
      LatestUnchanged(s.init, s.log, v, |s.log|, x);
    } else if x in s.heap {
      LatestIsBorn(w, v, x);
      LatestIsBorn(w, |s.log|, x);
    }
  }
}
