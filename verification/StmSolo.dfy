/** A transaction that nobody disturbs commits. */
module StmSolo {
  import opened CommitLog
  import opened Options
  import opened Stm
  import opened StmInvariant
  import opened StmStep
  import opened StmTheorems
  import opened StmAlone

  /** No other thread holds a lock and none has committed since `t` read the clock. */
  ghost predicate Undisturbed(s: State, t: Tid) {
    && t in s.threads && InAttempt(s.threads[t])
    && (forall x | x in s.mem :: s.mem[x].owner == None || s.mem[x].owner == Some(t))
    && |s.log| == s.threads[t].version
  }

  /** Anything it has not locked itself passes the version test. */
  lemma UnlockedIsValid(s: State, t: Tid, x: Var)
    requires Inv(s) && Undisturbed(s, t) && x in s.mem && !Holds(s.threads[t], x)
    ensures s.mem[x].owner == None && Valid(s.threads[t], s.mem[x].word)
  {
    assert CellInv(s, x);
  }

  /** The word it loaded before its swap is still there. */
  lemma LoadedIsThere(s: State, t: Tid)
    requires Inv(s) && Undisturbed(s, t) && s.threads[t].pc.LockLoaded? && s.threads[t].pc.x in s.mem
    ensures s.mem[s.threads[t].pc.x].word == s.threads[t].pc.word
  {
    assert ThreadInv(s, t);
    UnlockedIsValid(s, t, s.threads[t].pc.x);
    assert CellInv(s, s.threads[t].pc.x);
  }

  ghost predicate OnItsWay(pc: Pc) {
    !pc.Failing? && !pc.Failed? && !pc.Unlocking? && !pc.UnlockLoaded? && !pc.Rereading?
  }

  /** No read, write, lock or validation of an undisturbed attempt fails: only the user's own
      function can end it early. */
  lemma SoloNeverFails(s: State, a: Action)
    requires Inv(s) && Enabled(s, a) && Undisturbed(s, a.t) && !a.Throw?
    requires OnItsWay(s.threads[a.t].pc)
    ensures OnItsWay(NextThread(s, a).pc)
  {
    var th := s.threads[a.t];
    assert ThreadInv(s, a.t);
    if a.CheckRead? || a.WriteSlowCheck? || a.WriteAtomicCheck? {
      UnlockedIsValid(s, a.t, th.pc.x);
    } else if a.LockCas? {
      LoadedIsThere(s, a.t);
    } else if a.ReadOwn? || a.WriteOwn? || a.LockLoad? || a.Validate? {
      UnlockedIsValid(s, a.t, a.x);
    }
  }

  // ---------------------------------------------------------------- every run

  /** The step is not one of `t`, or `t` begins with it, or `t` has bumped the clock already, or
      nobody disturbs `t` and its own function throws nothing. */
  ghost predicate LeftAlone(s: State, a: Action, t: Tid) {
    a.t == t ==> !a.Throw? && (a.Begin? || (t in s.threads && Bumped(s.threads[t].pc)) || Undisturbed(s, t))
  }

  lemma LeftAloneStep(s: State, a: Action, t: Tid)
    requires Inv(s) && Enabled(s, a) && LeftAlone(s, a, t)
    requires t in s.threads && OnItsWay(s.threads[t].pc)
    ensures t in Apply(s, a).threads && OnItsWay(Apply(s, a).threads[t].pc)
  {
    if a.t == t && Undisturbed(s, t) {
      SoloNeverFails(s, a);
    }
  }

  lemma LeftAloneAt(states: seq<State>, acts: seq<Action>, t: Tid, k: nat)
    requires Run(states, acts) && k < |acts| && LeftAlone(states[k], acts[k], t)
    requires t in states[k].threads && OnItsWay(states[k].threads[t].pc)
    ensures t in states[k + 1].threads && OnItsWay(states[k + 1].threads[t].pc)
  {
    RunInv(states, acts, k);
    assert StepAt(states, acts, k);
    LeftAloneStep(states[k], acts[k], t);
  }

  ghost predicate LeftAloneFrom(states: seq<State>, acts: seq<Action>, t: Tid, i: nat, j: nat)
    requires j <= |acts| && |states| == |acts| + 1
  {
    forall k {:trigger LeftAlone(states[k], acts[k], t)} | i <= k < j :: LeftAlone(states[k], acts[k], t)
  }

  /** In every run, an attempt that finds no lock of another thread and no commit since its start
      whenever it takes a step of its own is never turned back: it does not fail a read, a write, a
      lock or a validation, and does not undo a lock. */
  lemma {:induction false} UndisturbedGoesOn(states: seq<State>, acts: seq<Action>, t: Tid, i: nat, j: nat)
    requires Run(states, acts) && i <= j < |states| && LeftAloneFrom(states, acts, t, i, j)
    requires t in states[i].threads && OnItsWay(states[i].threads[t].pc)
    ensures t in states[j].threads && OnItsWay(states[j].threads[t].pc)
  {
    if i < j {
      UndisturbedGoesOn(states, acts, t, i, j - 1);
      assert LeftAlone(states[j - 1], acts[j - 1], t);
      LeftAloneAt(states, acts, t, j - 1);
    }
  }

  lemma LeavesOnItsWay(s: State, t: Tid)
    requires Enabled(s, Leave(t)) && OnItsWay(s.threads[t].pc)
    ensures s.threads[t].pc.Succeeding?
  {
  }

  /** So when such an attempt ends it has succeeded. */
  lemma UndisturbedSucceeds(states: seq<State>, acts: seq<Action>, t: Tid, i: nat, j: nat)
    requires Run(states, acts) && i <= j < |acts| && LeftAloneFrom(states, acts, t, i, j)
    requires t in states[i].threads && OnItsWay(states[i].threads[t].pc)
    requires acts[j] == Leave(t)
    ensures t in states[j].threads && states[j].threads[t].pc.Succeeding?
  {
    UndisturbedGoesOn(states, acts, t, i, j);
    assert StepAt(states, acts, j);
    LeavesOnItsWay(states[j], t);
  }

  // ---------------------------------------------------------------- the commit finishes

  /** In the middle of `try_commit`, before or after the clock is bumped. */
  ghost predicate CommitReady(s: State, t: Tid) {
    && Commits(s, t) && OnItsWay(s.threads[t].pc)
    && (Bumped(s.threads[t].pc) || Undisturbed(s, t))
  }

  lemma CommitFields(s: State, a: Action)
    requires Enabled(s, a) && InCommit(a)
    ensures var th, th' := s.threads[a.t], NextThread(s, a);
      InAttempt(th') && th'.version == th.version && th'.writes == th.writes
  {
  }

  lemma OwnersAre(s: State, a: Action, x: Var)
    requires Enabled(s, a) && InCommit(a) && x in s.mem
    requires s.mem[x].owner == None || s.mem[x].owner == Some(a.t)
    ensures x in NextMem(s, a) && (NextMem(s, a)[x].owner == None || NextMem(s, a)[x].owner == Some(a.t))
  {
  }

  lemma StaysUndisturbed(s: State, a: Action)
    requires Enabled(s, a) && Undisturbed(s, a.t)
    requires InCommit(a) && !a.BumpClock? && !a.Publish? && !a.Published?
    ensures Undisturbed(Apply(s, a), a.t)
  {
    CommitFields(s, a);
    forall x | x in NextMem(s, a)
      ensures NextMem(s, a)[x].owner == None || NextMem(s, a)[x].owner == Some(a.t)
    {
      OwnersAre(s, a, x);
    }
  }

  /** The write set stays, and the log gains one record with exactly the write set when the clock is
      bumped, else nothing. */
  ghost predicate Grows(s: State, t: Tid, s': State)
    requires t in s.threads
  {
    && t in s'.threads && s'.threads[t].writes == s.threads[t].writes
    && (Bumped(s.threads[t].pc) ==> Bumped(s'.threads[t].pc))
    && if Bumped(s.threads[t].pc) || !Bumped(s'.threads[t].pc) then s'.log == s.log
       else |s'.log| == |s.log| + 1 && s'.log[|s.log|].writes == s.threads[t].writes
  }

  lemma GrowsOn(s: State, t: Tid, s1: State, s': State)
    requires t in s.threads && Grows(s, t, s1) && Grows(s1, t, s')
    ensures Grows(s, t, s')
  {
  }

  lemma BumpedOnce(s: State, a: Action)
    requires Enabled(s, a) && InCommit(a)
    ensures Bumped(NextThread(s, a).pc) <==> a.BumpClock? || a.Publish? || a.Published?
    ensures Bumped(s.threads[a.t].pc) <==> a.Publish? || a.Published?
  {
  }

  lemma BumpedBy(s: State, a: Action)
    requires Enabled(s, a) && InCommit(a)
    ensures Grows(s, a.t, Apply(s, a))
  {
    CommitFields(s, a);
    BumpedOnce(s, a);
  }

  lemma ReadyStep(s: State, a: Action)
    requires Inv(s) && Enabled(s, a) && InCommit(a) && CommitReady(s, a.t)
    ensures CommitReady(Apply(s, a), a.t)
  {
    CommitGoesOn(s, a);
    BumpedOnce(s, a);
    if !Bumped(NextThread(s, a).pc) {
      SoloNeverFails(s, a);
      StaysUndisturbed(s, a);
    }
  }

  lemma SoloStep(s: State, a: Action)
    requires Inv(s) && Enabled(s, a) && InCommit(a) && CommitReady(s, a.t)
    ensures Inv(Apply(s, a)) && CommitReady(Apply(s, a), a.t) && Grows(s, a.t, Apply(s, a))
  {
    InvKept(s, a);
    ReadyStep(s, a);
    BumpedBy(s, a);
  }

  lemma {:induction false} SoloLeads(s: State, acts: seq<Action>, s': State, t: Tid)
    requires Inv(s) && CommitReady(s, t) && Leads(s, acts, s') && CommitsBy(acts, t)
    ensures CommitReady(s', t) && Grows(s, t, s')
    decreases |acts|
  {
    if acts != [] {
      var s1 := Apply(s, acts[0]);
      SoloStep(s, acts[0]);
      SoloLeads(s1, acts[1..], s', t);
      GrowsOn(s, t, s1, s');
    }
  }

  /** Left to itself, a transaction with a nonempty write set carries its commit to the end. */
  lemma SoloCommits(s: State, t: Tid) returns (acts: seq<Action>, s': State)
    requires Inv(s) && CommitReady(s, t)
    ensures Leads(s, acts, s') && CommitsBy(acts, t)
    ensures t in s'.threads && s'.threads[t].pc.Succeeding?
    ensures if Bumped(s.threads[t].pc) then s'.log == s.log
            else |s'.log| == |s.log| + 1 && s'.log[|s.log|].writes == s.threads[t].writes
  {
    acts, s' := AloneEnds(s, t);
    SoloLeads(s, acts, s', t);
  }
}
