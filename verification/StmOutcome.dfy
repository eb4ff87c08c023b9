/** When and how an attempt is turned back, whatever the other threads do, and that it is never stuck. */
module StmOutcome {
  import opened CommitLog
  import opened Options
  import opened Stm
  import opened StmInvariant
  import opened StmTheorems
  import opened StmSolo
  import opened StmAlone
  import opened StmAccount

  /** The version test this action makes fails. */
  predicate TestFails(acc: Account, s: State, a: Action) {
    match a
    case CheckRead(_) => acc.access.Read? && !Passes(acc, s, acc.access.x)
    case WriteSlowCheck(_, _) => acc.access.SlowWrite? && !Passes(acc, s, acc.access.x)
    case WriteAtomicCheck(_) => acc.access.AtomicWrite? && !Passes(acc, s, acc.access.x)
    case ReadOwn(_, x) => !Passes(acc, s, x)
    case WriteOwn(_, x) => !Passes(acc, s, x)
    case LockLoad(_, x) => !Passes(acc, s, x)
    case Validate(_, x) => !Passes(acc, s, x)
    case _ => false
  }

  /** The word has changed since it was loaded, so the compare-and-swap is lost. */
  predicate SwapFails(acc: Account, s: State, a: Action) {
    a.LockCas? && acc.access.Lock? && WordOf(s, acc.access.x) != acc.access.word
  }

  lemma TurnedBackStep(s: State, a: Action, acc: Account)
    requires Enabled(s, a) && Agrees(acc, s.threads[a.t]) && InAttempt(s.threads[a.t])
    requires OnItsWay(s.threads[a.t].pc)
    ensures !OnItsWay(NextThread(s, a).pc) <==> a.Throw? || TestFails(acc, s, a) || SwapFails(acc, s, a)
  {
    if a.LockLoad? || a.LockCas? || a.Validate? {
      CommitTurnedBack(s, a, acc);
    } else {
      BodyTurnedBack(s, a, acc);
    }
  }

  lemma CommitTurnedBack(s: State, a: Action, acc: Account)
    requires Enabled(s, a) && (a.LockLoad? || a.LockCas? || a.Validate?)
    requires s.threads[a.t].version == acc.version && SameAccess(acc, s.threads[a.t].pc)
    ensures !OnItsWay(NextThread(s, a).pc) <==> TestFails(acc, s, a) || SwapFails(acc, s, a)
  {
  }

  lemma BodyTurnedBack(s: State, a: Action, acc: Account)
    requires Enabled(s, a) && !a.LockLoad? && !a.LockCas? && !a.Validate? && OnItsWay(s.threads[a.t].pc)
    requires s.threads[a.t].version == acc.version && SameAccess(acc, s.threads[a.t].pc)
    ensures !OnItsWay(NextThread(s, a).pc) <==> a.Throw? || TestFails(acc, s, a)
  {
  }

  /** In every run, an attempt is turned back exactly when its own function throws, a version test
      fails, or a lock's word changed between the load and the swap. */
  lemma TurnedBackIff(states: seq<State>, acts: seq<Action>, k: nat)
    requires Run(states, acts) && k < |acts| && StepAt(states, acts, k)
    requires InAttempt(states[k].threads[acts[k].t]) && OnItsWay(states[k].threads[acts[k].t].pc)
    ensures var s, a, acc := states[k], acts[k], AccountAt(states, acts, acts[k].t, k);
      && a.t in states[k + 1].threads
      && (!OnItsWay(states[k + 1].threads[a.t].pc) <==> a.Throw? || TestFails(acc, s, a) || SwapFails(acc, s, a))
  {
    AccountAgrees(states, acts, acts[k].t, k);
    TurnedBackStep(states[k], acts[k], AccountAt(states, acts, acts[k].t, k));
  }

  // ---------------------------------------------------------------- what happens then

  predicate InLocks(pc: Pc) { pc.Locking? || pc.LockLoaded? || pc.Validating? }

  lemma TurnedBackWhere(s: State, a: Action)
    requires Enabled(s, a) && InAttempt(s.threads[a.t]) && OnItsWay(s.threads[a.t].pc)
    requires !OnItsWay(NextThread(s, a).pc)
    ensures var th, pc' := s.threads[a.t], NextThread(s, a).pc;
      if a.CheckRead? && !th.pc.slow && th.kind.ReadWrite? then pc' == Rereading(th.pc.x, th.pc.tracked)
      else if InLocks(th.pc) then pc'.Unlocking?
      else pc'.Failing?
  {
  }

  /** A read that fails on the fast path is made again, with the same variable and tracking, unless
      the transaction is read-only; in the commit every lock is given back, and only then, as from
      anywhere else, the attempt has failed. */
  lemma TurnedBackTo(states: seq<State>, acts: seq<Action>, k: nat)
    requires Run(states, acts) && k < |acts| && StepAt(states, acts, k)
    requires InAttempt(states[k].threads[acts[k].t]) && OnItsWay(states[k].threads[acts[k].t].pc)
    requires !OnItsWay(states[k + 1].threads[acts[k].t].pc)
    ensures var a, th, pc' := acts[k], states[k].threads[acts[k].t], states[k + 1].threads[acts[k].t].pc;
      var pc := th.pc;
      if a.CheckRead? && !pc.slow && th.kind.ReadWrite? then pc' == Rereading(pc.x, pc.tracked)
      else if InLocks(pc) then pc'.Unlocking? && forall x :: x in pc'.todo <==> OwnerIs(states[k + 1], x, a.t)
      else pc'.Failing?
  {
    RunInv(states, acts, k + 1);
    TurnedBackWhere(states[k], acts[k]);
    if InLocks(states[k].threads[acts[k].t].pc) {
      UndoesItsLocks(states[k + 1], acts[k].t);
    }
  }

  lemma UndoesItsLocks(s: State, t: Tid)
    requires Inv(s) && t in s.threads && s.threads[t].pc.Unlocking?
    ensures forall x :: x in s.threads[t].pc.todo <==> OwnerIs(s, x, t)
  {
    assert ThreadInv(s, t);
    forall x ensures x in s.threads[t].pc.todo <==> OwnerIs(s, x, t) {
      assert Holds(s.threads[t], x) <==> x in s.threads[t].pc.todo;
      if x in s.mem {
        assert CellInv(s, x);
      }
    }
  }

  /** The actions that finish an operation of the user's function. */
  predicate Finishes(a: Action) {
    || a.Announce? || a.CheckRead? || a.ReadOwn?
    || a.WriteFastLoad? || a.WriteSlowCheck? || a.WriteOwn? || a.WriteAtomicCheck?
  }

  /** An operation that is not turned back returns to the function; a read made again is loaded
      again; a fast write is made only to a variable that passes the version test. */
  lemma OperationReturns(states: seq<State>, acts: seq<Action>, k: nat)
    requires Run(states, acts) && k < |acts| && StepAt(states, acts, k)
    ensures var s, a, acc := states[k], acts[k], AccountAt(states, acts, acts[k].t, k);
      var pc, pc' := s.threads[a.t].pc, states[k + 1].threads[a.t].pc;
      && (Finishes(a) && OnItsWay(pc') ==> pc'.Body?)
      && (a.Reload? ==> pc' == Reading(pc.x, StorageOf(s, pc.x), pc.tracked, true))
      && (a.WriteFast? ==> Passes(acc, s, a.x) && pc' == if a.x in s.heap then Writing(a.x) else Body)
  {
    AccountAgrees(states, acts, acts[k].t, k);
  }

  /** A thread is out of its transaction exactly after leaving with success or giving up a failed
      attempt, and waits to decide exactly after leaving with failure; then it shows no epoch and
      keeps no sets. */
  lemma AttemptEnds(states: seq<State>, acts: seq<Action>, k: nat)
    requires Run(states, acts) && k < |acts| && StepAt(states, acts, k)
    ensures var a, pc, th' := acts[k], states[k].threads[acts[k].t].pc, states[k + 1].threads[acts[k].t];
      && (th'.pc.Idle? <==> (a.Leave? && pc.Succeeding?) || a.GiveUp?)
      && (th'.pc.Failed? <==> a.Leave? && pc.Failing?)
      && (th'.pc.Idle? || th'.pc.Failed? ==>
            && th'.active == OFF_STATE && th'.readSet == {} && th'.writes == map[] && th'.cur == map[])
  {
  }

  // ---------------------------------------------------------------- nothing is ever stuck

  /** Every operation is open to the function: reads of variables not written on either path and
      tracked or not, writes on the path the variable allows, reads and writes of what is pending,
      and exactly one way to commit. */
  lemma OperationsOpen(states: seq<State>, acts: seq<Action>, j: nat, t: Tid, x: Var, v: Storage)
    requires Run(states, acts) && j < |states| && t in states[j].threads && states[j].threads[t].pc.Body?
    requires x in states[j].mem && states[j].threads[t].kind.ReadWrite?
    ensures var s, acc := states[j], AccountAt(states, acts, t, j);
      && (forall tracked, slow :: Enabled(s, Load(t, x, tracked, slow)) <==> x !in acc.writes)
      && (Enabled(s, ReadOwn(t, x)) <==> x in acc.writes)
      && (Enabled(s, WriteFast(t, x, v)) <==> x !in acc.writes && Passes(acc, s, x))
      && (Enabled(s, WriteSlow(t, x)) <==> x in s.heap && x !in acc.writes)
      && (Enabled(s, WriteOwn(t, x)) <==> x in s.heap && x in acc.writes)
      && (Enabled(s, WriteAtomic(t, x, v)) <==> x !in s.heap)
      && (Enabled(s, CommitQuiet(t)) <==> acc.writes == map[])
      && (Enabled(s, StartCommit(t)) <==> acc.writes != map[])
      && Enabled(s, Throw(t))
  {
    AccountAgrees(states, acts, t, j);
    ReadsOpen(states[j], t, x);
    WritesOpen(states[j], t, x, v);
  }

  lemma ReadsOpen(s: State, t: Tid, x: Var)
    requires InBody(s, t) && x in s.mem && s.threads[t].kind.ReadWrite?
    ensures var th := s.threads[t];
      && (forall tracked, slow :: Enabled(s, Load(t, x, tracked, slow)) <==> x !in th.writes)
      && (Enabled(s, ReadOwn(t, x)) <==> x in th.writes)
      && (Enabled(s, CommitQuiet(t)) <==> th.writes == map[]) && (Enabled(s, StartCommit(t)) <==> th.writes != map[])
      && Enabled(s, Throw(t))
  {
  }

  lemma WritesOpen(s: State, t: Tid, x: Var, v: Storage)
    requires InBody(s, t) && x in s.mem && s.threads[t].kind.ReadWrite?
    ensures var th := s.threads[t];
      && (Enabled(s, WriteFast(t, x, v)) <==> x !in th.writes && s.mem[x].word <= th.version)
      && (Enabled(s, WriteSlow(t, x)) <==> x in s.heap && x !in th.writes)
      && (Enabled(s, WriteOwn(t, x)) <==> x in s.heap && x in th.writes)
      && (Enabled(s, WriteAtomic(t, x, v)) <==> x !in s.heap)
  {
  }

  lemma ReadOnlyOpen(states: seq<State>, acts: seq<Action>, j: nat, t: Tid, x: Var)
    requires Run(states, acts) && j < |states| && t in states[j].threads && states[j].threads[t].pc.Body?
    requires x in states[j].mem && states[j].threads[t].kind.ReadOnly?
    ensures Enabled(states[j], Load(t, x, false, false)) && Enabled(states[j], CommitQuiet(t))
  {
    RunInv(states, acts, j);
    assert ThreadInv(states[j], t);
  }

  /** Every thread can always take a step; where the step allocates, the storage may be any. */
  lemma NeverStuck(states: seq<State>, acts: seq<Action>, j: nat, t: Tid, v: Storage) returns (a: Action)
    requires Run(states, acts) && j < |states| && t in states[j].threads
    requires states[j].clock < MAX_VERSION - BUMP_SIZE
    ensures a.t == t && Enabled(states[j], a)
  {
    RunInv(states, acts, j);
    a := NextStep(states[j], t, v);
  }

  lemma NextStep(s: State, t: Tid, v: Storage) returns (a: Action)
    requires Inv(s) && t in s.threads && s.clock < MAX_VERSION - BUMP_SIZE
    ensures a.t == t && Enabled(s, a) && !a.WriteFast? && (a.WriteSlowCheck? ==> a.s == v)
  {
    var pc := s.threads[t].pc;
    assert ThreadInv(s, t);
    match pc {
      case Idle => a := Begin(t, ReadWrite);
      case Failed => a := Begin(t, ReadWrite);
      case Begun => a := Announce(t);
      case Body => a := Throw(t);
      case Reading(_, _, _, _) => a := CheckRead(t);
      case Rereading(_, _) => a := Reload(t);
      case Writing(_) => a := WriteFastLoad(t);
      case WritingSlow(_, _) => a := WriteSlowCheck(t, v);
      case WritingAtomic(_) => a := WriteAtomicCheck(t);
      case Succeeding(_) => a := Leave(t);
      case Failing => a := Leave(t);
      case _ => a := CommitAction(s, t);
    }
  }
}
