/** What a run says about an attempt, told from its actions and the memory they met alone, and that
    the thread's own sets, the records of the commits and the ways an attempt ends are just that. */
module StmAccount {
  import opened CommitLog
  import opened Options
  import opened Stm
  import opened StmInvariant
  import opened StmActor
  import opened StmStep
  import opened StmTheorems

  /** The operation that was begun last. */
  datatype Access =
    | NoAccess
    | Read(x: Var, storage: Storage, tracked: bool, slow: bool)
    | FastWrite(x: Var)
    | SlowWrite(x: Var, replaced: Storage)
    | AtomicWrite(x: Var)
    | Lock(x: Var, word: Epoch)

  /** An attempt so far: its start, the tracked and all successful reads of memory, the last value
      it gave each variable, the storages that replaces, and the epoch its commit returns. */
  datatype Account = Account(
    kind: Kind, began: nat, version: Epoch, time: nat, sync: Epoch, access: Access,
    tracked: set<(Var, Storage)>, made: set<(Var, Storage)>,
    writes: map<Var, Storage>, replaced: map<Var, Storage>)

  const NothingYet := Account(ReadWrite, 0, 0, 0, 0, NoAccess, {}, {}, map[], map[])

  function WordOf(s: State, x: Var): Epoch { if x in s.mem then s.mem[x].word else 0 }

  function StorageOf(s: State, x: Var): Storage { if x in s.mem then s.mem[x].storage else 0 }

  /** A variable passes the version test. */
  predicate Passes(acc: Account, s: State, x: Var) { WordOf(s, x) <= acc.version }

  /** A read of memory that passed its test. */
  function WithRead(acc: Account, s: State): Account {
    if acc.access.Read? && Passes(acc, s, acc.access.x) then
      var r := (acc.access.x, acc.access.storage);
      acc.(made := acc.made + {r}, tracked := if acc.access.tracked then acc.tracked + {r} else acc.tracked)
    else acc
  }

  /** A first heap write on the slow path that passed its test. */
  function WithSlowWrite(acc: Account, s: State, v: Storage): Account {
    if acc.access.SlowWrite? && Passes(acc, s, acc.access.x) then
      acc.(writes := acc.writes[acc.access.x := v], replaced := acc.replaced[acc.access.x := acc.access.replaced])
    else acc
  }

  function NextAccount(acc: Account, s: State, a: Action): Account {
    match a
    case Begin(_, kind) => NothingYet.(kind := kind, began := s.now, version := s.clock)
    case Load(_, x, tracked, slow) => acc.(access := Read(x, StorageOf(s, x), tracked, slow))
    case Reload(_) =>
      if acc.access.Read? then acc.(access := acc.access.(storage := StorageOf(s, acc.access.x), slow := true)) else acc
    case CheckRead(_) => WithRead(acc, s)
    case WriteFast(_, x, v) => acc.(writes := acc.writes[x := v], access := FastWrite(x))
    case WriteFastLoad(_) =>
      if acc.access.FastWrite? then acc.(replaced := acc.replaced[acc.access.x := StorageOf(s, acc.access.x)]) else acc
    case WriteSlow(_, x) => acc.(access := SlowWrite(x, StorageOf(s, x)))
    case WriteSlowCheck(_, v) => WithSlowWrite(acc, s, v)
    case WriteAtomic(_, x, v) => acc.(writes := acc.writes[x := v], access := AtomicWrite(x))
    case LockLoad(_, x) => acc.(access := Lock(x, WordOf(s, x)))
    case LocksDone(_) => acc.(time := s.now)
    case BumpClock(_) => acc.(sync := s.clock)
    case CommitQuiet(_) => acc.(sync := 0)
    case Leave(_) => NothingYet
    case GiveUp(_) => NothingYet
    case _ => acc
  }

  /** The account of the attempt `t` is in at state `j` of a run. */
  ghost function AccountAt(states: seq<State>, acts: seq<Action>, t: Tid, j: nat): Account
    requires |states| == |acts| + 1 && j < |states|
  {
    if j == 0 then NothingYet
    else if acts[j - 1].t == t then NextAccount(AccountAt(states, acts, t, j - 1), states[j - 1], acts[j - 1])
    else AccountAt(states, acts, t, j - 1)
  }

  function VarsOf(pairs: set<(Var, Storage)>): set<Var> { set r | r in pairs :: r.0 }

  /** The operation a thread stands in the middle of is the one begun last. */
  predicate SameAccess(acc: Account, pc: Pc) {
    match pc
    case Reading(x, s, tracked, slow) => acc.access == Read(x, s, tracked, slow)
    case Rereading(x, tracked) => acc.access.Read? && acc.access.x == x && acc.access.tracked == tracked
    case Writing(x) => acc.access == FastWrite(x)
    case WritingSlow(x, cur) => acc.access == SlowWrite(x, cur)
    case WritingAtomic(x) => acc.access == AtomicWrite(x)
    case LockLoaded(_, x, word) => acc.access == Lock(x, word)
    case Publishing(_, published) => published == acc.sync + BUMP_SIZE
    case Succeeding(sync) => sync == acc.sync
    case _ => true
  }

  predicate BeforeCommit(pc: Pc) {
    pc.Begun? || pc.Body? || pc.Reading? || pc.Rereading? || pc.Writing? || pc.WritingSlow? || pc.WritingAtomic?
  }

  predicate InCommitLoops(pc: Pc) {
    || pc.Locking? || pc.LockLoaded? || pc.Validating? || pc.Storing? || pc.Publishing?
    || pc.Unlocking? || pc.UnlockLoaded?
  }

  /** What the thread has to validate: what it read, tracked, and once it commits has not written. */
  predicate SameReadSet(acc: Account, th: Thread) {
    && (BeforeCommit(th.pc) ==> th.readSet == VarsOf(acc.tracked))
    && (InCommitLoops(th.pc) ==> th.readSet == VarsOf(acc.tracked) - acc.writes.Keys)
  }

  predicate SameSets(acc: Account, th: Thread) {
    th.seen == acc.tracked && th.held == acc.made && th.writes == acc.writes && th.cur == acc.replaced
  }

  ghost predicate SameStart(acc: Account, th: Thread) {
    && th.kind == acc.kind && th.version == acc.version && th.began == acc.began
    && (Complete(th) ==> th.time == acc.time)
  }

  /** The thread's state is what the account says. */
  ghost predicate Agrees(acc: Account, th: Thread) {
    && SameSets(acc, th)
    && (InAttempt(th) ==> SameStart(acc, th))
    && SameAccess(acc, th.pc) && SameReadSet(acc, th)
  }

  // ---------------------------------------------------------------- every step

  /** The actions that change what an attempt has read or written. */
  predicate Collects(a: Action) {
    a.CheckRead? || a.WriteFast? || a.WriteFastLoad? || a.WriteSlowCheck? || a.WriteAtomic?
  }

  lemma CollectedAgree(s: State, a: Action, acc: Account)
    requires Enabled(s, a) && Agrees(acc, s.threads[a.t]) && Collects(a)
    ensures SameSets(NextAccount(acc, s, a), NextThread(s, a))
  {
  }

  lemma FreshAgree(s: State, a: Action, acc: Account)
    requires Enabled(s, a) && Fresh(a)
    ensures SameSets(NextAccount(acc, s, a), NextThread(s, a))
  {
  }

  lemma SetsLeftAlone(s: State, a: Action, acc: Account)
    requires Enabled(s, a) && !Collects(a) && !Fresh(a)
    ensures var th, th', acc' := s.threads[a.t], NextThread(s, a), NextAccount(acc, s, a);
      && th'.seen == th.seen && th'.held == th.held && th'.writes == th.writes && th'.cur == th.cur
      && acc'.tracked == acc.tracked && acc'.made == acc.made
      && acc'.writes == acc.writes && acc'.replaced == acc.replaced
  {
  }

  lemma StartLeftAlone(s: State, a: Action, acc: Account)
    requires !Fresh(a)
    ensures var acc' := NextAccount(acc, s, a);
      && acc'.kind == acc.kind && acc'.began == acc.began && acc'.version == acc.version
      && acc'.time == if a.LocksDone? then s.now else acc.time
  {
  }

  lemma KindKept(s: State, a: Action)
    requires Enabled(s, a) && !Fresh(a)
    ensures NextThread(s, a).kind == s.threads[a.t].kind
    ensures NextThread(s, a).time == if a.LocksDone? then s.now else s.threads[a.t].time
    ensures Complete(NextThread(s, a)) ==> Complete(s.threads[a.t]) || a.LocksDone?
  {
  }

  lemma StartsAgree(s: State, a: Action, acc: Account)
    requires Enabled(s, a) && Agrees(acc, s.threads[a.t])
    ensures InAttempt(NextThread(s, a)) ==> SameStart(NextAccount(acc, s, a), NextThread(s, a))
  {
    if !Fresh(a) {
      AttemptFields(s, a);
      KindKept(s, a);
      StartLeftAlone(s, a, acc);
    }
  }

  /** The actions that load what a later one checks. */
  predicate Opens(a: Action) {
    a.Load? || a.Reload? || a.WriteFast? || a.WriteSlow? || a.WriteAtomic? || a.LockLoad? || a.BumpClock?
  }

  lemma OpenedAgree(s: State, a: Action, acc: Account)
    requires Enabled(s, a) && SameAccess(acc, s.threads[a.t].pc) && Opens(a)
    ensures SameAccess(NextAccount(acc, s, a), NextThread(s, a).pc)
  {
  }

  lemma AccessAgrees(s: State, a: Action, acc: Account)
    requires Enabled(s, a) && SameAccess(acc, s.threads[a.t].pc)
    ensures SameAccess(NextAccount(acc, s, a), NextThread(s, a).pc)
  {
    if Opens(a) {
      OpenedAgree(s, a, acc);
    }
  }

  lemma ReadAgrees(s: State, a: Action, acc: Account)
    requires Enabled(s, a) && Agrees(acc, s.threads[a.t]) && a.CheckRead?
    ensures SameReadSet(NextAccount(acc, s, a), NextThread(s, a))
  {
    var x, v := s.threads[a.t].pc.x, s.threads[a.t].pc.s;
    assert VarsOf(acc.tracked + {(x, v)}) == VarsOf(acc.tracked) + {x};
  }

  lemma ReadSetKept(s: State, a: Action)
    requires Enabled(s, a) && !a.CheckRead? && !Fresh(a)
    ensures var th, th' := s.threads[a.t], NextThread(s, a);
      && th'.readSet == (if a.StartCommit? then th.readSet - th.writes.Keys else th.readSet)
      && (BeforeCommit(th'.pc) ==> BeforeCommit(th.pc))
      && (InCommitLoops(th'.pc) ==>
            if a.StartCommit? then BeforeCommit(th.pc) else InCommitLoops(th.pc) && !Collects(a))
  {
  }

  lemma ReadSetAgrees(s: State, a: Action, acc: Account)
    requires Enabled(s, a) && Agrees(acc, s.threads[a.t])
    ensures SameReadSet(NextAccount(acc, s, a), NextThread(s, a))
  {
    if a.CheckRead? {
      ReadAgrees(s, a, acc);
    } else if !Fresh(a) {
      ReadSetKept(s, a);
      assert NextAccount(acc, s, a).tracked == acc.tracked;
      assert !Collects(a) ==> NextAccount(acc, s, a).writes == acc.writes;
    }
  }

  lemma StepAgrees(s: State, a: Action, acc: Account)
    requires Enabled(s, a) && Agrees(acc, s.threads[a.t])
    ensures Agrees(NextAccount(acc, s, a), NextThread(s, a))
  {
    if Collects(a) {
      CollectedAgree(s, a, acc);
    } else if Fresh(a) {
      FreshAgree(s, a, acc);
    } else {
      SetsLeftAlone(s, a, acc);
    }
    StartsAgree(s, a, acc);
    AccessAgrees(s, a, acc);
    ReadSetAgrees(s, a, acc);
  }

  // ---------------------------------------------------------------- every run

  /** In every run every thread's sets, start and pending operation are what its actions say. */
  lemma {:induction false} AccountAgrees(states: seq<State>, acts: seq<Action>, t: Tid, j: nat)
    requires Run(states, acts) && j < |states| && t in states[j].threads
    ensures Agrees(AccountAt(states, acts, t, j), states[j].threads[t])
  {
    if j > 0 {
      assert StepAt(states, acts, j - 1);
      AccountAgrees(states, acts, t, j - 1);
      if acts[j - 1].t == t {
        StepAgrees(states[j - 1], acts[j - 1], AccountAt(states, acts, t, j - 1));
      }
    }
  }

  /** A commit enters the log at its bump, with exactly the tracked reads and the last writes its
      actions made, and stands at the step its locks were complete. */
  lemma CommitRecord(states: seq<State>, acts: seq<Action>, t: Tid, k: nat)
    requires Run(states, acts) && k < |acts| && acts[k] == BumpClock(t)
    ensures var acc := AccountAt(states, acts, t, k);
      states[k + 1].log
      == states[k].log + [Rec(acc.began, acc.time, states[k].now, acc.version, true, acc.tracked, acc.writes)]
  {
    assert StepAt(states, acts, k);
    AccountAgrees(states, acts, t, k);
  }

  /** A transaction that wrote nothing enters the history with all its reads, tracked or not. */
  lemma QuietRecord(states: seq<State>, acts: seq<Action>, t: Tid, k: nat)
    requires Run(states, acts) && k < |acts| && acts[k] == CommitQuiet(t)
    ensures var acc := AccountAt(states, acts, t, k);
      && acc.writes == map[]
      && states[k + 1].quiet
         == states[k].quiet + [Rec(acc.began, acc.began, states[k].now, acc.version, false, acc.made, map[])]
  {
    assert StepAt(states, acts, k);
    AccountAgrees(states, acts, t, k);
  }

  /** Nothing else enters either. */
  lemma OnlyCommitsRecord(states: seq<State>, acts: seq<Action>, k: nat)
    requires Run(states, acts) && k < |acts|
    ensures !acts[k].BumpClock? ==> states[k + 1].log == states[k].log
    ensures !acts[k].CommitQuiet? ==> states[k + 1].quiet == states[k].quiet
  {
    assert StepAt(states, acts, k);
  }

  /** A finished commit has installed, under one version, the last value its actions gave each
      variable, and returns the clock it bumped. */
  lemma CommitInstallsLastWrites(states: seq<State>, acts: seq<Action>, t: Tid, k: nat)
    requires Run(states, acts) && k < |acts| && acts[k] == Published(t)
    ensures var s, acc := states[k], AccountAt(states, acts, t, k);
      && acc.sync < |s.log| && s.log[acc.sync].writes == acc.writes && s.log[acc.sync].seen == acc.tracked
      && (forall x | x in acc.writes :: Latest(s.init, s.log, acc.sync + 1, x) == acc.writes[x])
      && t in states[k + 1].threads && states[k + 1].threads[t].pc == Succeeding(acc.sync)
  {
    assert StepAt(states, acts, k);
    RunInv(states, acts, k);
    AccountAgrees(states, acts, t, k);
    assert ThreadInv(states[k], t);
  }

  // ---------------------------------------------------------------- reads and writes, one by one

  /** Between `i` and `j` thread `t` neither begins nor ends an attempt. */
  ghost predicate OneAttempt(acts: seq<Action>, t: Tid, i: nat, j: nat)
    requires j <= |acts|
  {
    forall m | i <= m < j && acts[m].t == t :: !Fresh(acts[m])
  }

  /** `t` is still about the read it opened with action `i`. */
  ghost predicate SameRead(acts: seq<Action>, t: Tid, i: nat, k: nat)
    requires k <= |acts|
  {
    forall m | i < m < k && acts[m].t == t :: acts[m].CheckRead? || acts[m].Reload?
  }

  lemma {:induction false} StillReading(states: seq<State>, acts: seq<Action>, t: Tid, x: Var, i: nat, l: nat, k: nat)
    requires Run(states, acts) && i <= l < k <= |acts| && acts[i].Load? && acts[i].t == t && acts[i].x == x
    requires SameRead(acts, t, i, k) && LoadedLast(acts, t, i, l, k)
    ensures var acc := AccountAt(states, acts, t, k);
      acc.access == Read(x, StorageOf(states[l], x), acts[i].tracked, acts[i].slow || l > i)
  {
    if k > l + 1 {
      StillReading(states, acts, t, x, i, l, k - 1);
    } else if l > i {
      var l' := LastLoad(acts, t, i, l);
      StillReading(states, acts, t, x, i, l', l);
    }
  }

  /** Action `l` is the last before `k` by which `t` loaded the storage. */
  ghost predicate LoadedLast(acts: seq<Action>, t: Tid, i: nat, l: nat, k: nat)
    requires i <= l < k <= |acts|
  {
    && (l == i || acts[l] == Reload(t))
    && forall m | l < m < k :: acts[m] != Reload(t)
  }

  lemma {:induction false} LastLoad(acts: seq<Action>, t: Tid, i: nat, k: nat) returns (l: nat)
    requires i < k <= |acts|
    ensures i <= l < k && LoadedLast(acts, t, i, l, k)
  {
    l := k - 1;
    if l > i && acts[l] != Reload(t) {
      l := LastLoad(acts, t, i, k - 1);
    }
  }

  lemma {:induction false} ReadStays(states: seq<State>, acts: seq<Action>, t: Tid, i: nat, j: nat)
    requires Run(states, acts) && i <= j <= |acts| && OneAttempt(acts, t, i, j)
    ensures var acc, acc' := AccountAt(states, acts, t, i), AccountAt(states, acts, t, j);
      && acc.tracked <= acc'.tracked && acc.made <= acc'.made
      && acc'.version == acc.version && acc'.began == acc.began && acc'.kind == acc.kind
  {
    if i < j {
      ReadStays(states, acts, t, i, j - 1);
    }
  }

  /** An attempt runs from first to last at the clock it read when it began. */
  lemma AttemptStarts(states: seq<State>, acts: seq<Action>, t: Tid, b: nat, j: nat)
    requires Run(states, acts) && b < j <= |acts| && acts[b].Begin? && acts[b].t == t
    requires OneAttempt(acts, t, b + 1, j) && t in states[j].threads
    ensures var th := states[j].threads[t];
      InAttempt(th) && th.version == states[b].clock && th.began == states[b].now && th.kind == acts[b].kind
  {
    ReadStays(states, acts, t, b + 1, j);
    AccountAgrees(states, acts, t, j);
    StaysInAttempt(states, acts, t, b, j);
  }

  lemma {:induction false} StaysInAttempt(states: seq<State>, acts: seq<Action>, t: Tid, b: nat, j: nat)
    requires Run(states, acts) && b < j <= |acts| && acts[b].Begin? && acts[b].t == t
    requires OneAttempt(acts, t, b + 1, j) && t in states[j].threads
    ensures InAttempt(states[j].threads[t])
  {
    assert StepAt(states, acts, j - 1);
    if j > b + 1 {
      StaysInAttempt(states, acts, t, b, j - 1);
      AttemptGoesOn(states[j - 1], acts[j - 1], t);
    }
  }

  lemma AttemptGoesOn(s: State, a: Action, t: Tid)
    requires Enabled(s, a) && t in s.threads && InAttempt(s.threads[t]) && (a.t == t ==> !Fresh(a))
    ensures InAttempt(Apply(s, a).threads[t])
  {
  }

  /** A tracked read that passes its test, on the fast path or after any number of reloads, is from
      then on a tracked read of the attempt, of the storage loaded last, and is to be validated
      unless its variable is written as well. */
  lemma TrackedReadIsSeen(states: seq<State>, acts: seq<Action>, t: Tid, x: Var, i: nat, l: nat, k: nat, j: nat)
    requires Run(states, acts) && i <= l < k < j <= |acts|
    requires acts[i].Load? && acts[i].t == t && acts[i].x == x && acts[i].tracked
    requires SameRead(acts, t, i, k) && LoadedLast(acts, t, i, l, k)
    requires acts[k] == CheckRead(t) && t in states[k].threads && WordOf(states[k], x) <= states[k].threads[t].version
    requires OneAttempt(acts, t, k, j) && t in states[j].threads
    ensures var th := states[j].threads[t];
      && (x, StorageOf(states[l], x)) in th.seen
      && (BeforeCommit(th.pc) ==> x in th.readSet)
      && (InCommitLoops(th.pc) ==> x in th.readSet || x in th.writes)
  {
    var r := (x, StorageOf(states[l], x));
    PassedIsTracked(states, acts, t, x, i, l, k);
    ReadStays(states, acts, t, k + 1, j);
    AccountAgrees(states, acts, t, j);
    assert r.0 in VarsOf(AccountAt(states, acts, t, j).tracked);
  }

  lemma PassedIsTracked(states: seq<State>, acts: seq<Action>, t: Tid, x: Var, i: nat, l: nat, k: nat)
    requires Run(states, acts) && i <= l < k < |acts|
    requires acts[i].Load? && acts[i].t == t && acts[i].x == x && acts[i].tracked
    requires SameRead(acts, t, i, k) && LoadedLast(acts, t, i, l, k)
    requires acts[k] == CheckRead(t) && t in states[k].threads && WordOf(states[k], x) <= states[k].threads[t].version
    ensures (x, StorageOf(states[l], x)) in AccountAt(states, acts, t, k + 1).tracked
  {
    StillReading(states, acts, t, x, i, l, k);
    AccountAgrees(states, acts, t, k);
    assert StepAt(states, acts, k);
  }

  /** Action `m` gives `x` the value `v` in `t`'s attempt. */
  ghost predicate Gives(states: seq<State>, acts: seq<Action>, t: Tid, m: nat, x: Var, v: Storage)
    requires |states| == |acts| + 1 && m < |acts|
  {
    || acts[m] == WriteFast(t, x, v)
    || acts[m] == WriteAtomic(t, x, v)
    || (&& acts[m] == WriteSlowCheck(t, v)
        && var acc := AccountAt(states, acts, t, m);
           acc.access.SlowWrite? && acc.access.x == x && Passes(acc, states[m], x))
  }

  /** The last value an attempt gives a variable is the one pending, all the way through commit. */
  lemma LastWriteWins(states: seq<State>, acts: seq<Action>, t: Tid, x: Var, v: Storage, i: nat, j: nat)
    requires Run(states, acts) && i < j <= |acts| && Gives(states, acts, t, i, x, v)
    requires OneAttempt(acts, t, i, j) && forall m, u | i < m < j :: !Gives(states, acts, t, m, x, u)
    requires t in states[j].threads
    ensures x in states[j].threads[t].writes && states[j].threads[t].writes[x] == v
  {
    GivenStays(states, acts, t, x, v, i, j);
    AccountAgrees(states, acts, t, j);
  }

  lemma {:induction false} GivenStays(states: seq<State>, acts: seq<Action>, t: Tid, x: Var, v: Storage, i: nat, j: nat)
    requires Run(states, acts) && i < j <= |acts| && Gives(states, acts, t, i, x, v)
    requires OneAttempt(acts, t, i, j) && forall m, u | i < m < j :: !Gives(states, acts, t, m, x, u)
    ensures var acc := AccountAt(states, acts, t, j); x in acc.writes && acc.writes[x] == v
  {
    if j > i + 1 {
      GivenStays(states, acts, t, x, v, i, j - 1);
      var a := acts[j - 1];
      if a.t == t && (a.WriteFast? || a.WriteAtomic? || a.WriteSlowCheck?) {
        assert !Gives(states, acts, t, j - 1, x, a.s);
      }
    }
  }

  /** Nothing else is pending. */
  lemma {:induction false} PendingWasGiven(states: seq<State>, acts: seq<Action>, t: Tid, x: Var, j: nat)
    returns (m: nat)
    requires Run(states, acts) && j <= |acts| && x in AccountAt(states, acts, t, j).writes
    ensures m < j && Gives(states, acts, t, m, x, AccountAt(states, acts, t, j).writes[x])
    ensures OneAttempt(acts, t, m, j)
  {
    var a, v := acts[j - 1], AccountAt(states, acts, t, j).writes[x];
    m := j - 1;
    if !Gives(states, acts, t, m, x, v) {
      m := PendingWasGiven(states, acts, t, x, j - 1);
    }
  }
}
