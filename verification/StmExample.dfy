/** Why version numbers are not the serialization order: a concrete run. */
module StmExample {
  import opened CommitLog
  import opened Options
  import opened SerialOrder
  import opened Stm
  import opened StmTheorems

  // two variables that need no heap storage, both 0 at first, and two threads
  const X: Var := 0
  const Y: Var := 1
  const A: Tid := 0
  const B: Tid := 1
  const INIT: Memory := map[X := 0, Y := 0]

  const FREE := Cell(0, 0, None)
  const STARTED := NewThread.(active := 0)

  const RECORD_A := Rec(0, 8, 22, 0, true, {(X, 0)}, map[Y := 5])
  const RECORD_B := Rec(11, 17, 20, 0, true, {}, map[X := 7])

  /** A reads X, writes Y, takes its lock and validates; then B writes X and commits; then A commits. */
  function Act(k: nat): Action {
    match k
    case 0 => Begin(A, ReadWrite) case 1 => Announce(A)
    case 2 => Load(A, X, true, false) case 3 => CheckRead(A) case 4 => WriteFast(A, Y, 5)
    case 5 => StartCommit(A) case 6 => LockLoad(A, Y) case 7 => LockCas(A) case 8 => LocksDone(A)
    case 9 => Validate(A, X) case 10 => ReadsValid(A)
    case 11 => Begin(B, ReadWrite) case 12 => Announce(B) case 13 => WriteFast(B, X, 7)
    case 14 => StartCommit(B) case 15 => LockLoad(B, X) case 16 => LockCas(B) case 17 => LocksDone(B)
    case 18 => ReadsValid(B) case 19 => StoreOne(B, X) case 20 => BumpClock(B)
    case 21 => StoreOne(A, Y)
    case _ => BumpClock(A)
  }

  function Reader(k: nat): Thread {
    var reading := STARTED.(readSet := {X}, seen := {(X, 0)}, held := {(X, 0)});
    var writing := reading.(writes := map[Y := 5]);
    match k
    case 0 => NewThread
    case 1 => NewThread.(pc := Begun)
    case 2 => STARTED.(pc := Body)
    case 3 => STARTED.(pc := Reading(X, 0, true, false))
    case 4 => reading.(pc := Body)
    case 5 => writing.(pc := Body)
    case 6 => writing.(pc := Locking({Y}))
    case 7 => writing.(pc := LockLoaded({Y}, Y, 0))
    case 8 => writing.(pc := Locking({}))
    case 9 => writing.(pc := Validating({X}), time := 8)
    case 10 => writing.(pc := Validating({}), time := 8)
    case 22 => writing.(pc := Storing({}), time := 8)
    case 23 => writing.(pc := Publishing({Y}, 2), time := 8)
    case _ => writing.(pc := Storing({Y}), time := 8)
  }

  function Writer(k: nat): Thread {
    var started := STARTED.(began := 11);
    var writing := started.(writes := map[X := 7]);
    if k < 12 then NewThread
    else
      match k
      case 12 => started.(pc := Begun, active := OFF_STATE)
      case 13 => started.(pc := Body)
      case 14 => writing.(pc := Body)
      case 15 => writing.(pc := Locking({X}))
      case 16 => writing.(pc := LockLoaded({X}, X, 0))
      case 17 => writing.(pc := Locking({}))
      case 18 => writing.(pc := Validating({}), time := 17)
      case 19 => writing.(pc := Storing({X}), time := 17)
      case 20 => writing.(pc := Storing({}), time := 17)
      case _ => writing.(pc := Publishing({X}, 1), time := 17)
  }

  function StateAt(k: nat): State {
    State(
      if k < 21 then 0 else if k < 23 then 1 else 2,
      map[X := if k < 17 then FREE else Cell(LOCK_BIT, if k < 20 then 0 else 7, Some(B)),
          Y := if k < 8 then FREE else Cell(LOCK_BIT, if k < 22 then 0 else 5, Some(A))],
      {}, map[A := Reader(k), B := Writer(k)], INIT,
      if k < 21 then [] else if k < 23 then [RECORD_B] else [RECORD_B, RECORD_A],
      [], k)
  }

  ghost predicate Follows(k: nat) { Enabled(StateAt(k), Act(k)) && StateAt(k + 1) == Apply(StateAt(k), Act(k)) }

  /** The sets and maps that occur on the way. */
  lemma Collections()
    ensures {} + {X} == {X} && {} + {(X, 0 as Storage)} == {(X, 0)}
    ensures map[][Y := 5 as Storage] == map[Y := 5] && map[][X := 7 as Storage] == map[X := 7]
    ensures map[Y := 5 as Storage].Keys == {Y} && map[X := 7 as Storage].Keys == {X}
    ensures {X} - {Y} == {X} && {Y} - {Y} == {} && {X} - {X} == {} && {} - {X} == {}
  {
  }

  /** A step is right if the acting thread, the cells and the log are. */
  lemma StepIs(s: State, a: Action, s': State)
    requires Enabled(s, a) && !a.CommitQuiet?
    requires s.mem.Keys == s'.mem.Keys == {X, Y} && s.threads.Keys == s'.threads.Keys == {A, B}
    requires s'.heap == s.heap && s'.init == s.init && s'.quiet == s.quiet && s'.now == s.now + 1
    requires NextThread(s, a) == s'.threads[a.t] && s'.threads[1 - a.t] == s.threads[1 - a.t]
    requires NextMem(s, a).Keys == {X, Y} && NextMem(s, a)[X] == s'.mem[X] && NextMem(s, a)[Y] == s'.mem[Y]
    requires s'.log == if a.BumpClock? then s.log + [WriterRec(s, s.threads[a.t])] else s.log
    requires s'.clock == if a.BumpClock? then s.clock + 1 else s.clock
    ensures s' == Apply(s, a)
  {
    assert s.threads[a.t := NextThread(s, a)] == s'.threads;
    assert NextMem(s, a) == s'.mem;
  }

  // One lemma for each stage, because the steps are literal values that one proof for all of them
  // would have to unfold together.

  lemma ReaderReads(k: nat)
    requires k < 5
    ensures Follows(k)
  {
    Collections();
    StepIs(StateAt(k), Act(k), StateAt(k + 1));
  }

  lemma ReaderLocks(k: nat)
    requires 5 <= k < 8
    ensures Follows(k)
  {
    Collections();
    StepIs(StateAt(k), Act(k), StateAt(k + 1));
  }

  lemma ReaderValidates(k: nat)
    requires 8 <= k < 11
    ensures Follows(k)
  {
    Collections();
    StepIs(StateAt(k), Act(k), StateAt(k + 1));
  }

  lemma WriterStarts(k: nat)
    requires 11 <= k < 15
    ensures Follows(k)
  {
    Collections();
    StepIs(StateAt(k), Act(k), StateAt(k + 1));
  }

  lemma WriterLocks(k: nat)
    requires 15 <= k < 18
    ensures Follows(k)
  {
    Collections();
    StepIs(StateAt(k), Act(k), StateAt(k + 1));
  }

  lemma WriterStores(k: nat)
    requires 18 <= k < 20
    ensures Follows(k)
  {
    Collections();
    StepIs(StateAt(k), Act(k), StateAt(k + 1));
  }

  lemma WriterBumps(k: nat)
    requires k == 20
    ensures Follows(k)
  {
    Collections();
    StepIs(StateAt(k), Act(k), StateAt(k + 1));
  }

  lemma ReaderStores(k: nat)
    requires k == 21
    ensures Follows(k)
  {
    Collections();
    StepIs(StateAt(k), Act(k), StateAt(k + 1));
  }

  lemma ReaderBumps(k: nat)
    requires k == 22
    ensures Follows(k)
  {
    Collections();
    StepIs(StateAt(k), Act(k), StateAt(k + 1));
  }

  lemma EveryStep(k: nat)
    requires k < 23
    ensures Follows(k)
  {
    if k < 5 {
      ReaderReads(k);
    } else if k < 8 {
      ReaderLocks(k);
    } else if k < 11 {
      ReaderValidates(k);
    } else if k < 15 {
      WriterStarts(k);
    } else if k < 18 {
      WriterLocks(k);
    } else if k < 20 {
      WriterStores(k);
    } else if k < 21 {
      WriterBumps(k);
    } else if k < 22 {
      ReaderStores(k);
    } else {
      ReaderBumps(k);
    }
  }

  lemma StartsRight()
    ensures Init(StateAt(0))
  {
    assert StateAt(0).mem.Keys == {X, Y} && StateAt(0).threads.Keys == {A, B};
  }

  /** If B's write came first, A would have had to read it. */
  lemma OnlyOrder(order: seq<Rec>)
    requires multiset(order) == multiset([RECORD_B, RECORD_A]) && Legal(INIT, order)
    ensures order == [RECORD_A, RECORD_B]
  {
    assert |order| == |multiset(order)| == 2 && order == [order[0], order[1]];
    assert order[0] in multiset(order) && order[1] in multiset(order);
    assert Latest(INIT, [RECORD_B, RECORD_A], 1, X) == 7;
    assert order != [RECORD_B, RECORD_A];
  }

  /** There is a run after which the log, in version order, is B's commit and then A's, and the
      only serial order with the reads that were made is A's and then B's. */
  lemma VersionsAreNotTheOrder() returns (states: seq<State>, acts: seq<Action>)
    ensures Run(states, acts)
    ensures var s := states[|states| - 1];
      && s.log == [RECORD_B, RECORD_A] && s.quiet == []
      && forall order | multiset(order) == multiset(s.log) && Legal(s.init, order) :: order == [RECORD_A, RECORD_B]
  {
    states := seq(24, k requires 0 <= k < 24 => StateAt(k));
    acts := seq(23, k requires 0 <= k < 23 => Act(k));
    StartsRight();
    forall i | 0 <= i < |acts| ensures StepAt(states, acts, i) {
      EveryStep(i);
    }
    forall order | multiset(order) == multiset([RECORD_B, RECORD_A]) && Legal(INIT, order)
      ensures order == [RECORD_A, RECORD_B]
    {
      OnlyOrder(order);
    }
  }
}
