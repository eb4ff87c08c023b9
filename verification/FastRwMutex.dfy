/** The reader/writer lock in one word, as a state machine: every atomic operation on the word is
    one step, and any number of threads interleave. */
module FastRwMutex {
  import opened Bits

  type Tid = nat
  type Word = nat

  // low bits count readers, the top bit is set while somebody writes or waits to write
  const WRITE_BIT: Word := 0x8000_0000_0000_0000

  predicate WriteLocked(w: Word) { WRITE_BIT <= w }

  predicate ReadLocked(w: Word) { w % WRITE_BIT != 0 }

  datatype Pc =
    | Out
    | Backing                // counted itself although a writer was there
    | Retrying               // took itself off the count again
    | RetryLoaded(seen: Word)
    | Reading
    | Requesting             // wants to write
    | RequestLoaded(seen: Word)
    | Waiting(seen: Word)    // set the write bit, waits for the readers
    | Writing

  datatype State = State(word: Word, threads: map<Tid, Pc>)

  datatype Action =
    | LockShared(t: Tid)
    | BackOut(t: Tid)
    | RetryLoad(t: Tid)
    | RetryCas(t: Tid, spurious: bool)
    | UnlockShared(t: Tid)
    | Lock(t: Tid, spurious: bool)
    | RequestLoad(t: Tid)
    | RequestCas(t: Tid, spurious: bool)
    | Wait(t: Tid)
    | Unlock(t: Tid)

  ghost predicate Init(s: State) {
    s.word == 0 && |s.threads| < WRITE_BIT && forall t | t in s.threads :: s.threads[t].Out?
  }

  predicate Enabled(s: State, a: Action) {
    a.t in s.threads &&
    var pc := s.threads[a.t];
    match a
    case LockShared(_) => pc.Out?
    case BackOut(_) => pc.Backing? && s.word > 0
    case RetryLoad(_) => pc.Retrying?
    case RetryCas(_, _) => pc.RetryLoaded?
    case UnlockShared(_) => pc.Reading? && s.word > 0
    case Lock(_, _) => pc.Out?
    case RequestLoad(_) => pc.Requesting?
    case RequestCas(_, _) => pc.RequestLoaded?
    case Wait(_) => pc.Waiting?
    case Unlock(_) => pc.Writing?
  }

  /** The word and the thread after the step.  A weak compare-and-swap may fail for no reason. */
  function Next(s: State, a: Action): (Word, Pc)
    requires Enabled(s, a)
  {
    var pc := s.threads[a.t];
    match a
    case LockShared(_) => (s.word + 1, if WriteLocked(s.word) then Backing else Reading)
    case BackOut(_) => (s.word - 1, Retrying)
    case RetryLoad(_) => (s.word, RetryLoaded(s.word))
    case RetryCas(_, spurious) =>
      if !WriteLocked(pc.seen) && s.word == pc.seen && !spurious then (pc.seen + 1, Reading)
      else (s.word, Retrying)
    case UnlockShared(_) => (s.word - 1, Out)
    case Lock(_, spurious) =>
      if s.word == 0 && !spurious then (WRITE_BIT, Writing) else (s.word, Requesting)
    case RequestLoad(_) => (s.word, RequestLoaded(s.word))
    case RequestCas(_, spurious) =>
      if !WriteLocked(pc.seen) && s.word == pc.seen && !spurious then (pc.seen + WRITE_BIT, Waiting(pc.seen))
      else (s.word, Requesting)
    case Wait(_) => (s.word, if ReadLocked(pc.seen) then Waiting(s.word) else Writing)
    case Unlock(_) => (s.word % WRITE_BIT, Out)
  }

  function Apply(s: State, a: Action): State
    requires Enabled(s, a)
  {
    State(Next(s, a).0, s.threads[a.t := Next(s, a).1])
  }

  // ---------------------------------------------------------------- what the word says

  predicate Counted(pc: Pc) { pc.Reading? || pc.Backing? }

  predicate Claims(pc: Pc) { pc.Waiting? || pc.Writing? }

  /** The threads that are inside as readers or about to back out. */
  function Readers(threads: map<Tid, Pc>): set<Tid> { set t | t in threads && Counted(threads[t]) }

  function Claimants(threads: map<Tid, Pc>): set<Tid> { set t | t in threads && Claims(threads[t]) }

  ghost predicate Inv(s: State) {
    && |s.threads| < WRITE_BIT
    && |Claimants(s.threads)| <= 1
    && s.word == |Readers(s.threads)| + WRITE_BIT * |Claimants(s.threads)|
    && Excluded(s)
  }

  /** Past `lock`, or about to find out that it is. */
  predicate Owner(pc: Pc) { pc.Writing? || (pc.Waiting? && !ReadLocked(pc.seen)) }

  ghost predicate Excluded(s: State) {
    forall t, u {:trigger Owner(s.threads[t]), s.threads[u].Reading?} | t in s.threads && u in s.threads ::
      !(Owner(s.threads[t]) && s.threads[u].Reading?)
  }

  lemma FewReaders(threads: map<Tid, Pc>)
    ensures |Readers(threads)| <= |threads|
  {
    Subset(Readers(threads), threads.Keys);
  }

  lemma {:induction false} Subset<T>(a: set<T>, b: set<T>)
    requires a <= b
    ensures |a| <= |b|
  {
    if a != {} {
      var x :| x in a;
      Subset(a - {x}, b - {x});
    }
  }

  lemma CountMoved(a: set<Tid>, b: set<Tid>, t: Tid)
    requires a - {t} == b - {t}
    ensures |b| == |a| + (if t in b then 1 else 0) - (if t in a then 1 else 0)
  {
    var rest := a - {t};
    assert a == if t in a then rest + {t} else rest;
    assert b == if t in b then rest + {t} else rest;
  }

  /** How the two sets change when one thread moves. */
  lemma Moved(threads: map<Tid, Pc>, t: Tid, pc: Pc)
    requires t in threads
    ensures |threads[t := pc]| == |threads|
    ensures |Readers(threads[t := pc])|
         == |Readers(threads)| + (if Counted(pc) then 1 else 0) - (if Counted(threads[t]) then 1 else 0)
    ensures |Claimants(threads[t := pc])|
         == |Claimants(threads)| + (if Claims(pc) then 1 else 0) - (if Claims(threads[t]) then 1 else 0)
  {
    var m := threads[t := pc];
    assert m.Keys == threads.Keys;
    CountMoved(Readers(threads), Readers(m), t);
    CountMoved(Claimants(threads), Claimants(m), t);
  }

  lemma OneClaimant(s: State, t: Tid, u: Tid)
    requires |Claimants(s.threads)| <= 1 && t in s.threads && u in s.threads
    requires Claims(s.threads[t]) && Claims(s.threads[u])
    ensures t == u
  {
    var c := Claimants(s.threads);
    if t != u {
      Subset({t, u}, c);
    }
  }

  lemma Somebody(s: State, t: Tid)
    requires t in s.threads
    ensures Counted(s.threads[t]) ==> |Readers(s.threads)| > 0
    ensures Claims(s.threads[t]) ==> |Claimants(s.threads)| > 0
  {
    if Counted(s.threads[t]) {
      assert t in Readers(s.threads);
    }
    if Claims(s.threads[t]) {
      assert t in Claimants(s.threads);
    }
  }

  /** The two halves of the word. */
  lemma Halves(s: State)
    requires Inv(s)
    ensures |Readers(s.threads)| < WRITE_BIT
    ensures s.word % WRITE_BIT == |Readers(s.threads)|
    ensures WriteLocked(s.word) <==> |Claimants(s.threads)| == 1
    ensures s.word == 0 ==> |Readers(s.threads)| == 0 && |Claimants(s.threads)| == 0
  {
    FewReaders(s.threads);
  }

  ghost predicate Claimed(s: State) { exists u :: u in s.threads && Claims(s.threads[u]) }

  lemma ClaimedIffBit(s: State)
    requires Inv(s)
    ensures Claimed(s) <==> WriteLocked(s.word)
  {
    Halves(s);
    if |Claimants(s.threads)| == 1 {
      var u :| u in Claimants(s.threads);
    }
    forall u | u in s.threads && Claims(s.threads[u]) ensures WriteLocked(s.word) {
      Somebody(s, u);
    }
  }

  lemma KeptCounts(s: State, a: Action)
    requires Inv(s) && Enabled(s, a)
    ensures var s' := Apply(s, a);
      && |s'.threads| < WRITE_BIT && |Claimants(s'.threads)| <= 1
      && s'.word == |Readers(s'.threads)| + WRITE_BIT * |Claimants(s'.threads)|
  {
    Halves(s);
    Moved(s.threads, a.t, Next(s, a).1);
    Somebody(s, a.t);
  }

  /** A thread becomes a reader only while nobody claims the lock, and a claimant learns that it
      owns the lock only from a word that counts no reader. */
  lemma KeptExcluded(s: State, a: Action, t: Tid, u: Tid)
    requires Inv(s) && Enabled(s, a) && t in s.threads && u in s.threads
    ensures var s' := Apply(s, a); !(Owner(s'.threads[t]) && s'.threads[u].Reading?)
  {
    Halves(s);
    Somebody(s, t);
    Somebody(s, u);
    assert !(Owner(s.threads[t]) && s.threads[u].Reading?);
  }

  lemma Kept(s: State, a: Action)
    requires Inv(s) && Enabled(s, a)
    ensures Inv(Apply(s, a))
  {
    KeptCounts(s, a);
    forall t, u | t in s.threads && u in s.threads
      ensures !(Owner(Apply(s, a).threads[t]) && Apply(s, a).threads[u].Reading?)
    {
      KeptExcluded(s, a, t, u);
    }
  }

  // ---------------------------------------------------------------- every run

  ghost predicate StepAt(states: seq<State>, acts: seq<Action>, i: nat)
    requires |states| == |acts| + 1 && i < |acts|
  {
    Enabled(states[i], acts[i]) && states[i + 1] == Apply(states[i], acts[i])
  }

  ghost predicate Run(states: seq<State>, acts: seq<Action>) {
    && |states| == |acts| + 1 && Init(states[0])
    && forall i {:trigger StepAt(states, acts, i)} | 0 <= i < |acts| :: StepAt(states, acts, i)
  }

  lemma {:induction false} RunInv(states: seq<State>, acts: seq<Action>, i: nat)
    requires Run(states, acts) && i < |states|
    ensures Inv(states[i])
  {
    if i == 0 {
      assert Readers(states[0].threads) == {} && Claimants(states[0].threads) == {};
    } else {
      RunInv(states, acts, i - 1);
      assert StepAt(states, acts, i - 1);
      Kept(states[i - 1], acts[i - 1]);
    }
  }

  /** A writer past `lock` excludes every reader and every other writer. */
  lemma Exclusion(states: seq<State>, acts: seq<Action>, i: nat, t: Tid, u: Tid)
    requires Run(states, acts) && i < |states| && t in states[i].threads && u in states[i].threads
    requires states[i].threads[t].Writing? && t != u
    ensures !states[i].threads[u].Reading? && !states[i].threads[u].Writing?
  {
    RunInv(states, acts, i);
    if states[i].threads[u].Writing? {
      OneClaimant(states[i], t, u);
    }
    assert Owner(states[i].threads[t]);
  }

  /** The low bits count the readers inside and those backing out, the top bit tells whether
      somebody claims the lock; what the code asserts when it unlocks holds. */
  lemma WordCounts(states: seq<State>, acts: seq<Action>, i: nat, t: Tid)
    requires Run(states, acts) && i < |states| && t in states[i].threads
    ensures var s := states[i];
      && s.word % WRITE_BIT == |Readers(s.threads)|
      && (WriteLocked(s.word) <==> Claimed(s))
      && (Counted(s.threads[t]) ==> ReadLocked(s.word))
      && (s.threads[t].Writing? ==> WriteLocked(s.word))
      && s.word < 2 * WRITE_BIT
  {
    RunInv(states, acts, i);
    var s := states[i];
    Halves(s);
    Somebody(s, t);
    ClaimedIffBit(s);
  }

  /** When everybody is out the word is 0 again. */
  lemma AllOut(states: seq<State>, acts: seq<Action>, i: nat)
    requires Run(states, acts) && i < |states|
    requires forall t | t in states[i].threads :: !Counted(states[i].threads[t]) && !Claims(states[i].threads[t])
    ensures states[i].word == 0
  {
    RunInv(states, acts, i);
    assert Readers(states[i].threads) == {} && Claimants(states[i].threads) == {};
  }

  /** Once a writer has claimed the lock no thread gets in as a reader: a step that makes a reader
      finds nobody claiming. */
  lemma ClaimStopsReaders(states: seq<State>, acts: seq<Action>, i: nat, t: Tid, u: Tid)
    requires Run(states, acts) && i < |acts| && t in states[i].threads && u in states[i].threads
    requires Claims(states[i].threads[t]) && !states[i].threads[u].Reading?
    ensures u in states[i + 1].threads && !states[i + 1].threads[u].Reading?
  {
    RunInv(states, acts, i);
    assert StepAt(states, acts, i);
    Halves(states[i]);
    Somebody(states[i], t);
  }

  /** A waiting writer that looks twice after the last reader is off the count is in. */
  lemma WriterGetsIn(states: seq<State>, acts: seq<Action>, i: nat, t: Tid)
    requires Run(states, acts) && i < |states| && t in states[i].threads && states[i].threads[t].Waiting?
    requires forall u | u in states[i].threads :: !Counted(states[i].threads[u])
    ensures Enabled(states[i], Wait(t))
    ensures var s := Apply(states[i], Wait(t));
      s.threads[t].Writing? || (Enabled(s, Wait(t)) && Apply(s, Wait(t)).threads[t].Writing?)
  {
    RunInv(states, acts, i);
    Halves(states[i]);
    assert Readers(states[i].threads) == {};
  }

  /** There are runs in which a reader gets in and is in the way of a writer, who waits for it. */
  lemma WriterWaits(t: Tid, u: Tid) returns (states: seq<State>, acts: seq<Action>)
    requires t != u
    ensures Run(states, acts) && |states| == 6
    ensures states[5].threads == map[t := Reading, u := Waiting(WRITE_BIT + 1)] && states[5].word == WRITE_BIT + 1
  {
    acts := [LockShared(t), Lock(u, false), RequestLoad(u), RequestCas(u, false), Wait(u)];
    var threads: map<Tid, Pc> := map[t := Out, u := Out];
    assert threads.Keys == {t, u} && |threads| == |threads.Keys| == 2;
    var s0 := State(0, threads);
    var s1 := Apply(s0, acts[0]);
    var s2 := Apply(s1, acts[1]);
    var s3 := Apply(s2, acts[2]);
    var s4 := Apply(s3, acts[3]);
    states := [s0, s1, s2, s3, s4, Apply(s4, acts[4])];
  }

  // ---------------------------------------------------------------- who gets in, and when

  /** A thread becomes a reader exactly by these steps: the addition of `lock_shared`, or the
      exchange of its slow path on a word that is still what the thread loaded, and both only
      while nobody claims the lock. */
  lemma BecomesReaderIff(states: seq<State>, acts: seq<Action>, i: nat, t: Tid)
    requires Run(states, acts) && i < |acts| && t in states[i].threads && !states[i].threads[t].Reading?
    ensures t in states[i + 1].threads
    ensures states[i + 1].threads[t].Reading? <==>
              && (acts[i] == LockShared(t) || (acts[i] == RetryCas(t, false) && states[i].threads[t].RetryLoaded?
                                               && states[i].threads[t].seen == states[i].word))
              && !Claimed(states[i])
  {
    RunInv(states, acts, i);
    assert StepAt(states, acts, i);
    ClaimedIffBit(states[i]);
  }

  /** A thread begins to claim the lock exactly by these steps: the exchange of `lock` on a word
      that counts nobody, or that of its slow path on a word that is still what the thread loaded. */
  lemma BeginsClaimIff(states: seq<State>, acts: seq<Action>, i: nat, t: Tid)
    requires Run(states, acts) && i < |acts| && t in states[i].threads && !Claims(states[i].threads[t])
    ensures t in states[i + 1].threads
    ensures Claims(states[i + 1].threads[t]) <==>
              && (|| (acts[i] == Lock(t, false) && Readers(states[i].threads) == {})
                  || (acts[i] == RequestCas(t, false) && states[i].threads[t].RequestLoaded?
                      && states[i].threads[t].seen == states[i].word))
              && !Claimed(states[i])
    ensures states[i + 1].threads[t].Writing? ==> acts[i] == Lock(t, false)
  {
    RunInv(states, acts, i);
    assert StepAt(states, acts, i);
    ClaimedIffBit(states[i]);
    Halves(states[i]);
  }

  /** A claimant past its exchange is in exactly when the word it has seen last counts no reader. */
  lemma BecomesWriterIff(states: seq<State>, acts: seq<Action>, i: nat, t: Tid)
    requires Run(states, acts) && i < |acts| && t in states[i].threads && states[i].threads[t].Waiting?
    ensures t in states[i + 1].threads
    ensures states[i + 1].threads[t].Writing? <==> acts[i] == Wait(t) && !ReadLocked(states[i].threads[t].seen)
    ensures !states[i + 1].threads[t].Writing? ==> states[i + 1].threads[t].Waiting?
  {
    assert StepAt(states, acts, i);
  }

  /** A reader that backed out gets in with two steps once nobody claims the lock. */
  lemma ReaderGetsIn(states: seq<State>, acts: seq<Action>, i: nat, t: Tid)
    requires Run(states, acts) && i < |states| && t in states[i].threads && states[i].threads[t].Retrying?
    requires !Claimed(states[i])
    ensures Enabled(states[i], RetryLoad(t))
    ensures var s := Apply(states[i], RetryLoad(t));
      Enabled(s, RetryCas(t, false)) && var s' := Apply(s, RetryCas(t, false));
      && s'.threads == states[i].threads[t := Reading]
      && Readers(s'.threads) == Readers(states[i].threads) + {t} && s'.word == states[i].word + 1
  {
    RunInv(states, acts, i);
    ClaimedIffBit(states[i]);
    var s' := Apply(Apply(states[i], RetryLoad(t)), RetryCas(t, false));
    assert s'.threads == states[i].threads[t := Reading];
  }

  /** A writer that did not get the lock at once claims it with two steps once nobody else does,
      and knows how many readers it then waits for. */
  lemma WriterClaims(states: seq<State>, acts: seq<Action>, i: nat, t: Tid)
    requires Run(states, acts) && i < |states| && t in states[i].threads && states[i].threads[t].Requesting?
    requires !Claimed(states[i])
    ensures Enabled(states[i], RequestLoad(t))
    ensures var s := Apply(states[i], RequestLoad(t));
      Enabled(s, RequestCas(t, false)) && var s' := Apply(s, RequestCas(t, false));
      && s'.threads == states[i].threads[t := Waiting(|Readers(states[i].threads)|)]
      && s'.word == states[i].word + WRITE_BIT
  {
    RunInv(states, acts, i);
    ClaimedIffBit(states[i]);
    Halves(states[i]);
    var s' := Apply(Apply(states[i], RequestLoad(t)), RequestCas(t, false));
    assert s'.threads == states[i].threads[t := s'.threads[t]];
  }

  /** What a thread acts on it has loaded, or put there, itself, in its last step. */
  lemma {:induction false} SeenIsLoaded(states: seq<State>, acts: seq<Action>, i: nat, t: Tid) returns (k: nat)
    requires Run(states, acts) && i < |states| && t in states[i].threads
    requires states[i].threads[t].RetryLoaded? || states[i].threads[t].RequestLoaded? || states[i].threads[t].Waiting?
    ensures k < i && acts[k].t == t && states[k].word == states[i].threads[t].seen
    ensures match states[i].threads[t]
      case RetryLoaded(_) => acts[k].RetryLoad?
      case RequestLoaded(_) => acts[k].RequestLoad?
      case _ => acts[k].Wait? || (acts[k].RequestCas? && !WriteLocked(states[k].word))
    ensures forall m | k < m < i :: acts[m].t != t
  {
    assert StepAt(states, acts, i - 1);
    if acts[i - 1].t == t {
      k := i - 1;
    } else {
      k := SeenIsLoaded(states, acts, i - 1, t);
    }
  }

  /** Nobody is ever blocked: a thread that is not out always has a next step. */
  function NextAct(t: Tid, pc: Pc): Action {
    match pc
    case Out => LockShared(t)
    case Backing => BackOut(t)
    case Retrying => RetryLoad(t)
    case RetryLoaded(_) => RetryCas(t, false)
    case Reading => UnlockShared(t)
    case Requesting => RequestLoad(t)
    case RequestLoaded(_) => RequestCas(t, false)
    case Waiting(_) => Wait(t)
    case Writing => Unlock(t)
  }

  lemma NeverBlocked(states: seq<State>, acts: seq<Action>, i: nat, t: Tid)
    requires Run(states, acts) && i < |states| && t in states[i].threads
    ensures Enabled(states[i], NextAct(t, states[i].threads[t]))
  {
    RunInv(states, acts, i);
    Halves(states[i]);
    Somebody(states[i], t);
  }

  predicate AsReader(pc: Pc) { pc.Backing? || pc.Retrying? || pc.RetryLoaded? || pc.Reading? }

  predicate AsWriter(pc: Pc) { pc.Requesting? || pc.RequestLoaded? || pc.Waiting? || pc.Writing? }

  /** From `lock_shared` to `unlock_shared` a thread is there as a reader, from `lock` to `unlock` as
      a writer, and else it is out. */
  lemma {:induction false} StaysInRole(states: seq<State>, acts: seq<Action>, i: nat, j: nat, t: Tid)
    requires Run(states, acts) && i < j < |states| && acts[i].t == t
    requires forall k | i < k < j && acts[k].t == t ::
               !acts[k].LockShared? && !acts[k].Lock? && !acts[k].UnlockShared? && !acts[k].Unlock?
    ensures t in states[j].threads
    ensures acts[i].LockShared? ==> AsReader(states[j].threads[t])
    ensures acts[i].Lock? ==> AsWriter(states[j].threads[t])
    ensures acts[i].UnlockShared? || acts[i].Unlock? ==> states[j].threads[t].Out?
  {
    assert StepAt(states, acts, j - 1);
    if j > i + 1 {
      StaysInRole(states, acts, i, j - 1, t);
    }
  }

  function BackAct(t: Tid, u: Tid, k: nat): Action {
    match k
    case 0 => Lock(u, false) case 1 => LockShared(t) case 2 => BackOut(t)
    case 3 => Unlock(u) case 4 => RetryLoad(t) case _ => RetryCas(t, false)
  }

  function BackState(t: Tid, u: Tid, k: nat): State {
    match k
    case 0 => State(0, map[t := Out, u := Out])
    case 1 => State(WRITE_BIT, map[t := Out, u := Writing])
    case 2 => State(WRITE_BIT + 1, map[t := Backing, u := Writing])
    case 3 => State(WRITE_BIT, map[t := Retrying, u := Writing])
    case 4 => State(0, map[t := Retrying, u := Out])
    case 5 => State(0, map[t := RetryLoaded(0), u := Out])
    case _ => State(1, map[t := Reading, u := Out])
  }

  lemma BackFollows(t: Tid, u: Tid, k: nat)
    requires t != u && k < 6
    ensures Enabled(BackState(t, u, k), BackAct(t, u, k))
    ensures BackState(t, u, k + 1) == Apply(BackState(t, u, k), BackAct(t, u, k))
  {
  }

  /** There are runs in which a reader finds a writer inside, backs out, and gets in afterwards. */
  lemma ReaderComesBack(t: Tid, u: Tid) returns (states: seq<State>, acts: seq<Action>)
    requires t != u
    ensures Run(states, acts) && |states| == 7
    ensures states[3].threads == map[t := Retrying, u := Writing]
    ensures states[6].threads == map[t := Reading, u := Out] && states[6].word == 1
  {
    states := seq(7, k requires 0 <= k < 7 => BackState(t, u, k));
    acts := seq(6, k requires 0 <= k < 6 => BackAct(t, u, k));
    assert states[0].threads.Keys == {t, u} && |states[0].threads| == |states[0].threads.Keys|;
    forall k | 0 <= k < 6 ensures StepAt(states, acts, k) {
      BackFollows(t, u, k);
    }
  }

  // ---------------------------------------------------------------- the bits themselves

  const READ_MASK: Word := WORDS - 1 - WRITE_BIT

  // the tests of the code
  predicate WriteBitSet(w: Word) { And(w, WRITE_BIT) != 0 }

  predicate ReadBitsSet(w: Word) { And(w, READ_MASK) != 0 }

  /** `Next` in the operations of the code: tests and updates by mask, sums that wrap at 64 bits. */
  function NextBits(s: State, a: Action): (Word, Pc)
    requires Enabled(s, a)
  {
    var pc := s.threads[a.t];
    match a
    case LockShared(_) => (ToWord(s.word + 1), if WriteBitSet(s.word) then Backing else Reading)
    case BackOut(_) => (ToWord(s.word - 1), Retrying)
    case RetryLoad(_) => (s.word, RetryLoaded(s.word))
    case RetryCas(_, spurious) =>
      if !WriteBitSet(pc.seen) && s.word == pc.seen && !spurious then (ToWord(pc.seen + 1), Reading)
      else (s.word, Retrying)
    case UnlockShared(_) => (ToWord(s.word - 1), Out)
    case Lock(_, spurious) =>
      if s.word == 0 && !spurious then (WRITE_BIT, Writing) else (s.word, Requesting)
    case RequestLoad(_) => (s.word, RequestLoaded(s.word))
    case RequestCas(_, spurious) =>
      if !WriteBitSet(pc.seen) && s.word == pc.seen && !spurious then (Or(pc.seen, WRITE_BIT), Waiting(pc.seen))
      else (s.word, Requesting)
    case Wait(_) => (s.word, if ReadBitsSet(pc.seen) then Waiting(s.word) else Writing)
    case Unlock(_) => (And(s.word, READ_MASK), Out)
  }

  predicate Fits(w: Word) { w < 2 * WRITE_BIT }

  lemma WriteTest(w: Word)
    requires Fits(w)
    ensures WriteBitSet(w) <==> WriteLocked(w)
  {
    WordsArePowers();
    TopBitIsCompare(w, WRITE_BIT);
  }

  lemma ReadPart(w: Word)
    ensures And(w, READ_MASK) == w % WRITE_BIT
  {
    WordsArePowers();
    MaskIsRemainder(w, WRITE_BIT);
  }

  lemma WriteBitAdded(w: Word)
    requires w < WRITE_BIT
    ensures Or(w, WRITE_BIT) == w + WRITE_BIT
  {
    WordsArePowers();
    SettingAdds(w, WRITE_BIT);
  }

  /** What a thread has seen was once the word. */
  predicate SeenFits(pc: Pc) {
    pc.RetryLoaded? || pc.RequestLoaded? || pc.Waiting? ==> Fits(pc.seen)
  }

  lemma {:induction false} SeenOnce(states: seq<State>, acts: seq<Action>, i: nat, t: Tid)
    requires Run(states, acts) && i < |states| && t in states[i].threads
    ensures SeenFits(states[i].threads[t])
  {
    if i > 0 {
      assert StepAt(states, acts, i - 1);
      SeenOnce(states, acts, i - 1, t);
      WordCounts(states, acts, i - 1, t);
    }
  }

  /** One more reader never reaches the top bit, and nobody takes off what was not counted. */
  lemma RoomForOne(s: State, t: Tid)
    requires Inv(s) && t in s.threads
    ensures Fits(s.word)
    ensures !Counted(s.threads[t]) ==> |Readers(s.threads)| + 1 < WRITE_BIT && Fits(s.word + 1)
    ensures Counted(s.threads[t]) ==> s.word > 0
  {
    Halves(s);
    Somebody(s, t);
    if !Counted(s.threads[t]) {
      Subset(Readers(s.threads) + {t}, s.threads.Keys);
    }
  }

  /** At every step of every run the masks, the set bit and the sums of a 64-bit word do what
      `Next` does with numbers: nothing wraps, and setting and clearing the bit touch no count. */
  lemma WordStepsAreSteps(states: seq<State>, acts: seq<Action>, i: nat)
    requires Run(states, acts) && i < |acts| && StepAt(states, acts, i)
    ensures NextBits(states[i], acts[i]) == Next(states[i], acts[i])
  {
    var s, a := states[i], acts[i];
    RunInv(states, acts, i);
    RoomForOne(s, a.t);
    SeenOnce(states, acts, i, a.t);
    StepIsWordStep(s, a);
  }

  lemma StepIsWordStep(s: State, a: Action)
    requires Enabled(s, a) && Fits(s.word) && SeenFits(s.threads[a.t])
    requires !Counted(s.threads[a.t]) ==> Fits(s.word + 1)
    ensures NextBits(s, a) == Next(s, a)
  {
    var pc := s.threads[a.t];
    match a {
      case LockShared(_) => WriteTest(s.word);
      case RetryCas(_, _) => WriteTest(pc.seen);
      case RequestCas(_, _) => RequestIsWordStep(s, a);
      case Wait(_) => ReadPart(pc.seen);
      case Unlock(_) => ReadPart(s.word);
      case _ =>
    }
  }

  lemma RequestIsWordStep(s: State, a: Action)
    requires Enabled(s, a) && a.RequestCas? && Fits(s.threads[a.t].seen)
    ensures NextBits(s, a) == Next(s, a)
  {
    var seen := s.threads[a.t].seen;
    WriteTest(seen);
    if !WriteLocked(seen) {
      WriteBitAdded(seen);
    }
  }
}
