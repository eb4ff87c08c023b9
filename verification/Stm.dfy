/** The transaction protocol as a state machine: one action is one atomic load,
    store, compare-and-swap or fetch-add on shared memory, together with the
    thread-local work that follows it.  Any number of threads interleave. */
module Stm {
  import opened CommitLog
  import opened Options

  type Tid = nat

  const LOCK_BIT: Epoch := 0x8000_0000_0000_0000
  const OFF_STATE: Epoch := 0xFFFF_FFFF_FFFF_FFFF
  const BUMP_SIZE: Epoch := 1
  const MAX_VERSION: Epoch := LOCK_BIT - 1

  predicate Locked(word: Epoch) { LOCK_BIT <= word }

  function AsLocked(word: Epoch): Epoch { if Locked(word) then word else word + LOCK_BIT }

  // word ^ lock_bit
  function FlipLock(word: Epoch): Epoch { if Locked(word) then word - LOCK_BIT else word + LOCK_BIT }

  /** A transactional variable.  `owner` is bookkeeping for the proof: the thread whose
      compare-and-swap locked the word. */
  datatype Cell = Cell(word: Epoch, storage: Storage, owner: Option<Tid>)

  datatype Kind = ReadWrite | ReadOnly

  /** Where a thread stands.  Loops over the read and write sets carry the entries still
      to be visited and visit them in any order, which includes the order of the code. */
  datatype Pc =
    | Idle
    | Begun                                              // clock read, epoch not yet announced
    | Body                                               // running the user's function
    | Reading(x: Var, s: Storage, tracked: bool, slow: bool)  // storage loaded, version unchecked
    | Rereading(x: Var, tracked: bool)                   // fast read failed, slow path next
    | Writing(x: Var)                                    // fast heap write: replaced storage not loaded
    | WritingSlow(x: Var, cur: Storage)                  // slow heap write: version unchecked
    | WritingAtomic(x: Var)                              // slow atomic write: version unchecked
    | Locking(todo: set<Var>)
    | LockLoaded(todo: set<Var>, x: Var, word: Epoch)
    | Unlocking(todo: set<Var>)
    | UnlockLoaded(todo: set<Var>, x: Var, word: Epoch)
    | Validating(todo: set<Var>)
    | Storing(todo: set<Var>)
    | Publishing(todo: set<Var>, published: Epoch)
    | Succeeding(sync: Epoch)
    | Failing
    | Failed                                             // left the critical section, callbacks pending

  /** A thread.  `readSet`, `writes` and `cur` are the read set, the write set and the storages
      named by the queued success callbacks; `began`, `time`, `seen` and `held` are bookkeeping:
      the step of `get_clock`, the step at which every write was locked, every tracked read
      and every successful read of memory in this attempt. */
  datatype Thread = Thread(
    pc: Pc, kind: Kind, version: Epoch, active: Epoch,
    readSet: set<Var>, writes: map<Var, Storage>, cur: map<Var, Storage>,
    began: nat, time: nat, seen: set<(Var, Storage)>, held: set<(Var, Storage)>)

  /** `log` and `quiet` are bookkeeping: the writing commits in clock order and the commits
      that wrote nothing.  `now` counts steps. */
  datatype State = State(
    clock: Epoch, mem: map<Var, Cell>, heap: set<Var>, threads: map<Tid, Thread>,
    init: Memory, log: seq<Rec>, quiet: seq<Rec>, now: nat)

  const NewThread := Thread(Idle, ReadWrite, 0, OFF_STATE, {}, map[], map[], 0, 0, {}, {})

  ghost predicate Init(s: State) {
    && s.clock == 0 && s.log == [] && s.quiet == []
    && (forall x | x in s.mem :: s.mem[x] == Cell(0, At(s.init, x), None))
    && (forall t | t in s.threads :: s.threads[t] == NewThread)
  }

  // ---------------------------------------------------------------- actions

  datatype Action =
    | Begin(t: Tid, kind: Kind)
    | Announce(t: Tid)
    | Load(t: Tid, x: Var, tracked: bool, slow: bool)
    | CheckRead(t: Tid)
    | Reload(t: Tid)
    | ReadOwn(t: Tid, x: Var)
    | WriteFast(t: Tid, x: Var, s: Storage)
    | WriteFastLoad(t: Tid)
    | WriteSlow(t: Tid, x: Var)
    | WriteSlowCheck(t: Tid, s: Storage)
    | WriteOwn(t: Tid, x: Var)
    | WriteAtomic(t: Tid, x: Var, s: Storage)
    | WriteAtomicCheck(t: Tid)
    | Throw(t: Tid)
    | CommitQuiet(t: Tid)
    | StartCommit(t: Tid)
    | LockLoad(t: Tid, x: Var)
    | LockCas(t: Tid)
    | LocksDone(t: Tid)
    | Validate(t: Tid, x: Var)
    | ReadsValid(t: Tid)
    | StoreOne(t: Tid, x: Var)
    | BumpClock(t: Tid)
    | Publish(t: Tid, x: Var)
    | Published(t: Tid)
    | UnlockLoad(t: Tid, x: Var)
    | UnlockStore(t: Tid)
    | UnlockDone(t: Tid)
    | Leave(t: Tid)
    | GiveUp(t: Tid)

  /** `rw_valid`: a locked word is above every version. */
  predicate Valid(th: Thread, word: Epoch) { word <= th.version }

  predicate InBody(s: State, t: Tid) { t in s.threads && s.threads[t].pc.Body? }

  predicate CanWrite(s: State, t: Tid, x: Var) {
    InBody(s, t) && s.threads[t].kind.ReadWrite? && x in s.mem
  }

  /** The program counter a thread must be at for an action, and the action's arguments. */
  predicate Enabled(s: State, a: Action) {
    a.t in s.threads &&
    var th := s.threads[a.t];
    var pc := th.pc;
    match a
    case Begin(_, _) => pc.Idle? || pc.Failed?
    case Announce(_) => pc.Begun?
    case Load(_, x, tracked, slow) =>
      pc.Body? && x in s.mem && x !in th.writes && (th.kind.ReadOnly? ==> !slow && !tracked)
    case CheckRead(_) => pc.Reading? && pc.x in s.mem
    case Reload(_) => pc.Rereading? && pc.x in s.mem
    case ReadOwn(_, x) => CanWrite(s, a.t, x) && x in th.writes
    case WriteFast(_, x, _) => CanWrite(s, a.t, x) && x !in th.writes && Valid(th, s.mem[x].word)
    case WriteFastLoad(_) => pc.Writing? && pc.x in s.mem
    case WriteSlow(_, x) => CanWrite(s, a.t, x) && x in s.heap && x !in th.writes
    case WriteSlowCheck(_, _) => pc.WritingSlow? && pc.x in s.mem
    case WriteOwn(_, x) => CanWrite(s, a.t, x) && x in s.heap && x in th.writes
    case WriteAtomic(_, x, _) => CanWrite(s, a.t, x) && x !in s.heap
    case WriteAtomicCheck(_) => pc.WritingAtomic? && pc.x in s.mem
    case Throw(_) => pc.Body? || pc.Rereading? || pc.WritingSlow?
    case CommitQuiet(_) => pc.Body? && th.writes == map[]
    case StartCommit(_) => pc.Body? && th.writes != map[]
    case LockLoad(_, x) => pc.Locking? && x in pc.todo && x in s.mem
    case LockCas(_) => pc.LockLoaded? && pc.x in s.mem
    case LocksDone(_) => pc == Locking({})
    case Validate(_, x) => pc.Validating? && x in pc.todo && x in s.mem
    case ReadsValid(_) => pc == Validating({})
    case StoreOne(_, x) => pc.Storing? && x in pc.todo && x in s.mem && x in th.writes
    case BumpClock(_) => pc == Storing({}) && s.clock < MAX_VERSION - BUMP_SIZE
    case Publish(_, x) => pc.Publishing? && x in pc.todo && x in s.mem
    case Published(_) => pc.Publishing? && pc.todo == {}
    case UnlockLoad(_, x) => pc.Unlocking? && x in pc.todo && x in s.mem
    case UnlockStore(_) => pc.UnlockLoaded? && pc.x in s.mem
    case UnlockDone(_) => pc == Unlocking({})
    case Leave(_) => pc.Succeeding? || pc.Failing?
    case GiveUp(_) => pc.Failed?
  }

  /** The new local state of the acting thread. */
  function NextThread(s: State, a: Action): Thread
    requires Enabled(s, a)
  {
    var th := s.threads[a.t];
    var pc := th.pc;
    match a
    case Begin(_, kind) =>
      NewThread.(pc := Begun, kind := kind, version := s.clock, began := s.now)
    case Announce(_) => th.(pc := Body, active := th.version)
    case Load(_, x, tracked, slow) => th.(pc := Reading(x, s.mem[x].storage, tracked, slow))
    case CheckRead(_) =>
      if Valid(th, s.mem[pc.x].word) then
        th.(pc := Body,
            held := th.held + {(pc.x, pc.s)},
            readSet := if pc.tracked then th.readSet + {pc.x} else th.readSet,
            seen := if pc.tracked then th.seen + {(pc.x, pc.s)} else th.seen)
      else if pc.slow || th.kind.ReadOnly? then th.(pc := Failing)
      else th.(pc := Rereading(pc.x, pc.tracked))
    case Reload(_) => th.(pc := Reading(pc.x, s.mem[pc.x].storage, pc.tracked, true))
    case ReadOwn(_, x) => if Valid(th, s.mem[x].word) then th else th.(pc := Failing)
    case WriteFast(_, x, v) =>
      th.(pc := if x in s.heap then Writing(x) else Body, writes := th.writes[x := v])
    case WriteFastLoad(_) => th.(pc := Body, cur := th.cur[pc.x := s.mem[pc.x].storage])
    case WriteSlow(_, x) => th.(pc := WritingSlow(x, s.mem[x].storage))
    case WriteSlowCheck(_, v) =>
      if Valid(th, s.mem[pc.x].word) then
        th.(pc := Body, writes := th.writes[pc.x := v], cur := th.cur[pc.x := pc.cur])
      else th.(pc := Failing)
    case WriteOwn(_, x) => if Valid(th, s.mem[x].word) then th else th.(pc := Failing)
    case WriteAtomic(_, x, v) => th.(pc := WritingAtomic(x), writes := th.writes[x := v])
    case WriteAtomicCheck(_) => th.(pc := if Valid(th, s.mem[pc.x].word) then Body else Failing)
    case Throw(_) => th.(pc := Failing)
    case CommitQuiet(_) => th.(pc := Succeeding(0))
    case StartCommit(_) =>
      th.(pc := Locking(th.writes.Keys), readSet := th.readSet - th.writes.Keys)
    case LockLoad(_, x) =>
      if Valid(th, s.mem[x].word) then th.(pc := LockLoaded(pc.todo, x, s.mem[x].word))
      else th.(pc := Unlocking(th.writes.Keys - pc.todo))
    case LockCas(_) =>
      if s.mem[pc.x].word == pc.word then th.(pc := Locking(pc.todo - {pc.x}))
      else th.(pc := Unlocking(th.writes.Keys - pc.todo))
    case LocksDone(_) => th.(pc := Validating(th.readSet), time := s.now)
    case Validate(_, x) =>
      th.(pc := if Valid(th, s.mem[x].word) then Validating(pc.todo - {x})
                else Unlocking(th.writes.Keys))
    case ReadsValid(_) => th.(pc := Storing(th.writes.Keys))
    case StoreOne(_, x) => th.(pc := Storing(pc.todo - {x}))
    case BumpClock(_) => th.(pc := Publishing(th.writes.Keys, s.clock + BUMP_SIZE))
    case Publish(_, x) => th.(pc := Publishing(pc.todo - {x}, pc.published))
    case Published(_) => th.(pc := Succeeding(if pc.published < BUMP_SIZE then 0 else pc.published - BUMP_SIZE))
    case UnlockLoad(_, x) => th.(pc := UnlockLoaded(pc.todo, x, FlipLock(s.mem[x].word)))
    case UnlockStore(_) => th.(pc := Unlocking(pc.todo - {pc.x}))
    case UnlockDone(_) => th.(pc := Failing)
    case Leave(_) => NewThread.(pc := if pc.Failing? then Failed else Idle)
    case GiveUp(_) => NewThread
  }

  /** The shared cells after the action. */
  function NextMem(s: State, a: Action): map<Var, Cell>
    requires Enabled(s, a)
  {
    var th := s.threads[a.t];
    var pc := th.pc;
    match a
    case LockCas(t) =>
      var c := s.mem[pc.x];
      if c.word == pc.word then s.mem[pc.x := c.(word := AsLocked(pc.word), owner := Some(t))] else s.mem
    case StoreOne(_, x) => s.mem[x := s.mem[x].(storage := th.writes[x])]
    case Publish(_, x) => s.mem[x := s.mem[x].(word := pc.published, owner := None)]
    case UnlockStore(_) => s.mem[pc.x := s.mem[pc.x].(word := pc.word, owner := None)]
    case _ => s.mem
  }

  /** A writer answers for its tracked reads at the step its locks were complete. */
  function WriterRec(s: State, th: Thread): Rec {
    Rec(th.began, th.time, s.now, th.version, true, th.seen, th.writes)
  }

  /** A transaction that wrote nothing answers for every read at the step of its `get_clock`. */
  function QuietRec(s: State, th: Thread): Rec {
    Rec(th.began, th.began, s.now, th.version, false, th.held, map[])
  }

  function Apply(s: State, a: Action): State
    requires Enabled(s, a)
  {
    var th := s.threads[a.t];
    s.(threads := s.threads[a.t := NextThread(s, a)],
       mem := NextMem(s, a),
       clock := if a.BumpClock? then s.clock + BUMP_SIZE else s.clock,
       log := if a.BumpClock? then s.log + [WriterRec(s, th)] else s.log,
       quiet := if a.CommitQuiet? then s.quiet + [QuietRec(s, th)] else s.quiet,
       now := s.now + 1)
  }
}
