/** The list of nodes that the grace-period scan walks, and the distributed lock that guards it:
    a scanning thread takes only its own node's mutex, shared; a thread that registers or
    unregisters takes every mutex, exclusively.  Threads and their nodes share a name, and a
    mutex is taken in one step when it is free. */
module NodeList {
  import opened Options
  import PodVector

  type Tid = nat

  datatype Mutex = Mutex(writer: Option<Tid>, reading: bool)

  const FREE := Mutex(None, false)

  /** `adding` tells a constructor from a destructor.  `i` is the loop's position in the list. */
  datatype Pc =
    | Absent                          // node not constructed, or destroyed
    | OwnLocked                       // constructor: own mutex taken
    | Idle                            // registered
    | Scanning(i: nat)
    | LockingAll(adding: bool, i: nat)
    | UnlockingAll(adding: bool, i: nat)
    | LastUnlock                      // destructor: own mutex still taken

  datatype State = State(global: Option<Tid>, nodes: seq<Tid>, mutexes: map<Tid, Mutex>, threads: map<Tid, Pc>)

  datatype Action =
    | LockOwn(t: Tid)
    | LockGlobal(t: Tid)
    | LockNode(t: Tid)
    | Change(t: Tid)
    | UnlockNode(t: Tid)
    | UnlockGlobal(t: Tid)
    | UnlockOwn(t: Tid)
    | StartScan(t: Tid)
    | Visit(t: Tid)
    | EndScan(t: Tid)

  ghost predicate Init(s: State) {
    && s.global == None && s.nodes == [] && s.mutexes.Keys == s.threads.Keys
    && (forall t | t in s.threads :: s.threads[t] == Absent && s.mutexes[t] == FREE)
  }

  predicate Enabled(s: State, a: Action) {
    a.t in s.threads && a.t in s.mutexes &&
    var pc := s.threads[a.t];
    match a
    case LockOwn(t) => pc.Absent? && s.mutexes[t] == FREE
    case LockGlobal(_) => (pc.OwnLocked? || pc.Idle?) && s.global == None
    case LockNode(_) =>
      pc.LockingAll? && pc.i < |s.nodes| && s.nodes[pc.i] in s.mutexes && s.mutexes[s.nodes[pc.i]] == FREE
    case Change(_) => pc.LockingAll? && pc.i >= |s.nodes|
    case UnlockNode(_) => pc.UnlockingAll? && pc.i < |s.nodes| && s.nodes[pc.i] in s.mutexes
    case UnlockGlobal(_) => pc.UnlockingAll? && pc.i >= |s.nodes|
    case UnlockOwn(_) => pc.LastUnlock?
    case StartScan(t) => pc.Idle? && s.mutexes[t].writer == None
    case Visit(_) => pc.Scanning? && pc.i < |s.nodes|
    case EndScan(_) => pc.Scanning? && pc.i >= |s.nodes|
  }

  /** Where the destructor's search stops. */
  function IndexOf(nodes: seq<Tid>, t: Tid): (k: nat)
    requires t in nodes
    ensures k < |nodes| && nodes[k] == t
  {
    if nodes[0] == t then 0 else IndexOf(nodes[1..], t) + 1
  }

  /** Searches the node and erases it; without it nothing happens. */
  function UnorderedErase(nodes: seq<Tid>, t: Tid): seq<Tid> {
    if t in nodes then PodVector.Erased(nodes, IndexOf(nodes, t)) else nodes
  }

  function NextPc(s: State, a: Action): Pc
    requires Enabled(s, a)
  {
    var pc := s.threads[a.t];
    match a
    case LockOwn(_) => OwnLocked
    case LockGlobal(_) => LockingAll(pc.OwnLocked?, 0)
    case LockNode(_) => LockingAll(pc.adding, pc.i + 1)
    case Change(_) => UnlockingAll(pc.adding, 0)
    case UnlockNode(_) => UnlockingAll(pc.adding, pc.i + 1)
    case UnlockGlobal(_) => if pc.adding then Idle else LastUnlock
    case UnlockOwn(_) => Absent
    case StartScan(_) => Scanning(0)
    case Visit(_) => Scanning(pc.i + 1)
    case EndScan(_) => Idle
  }

  function NextMutexes(s: State, a: Action): map<Tid, Mutex>
    requires Enabled(s, a)
  {
    var pc := s.threads[a.t];
    match a
    case LockOwn(t) => s.mutexes[t := Mutex(Some(t), false)]
    case LockNode(t) => s.mutexes[s.nodes[pc.i] := Mutex(Some(t), false)]
    case UnlockNode(_) => s.mutexes[s.nodes[pc.i] := s.mutexes[s.nodes[pc.i]].(writer := None)]
    case UnlockOwn(t) => s.mutexes[t := s.mutexes[t].(writer := None)]
    case StartScan(t) => s.mutexes[t := Mutex(None, true)]
    case EndScan(t) => s.mutexes[t := s.mutexes[t].(reading := false)]
    case _ => s.mutexes
  }

  function Apply(s: State, a: Action): State
    requires Enabled(s, a)
  {
    State(
      match a { case LockGlobal(t) => Some(t) case UnlockGlobal(_) => None case _ => s.global },
      if !a.Change? then s.nodes
      else if s.threads[a.t].adding then s.nodes + [a.t] else UnorderedErase(s.nodes, a.t),
      NextMutexes(s, a),
      s.threads[a.t := NextPc(s, a)])
  }

  // ---------------------------------------------------------------- invariant

  predicate Registered(pc: Pc) {
    match pc
    case Idle => true
    case Scanning(_) => true
    case LockingAll(adding, _) => !adding
    case UnlockingAll(adding, _) => adding
    case _ => false
  }

  /** `u` is one of the entries from `lo` up to `hi`. */
  ghost predicate Among(nodes: seq<Tid>, lo: nat, hi: nat, u: Tid) {
    exists k :: lo <= k < hi && k < |nodes| && nodes[k] == u
  }

  /** The mutexes a thread holds exclusively, said from where it stands. */
  ghost predicate Owns(s: State, t: Tid, u: Tid)
    requires t in s.threads
  {
    match s.threads[t]
    case OwnLocked => u == t
    case LockingAll(adding, i) => (adding && u == t) || Among(s.nodes, 0, i, u)
    case UnlockingAll(adding, i) => (!adding && u == t) || Among(s.nodes, i, |s.nodes|, u)
    case LastUnlock => u == t
    case _ => false
  }

  ghost predicate NodesInv(s: State) {
    && s.mutexes.Keys == s.threads.Keys
    && (forall j, k | 0 <= j < k < |s.nodes| :: s.nodes[j] != s.nodes[k])
    && (forall k | 0 <= k < |s.nodes| :: s.nodes[k] in s.threads && Registered(s.threads[s.nodes[k]]))
    && (forall t | t in s.threads && Registered(s.threads[t]) :: t in s.nodes)
  }

  ghost predicate OwnersInv(s: State) {
    && (forall t | t in s.threads :: s.global == Some(t) <==> s.threads[t].LockingAll? || s.threads[t].UnlockingAll?)
    && (forall t | t in s.threads && (s.threads[t].LockingAll? || s.threads[t].UnlockingAll?) ::
          s.threads[t].i <= |s.nodes|)
    && (forall t, u {:trigger Owns(s, t, u)} | t in s.threads && u in s.mutexes ::
          Owns(s, t, u) <==> s.mutexes[u].writer == Some(t))
    && (forall u {:trigger s.mutexes[u]} | u in s.mutexes && u in s.threads ::
          && (s.mutexes[u].reading <==> s.threads[u].Scanning?)
          && (s.mutexes[u].reading ==> s.mutexes[u].writer == None)
          && (s.mutexes[u].writer.Some? ==> s.mutexes[u].writer.value in s.threads))
  }

  ghost predicate Inv(s: State) { NodesInv(s) && OwnersInv(s) }

  /** The thread about to change the list holds the mutex of every node, so nobody scans. */
  lemma ChangerIsAlone(s: State, t: Tid, u: Tid)
    requires Inv(s) && Enabled(s, Change(t)) && u in s.threads
    ensures !s.threads[u].Scanning?
  {
    if s.threads[u].Scanning? {
      var k :| 0 <= k < |s.nodes| && s.nodes[k] == u;
      assert Owns(s, t, u);
    }
  }

  // ---------------------------------------------------------------- every step keeps it

  lemma ErasedNodes(nodes: seq<Tid>, t: Tid)
    requires forall j, k | 0 <= j < k < |nodes| :: nodes[j] != nodes[k]
    requires t in nodes
    ensures var rest := UnorderedErase(nodes, t);
      && |rest| == |nodes| - 1 && t !in rest
      && (forall j, k | 0 <= j < k < |rest| :: rest[j] != rest[k])
      && (forall u :: u in rest <==> u in nodes && u != t)
  {
    var rest, m := UnorderedErase(nodes, t), IndexOf(nodes, t);
    forall u | u in nodes && u != t ensures u in rest {
      var k :| 0 <= k < |nodes| && nodes[k] == u;
      assert rest[if k == |nodes| - 1 then m else k] == u;
    }
  }

  lemma ChangeRegisters(s: State, a: Action)
    requires Enabled(s, a)
    ensures Registered(NextPc(s, a)) <==> if a.Change? then s.threads[a.t].adding else Registered(s.threads[a.t])
  {
  }

  lemma AddedNodes(s: State, a: Action)
    requires Inv(s) && Enabled(s, a) && a.Change? && s.threads[a.t].adding
    ensures NodesInv(Apply(s, a))
  {
    ChangeRegisters(s, a);
  }

  lemma RemovedNodes(s: State, a: Action)
    requires Inv(s) && Enabled(s, a) && a.Change? && !s.threads[a.t].adding
    ensures NodesInv(Apply(s, a))
  {
    ChangeRegisters(s, a);
    ErasedNodes(s.nodes, a.t);
    var s' := Apply(s, a);
    forall k | 0 <= k < |s'.nodes| ensures s'.nodes[k] in s'.threads && Registered(s'.threads[s'.nodes[k]]) {
      assert s'.nodes[k] in s'.nodes;
    }
  }

  lemma SameNodes(s: State, a: Action)
    requires NodesInv(s) && Enabled(s, a) && !a.Change?
    requires a.LockNode? || a.UnlockNode? ==> s.nodes[s.threads[a.t].i] in s.mutexes
    ensures NodesInv(Apply(s, a))
  {
    ChangeRegisters(s, a);
  }

  lemma NodesKept(s: State, a: Action)
    requires Inv(s) && Enabled(s, a)
    ensures NodesInv(Apply(s, a))
  {
    if !a.Change? {
      SameNodes(s, a);
    } else if s.threads[a.t].adding {
      AddedNodes(s, a);
    } else {
      RemovedNodes(s, a);
    }
  }

  lemma GlobalKept(s: State, a: Action, t: Tid)
    requires Inv(s) && Enabled(s, a) && t in s.threads
    ensures var s' := Apply(s, a);
      && (s'.global == Some(t) <==> s'.threads[t].LockingAll? || s'.threads[t].UnlockingAll?)
      && (s'.threads[t].LockingAll? || s'.threads[t].UnlockingAll? ==> s'.threads[t].i <= |s'.nodes|)
  {
    assert s.global == Some(t) <==> s.threads[t].LockingAll? || s.threads[t].UnlockingAll?;
    assert s.global == Some(a.t) <==> s.threads[a.t].LockingAll? || s.threads[a.t].UnlockingAll?;
  }

  /** The holder of the global lock is the only thread in one of the two loops. */
  lemma OneLooper(s: State, t: Tid, u: Tid)
    requires Inv(s) && t in s.threads && u in s.threads
    requires s.threads[t].LockingAll? || s.threads[t].UnlockingAll?
    requires s.threads[u].LockingAll? || s.threads[u].UnlockingAll?
    ensures t == u
  {
    assert s.global == Some(t) && s.global == Some(u);
  }

  /** Nobody else is touched by a change of the list: only loopers look at it. */
  lemma OtherOwns(s: State, a: Action, t: Tid, u: Tid)
    requires Inv(s) && Enabled(s, a) && t in s.threads && t != a.t
    ensures Owns(Apply(s, a), t, u) <==> Owns(s, t, u)
  {
    if a.Change? && (s.threads[t].LockingAll? || s.threads[t].UnlockingAll?) {
      OneLooper(s, a.t, t);
    }
  }

  lemma ChangedOwns(s: State, a: Action, u: Tid)
    requires Inv(s) && Enabled(s, a) && a.Change?
    ensures Owns(Apply(s, a), a.t, u) <==> Owns(s, a.t, u)
  {
    assert s.threads[a.t].i == |s.nodes|;
    OwnsBefore(s, a, u);
    OwnsAfter(s, a, u);
    if !s.threads[a.t].adding {
      ErasedNodes(s.nodes, a.t);
    }
  }

  lemma OwnsBefore(s: State, a: Action, u: Tid)
    requires Enabled(s, a) && a.Change? && s.threads[a.t].i == |s.nodes|
    ensures Owns(s, a.t, u) <==> (s.threads[a.t].adding && u == a.t) || u in s.nodes
  {
    AmongAll(s.nodes, u);
  }

  lemma OwnsAfter(s: State, a: Action, u: Tid)
    requires Enabled(s, a) && a.Change?
    ensures Owns(Apply(s, a), a.t, u) <==> (!s.threads[a.t].adding && u == a.t) || u in Apply(s, a).nodes
  {
    AmongAll(Apply(s, a).nodes, u);
  }

  lemma AmongFirst(nodes: seq<Tid>, lo: nat, hi: nat, u: Tid)
    requires lo < hi <= |nodes|
    requires forall j, k | 0 <= j < k < |nodes| :: nodes[j] != nodes[k]
    ensures Among(nodes, lo + 1, hi, u) <==> Among(nodes, lo, hi, u) && u != nodes[lo]
  {
    if Among(nodes, lo, hi, u) && u != nodes[lo] {
      var k :| lo <= k < hi && nodes[k] == u;
      assert lo + 1 <= k;
    }
  }

  lemma AmongLast(nodes: seq<Tid>, lo: nat, hi: nat, u: Tid)
    requires lo <= hi < |nodes|
    ensures Among(nodes, lo, hi + 1, u) <==> Among(nodes, lo, hi, u) || u == nodes[hi]
  {
    if Among(nodes, lo, hi + 1, u) && u != nodes[hi] {
      var k :| lo <= k < hi + 1 && nodes[k] == u;
      assert k < hi;
    }
    assert u == nodes[hi] ==> lo <= hi < hi + 1 && nodes[hi] == u;
  }

  lemma AmongAll(nodes: seq<Tid>, u: Tid)
    ensures Among(nodes, 0, |nodes|, u) <==> u in nodes
  {
  }

  lemma LockNodeOwns(s: State, a: Action, u: Tid)
    requires Enabled(s, a) && a.LockNode?
    ensures Owns(Apply(s, a), a.t, u) <==> Owns(s, a.t, u) || u == s.nodes[s.threads[a.t].i]
  {
    AmongLast(s.nodes, 0, s.threads[a.t].i, u);
  }

  lemma UnlockNodeOwns(s: State, a: Action, u: Tid)
    requires Inv(s) && Enabled(s, a) && a.UnlockNode?
    ensures Owns(Apply(s, a), a.t, u) <==> Owns(s, a.t, u) && u != s.nodes[s.threads[a.t].i]
  {
    var pc := s.threads[a.t];
    AmongFirst(s.nodes, pc.i, |s.nodes|, u);
    assert !pc.adding ==> a.t !in s.nodes;
  }

  lemma SameOwns(s: State, a: Action, u: Tid)
    requires Inv(s) && Enabled(s, a) && !a.Change? && !a.LockNode? && !a.UnlockNode?
    ensures Owns(Apply(s, a), a.t, u) <==>
              if a.LockOwn? then u == a.t else Owns(s, a.t, u) && !a.UnlockOwn?
  {
    assert !a.LockNode? && !a.UnlockNode?;
  }

  lemma OwnsKept(s: State, a: Action, t: Tid, u: Tid)
    requires Inv(s) && Enabled(s, a) && t in s.threads && u in s.mutexes
    ensures Owns(Apply(s, a), t, u) <==> Apply(s, a).mutexes[u].writer == Some(t)
  {
    assert Owns(s, t, u) <==> s.mutexes[u].writer == Some(t);
    if t != a.t {
      OtherOwns(s, a, t, u);
      assert Owns(s, a.t, u) <==> s.mutexes[u].writer == Some(a.t);
      if a.UnlockNode? {
        assert Owns(s, a.t, s.nodes[s.threads[a.t].i]);
      } else if a.UnlockOwn? {
        assert Owns(s, a.t, a.t);
      }
    } else if a.Change? {
      ChangedOwns(s, a, u);
    } else {
      if a.LockNode? {
        LockNodeOwns(s, a, u);
      } else if a.UnlockNode? {
        UnlockNodeOwns(s, a, u);
      } else {
        SameOwns(s, a, u);
        assert a.UnlockOwn? ==> (Owns(s, t, u) <==> u == t);
      }
    }
  }

  lemma MutexKept(s: State, a: Action, u: Tid)
    requires Inv(s) && Enabled(s, a) && u in s.mutexes && u in s.threads
    ensures var s' := Apply(s, a);
      && (s'.mutexes[u].reading <==> s'.threads[u].Scanning?)
      && (s'.mutexes[u].reading ==> s'.mutexes[u].writer == None)
      && (s'.mutexes[u].writer.Some? ==> s'.mutexes[u].writer.value in s'.threads)
  {
    assert s.mutexes[u].reading <==> s.threads[u].Scanning?;
    if a.UnlockNode? {
      assert Owns(s, a.t, s.nodes[s.threads[a.t].i]);
    }
  }

  lemma InvKept(s: State, a: Action)
    requires Inv(s) && Enabled(s, a)
    ensures Inv(Apply(s, a))
  {
    var s' := Apply(s, a);
    NodesKept(s, a);
    forall t | t in s'.threads
      ensures s'.global == Some(t) <==> s'.threads[t].LockingAll? || s'.threads[t].UnlockingAll?
      ensures s'.threads[t].LockingAll? || s'.threads[t].UnlockingAll? ==> s'.threads[t].i <= |s'.nodes|
    {
      GlobalKept(s, a, t);
    }
    forall t, u | t in s'.threads && u in s'.mutexes
      ensures Owns(s', t, u) <==> s'.mutexes[u].writer == Some(t)
    {
      OwnsKept(s, a, t, u);
    }
    forall u | u in s'.mutexes && u in s'.threads
      ensures s'.mutexes[u].reading <==> s'.threads[u].Scanning?
      ensures s'.mutexes[u].reading ==> s'.mutexes[u].writer == None
      ensures s'.mutexes[u].writer.Some? ==> s'.mutexes[u].writer.value in s'.threads
    {
      MutexKept(s, a, u);
    }
  }

  lemma ScannedListStays(s: State, a: Action, t: Tid)
    requires Inv(s) && Enabled(s, a) && t in s.threads && s.threads[t].Scanning?
    ensures Apply(s, a).nodes == s.nodes
  {
    if a.Change? {
      ChangerIsAlone(s, a.t, t);
    }
  }

  // ---------------------------------------------------------------- every run

  ghost predicate StepAt(states: seq<State>, acts: seq<Action>, i: nat)
    requires |states| == |acts| + 1 && i < |acts|
  {
    Enabled(states[i], acts[i]) && states[i + 1] == Apply(states[i], acts[i])
  }

  ghost predicate Run(states: seq<State>, acts: seq<Action>) {
    && |states| == |acts| + 1 && Init(states[0])
    && forall i {:trigger StepAt(states, acts, i)} | 0 <= i < |acts| :: StepAt(states, acts, i)
  }

  lemma {:induction false} RunInv(states: seq<State>, acts: seq<Action>, i: nat)
    requires Run(states, acts) && i < |states|
    ensures Inv(states[i])
  {
    if i > 0 {
      RunInv(states, acts, i - 1);
      assert StepAt(states, acts, i - 1);
      InvKept(states[i - 1], acts[i - 1]);
    }
  }

  /** The list does not change while anybody scans it. */
  lemma {:induction false} ScanSeesStableList(states: seq<State>, acts: seq<Action>, i: nat, j: nat, t: Tid)
    requires Run(states, acts) && i <= j < |states| && t in states[i].threads
    requires forall k | i <= k < j :: t in states[k].threads && states[k].threads[t].Scanning?
    ensures states[j].nodes == states[i].nodes
  {
    if i < j {
      ScanSeesStableList(states, acts, i, j - 1, t);
      RunInv(states, acts, j - 1);
      assert StepAt(states, acts, j - 1);
      ScannedListStays(states[j - 1], acts[j - 1], t);
    }
  }

  /** A mutex is locked exclusively only while it is free and unlocked only by the thread that
      holds it, so every lock is released exactly once although the list changes in between. */
  lemma ReleasedByHolder(states: seq<State>, acts: seq<Action>, i: nat)
    requires Run(states, acts) && i < |acts| && StepAt(states, acts, i)
    ensures var s, t := states[i], acts[i].t;
      && (acts[i].UnlockNode? ==> s.mutexes[s.nodes[s.threads[t].i]].writer == Some(t))
      && (acts[i].UnlockOwn? ==> s.mutexes[t].writer == Some(t))
  {
    RunInv(states, acts, i);
    var s, t := states[i], acts[i].t;
    if acts[i].UnlockNode? {
      assert Owns(s, t, s.nodes[s.threads[t].i]);
    } else if acts[i].UnlockOwn? {
      assert Owns(s, t, t);
    }
  }

  /** A thread that is through with registering or unregistering holds nothing exclusively. */
  lemma NothingLeftLocked(states: seq<State>, acts: seq<Action>, i: nat, t: Tid, u: Tid)
    requires Run(states, acts) && i < |states| && t in states[i].threads && u in states[i].mutexes
    requires states[i].threads[t].Idle? || states[i].threads[t].Absent? || states[i].threads[t].Scanning?
    ensures states[i].mutexes[u].writer != Some(t) && states[i].global != Some(t)
  {
    RunInv(states, acts, i);
    assert !Owns(states[i], t, u);
  }

  /** The list holds exactly the registered nodes, each once. */
  lemma ListIsRegistered(states: seq<State>, acts: seq<Action>, i: nat, t: Tid)
    requires Run(states, acts) && i < |states|
    ensures t in states[i].nodes <==> t in states[i].threads && Registered(states[i].threads[t])
    ensures forall j, k | 0 <= j < k < |states[i].nodes| :: states[i].nodes[j] != states[i].nodes[k]
  {
    RunInv(states, acts, i);
  }

  // ---------------------------------------------------------------- what a scan looks at

  /** `t` has started a scan at `i` and not finished it before `j`. */
  ghost predicate ScansFrom(states: seq<State>, acts: seq<Action>, i: nat, j: nat, t: Tid) {
    && Run(states, acts) && i < j < |states| && acts[i] == StartScan(t)
    && forall k | i < k < j :: acts[k] != EndScan(t)
  }

  /** In step `k` `t` looks at `u`. */
  ghost predicate LooksAt(states: seq<State>, acts: seq<Action>, k: nat, t: Tid, u: Tid)
    requires |states| == |acts| + 1 && k < |acts|
  {
    && acts[k] == Visit(t) && t in states[k].threads && states[k].threads[t].Scanning?
    && states[k].threads[t].i < |states[k].nodes| && states[k].nodes[states[k].threads[t].i] == u
  }

  lemma ScanStep(s: State, a: Action, t: Tid)
    requires Enabled(s, a) && t in s.threads && s.threads[t].Scanning? && a != EndScan(t)
    ensures t in Apply(s, a).threads
    ensures Apply(s, a).threads[t] == if a == Visit(t) then Scanning(s.threads[t].i + 1) else s.threads[t]
    ensures a == Visit(t) ==> s.threads[t].i < |s.nodes|
  {
  }

  /** Where the loop stands, in the list as it was when the scan began. */
  lemma {:induction false} StillScanning(states: seq<State>, acts: seq<Action>, i: nat, j: nat, t: Tid)
    requires ScansFrom(states, acts, i, j, t)
    ensures t in states[j].threads && states[j].threads[t].Scanning?
    ensures states[j].threads[t].i <= |states[j].nodes| && states[j].nodes == states[i].nodes
    ensures j == i + 1 ==> states[j].threads[t].i == 0
  {
    assert StepAt(states, acts, j - 1);
    if j > i + 1 {
      StillScanning(states, acts, i, j - 1, t);
      RunInv(states, acts, j - 1);
      ScannedListStays(states[j - 1], acts[j - 1], t);
      ScanStep(states[j - 1], acts[j - 1], t);
    }
  }

  lemma {:induction false} PositionGrows(states: seq<State>, acts: seq<Action>, i: nat, k: nat, j: nat, t: Tid)
    requires ScansFrom(states, acts, i, j, t) && i < k <= j
    ensures t in states[k].threads && states[k].threads[t].Scanning?
    ensures t in states[j].threads && states[j].threads[t].Scanning?
    ensures states[k].threads[t].i + (if k < j && acts[k] == Visit(t) then 1 else 0) <= states[j].threads[t].i
  {
    StillScanning(states, acts, i, k, t);
    if k < j {
      PositionGrows(states, acts, i, k, j - 1, t);
      assert StepAt(states, acts, j - 1);
      ScanStep(states[j - 1], acts[j - 1], t);
    }
  }

  /** Every entry before the loop's position has been looked at. */
  lemma {:induction false} LookedAt(states: seq<State>, acts: seq<Action>, i: nat, j: nat, t: Tid, q: nat)
    returns (k: nat)
    requires ScansFrom(states, acts, i, j, t)
    requires t in states[j].threads && states[j].threads[t].Scanning? && q < states[j].threads[t].i
    ensures i < k < j && acts[k] == Visit(t) && t in states[k].threads && states[k].threads[t] == Scanning(q)
  {
    StillScanning(states, acts, i, j, t);
    StillScanning(states, acts, i, j - 1 + (if j == i + 1 then 1 else 0), t);
    assert StepAt(states, acts, j - 1);
    ScanStep(states[j - 1], acts[j - 1], t);
    if q < states[j - 1].threads[t].i {
      k := LookedAt(states, acts, i, j - 1, t, q);
    } else {
      k := j - 1;
    }
  }

  /** A scan that ends has looked at every node of the list, at each in exactly one step. */
  lemma ScanVisitsAll(states: seq<State>, acts: seq<Action>, i: nat, j: nat, t: Tid, u: Tid) returns (k: nat)
    requires ScansFrom(states, acts, i, j, t) && j < |acts| && acts[j] == EndScan(t)
    requires u in states[j].nodes
    ensures i < k < j && LooksAt(states, acts, k, t, u)
    ensures forall m | i < m < j && LooksAt(states, acts, m, t, u) :: m == k
  {
    StillScanning(states, acts, i, j, t);
    assert StepAt(states, acts, j);
    RunInv(states, acts, j);
    var q :| 0 <= q < |states[j].nodes| && states[j].nodes[q] == u;
    k := LookedAt(states, acts, i, j, t, q);
    StillScanning(states, acts, i, k, t);
    forall m | i < m < j && LooksAt(states, acts, m, t, u) ensures m == k {
      StillScanning(states, acts, i, m, t);
      assert states[m].threads[t].i == q;
      if m < k {
        PositionGrows(states, acts, i, m, k, t);
      } else if k < m {
        PositionGrows(states, acts, i, k, m, t);
      }
    }
  }

  // ---------------------------------------------------------------- who waits for whom

  /** The holder of the global lock finds the next mutex taken exclusively by nobody. */
  lemma NextNotOwned(s: State, t: Tid, w: Tid)
    requires Inv(s) && t in s.threads && s.threads[t].LockingAll? && s.threads[t].i < |s.nodes|
    requires w in s.threads
    ensures !Owns(s, w, s.nodes[s.threads[t].i])
  {
    assert Registered(s.threads[s.nodes[s.threads[t].i]]);
    if s.threads[w].LockingAll? || s.threads[w].UnlockingAll? {
      OneLooper(s, t, w);
    }
  }

  lemma NextIsFree(s: State, t: Tid)
    requires Inv(s) && t in s.threads && s.threads[t].LockingAll? && s.threads[t].i < |s.nodes|
    ensures var u := s.nodes[s.threads[t].i];
      u in s.threads && (Enabled(s, LockNode(t)) <==> !s.threads[u].Scanning?)
  {
    var u := s.nodes[s.threads[t].i];
    forall w | w in s.threads ensures !Owns(s, w, u) {
      NextNotOwned(s, t, w);
    }
    assert s.mutexes[u].writer == None;
  }

  lemma UnlockingGoesOn(s: State, t: Tid)
    requires Inv(s) && t in s.threads && s.threads[t].UnlockingAll?
    ensures Enabled(s, UnlockNode(t)) != Enabled(s, UnlockGlobal(t))
  {
    var pc := s.threads[t];
    if pc.i < |s.nodes| {
      assert Registered(s.threads[s.nodes[pc.i]]);
    }
  }

  /** A thread in one of the loops waits for nothing but this: the mutex of the node that comes
      next is held by that node's own thread, which is scanning. */
  lemma LoopWaitsForScanner(states: seq<State>, acts: seq<Action>, i: nat, t: Tid)
    requires Run(states, acts) && i < |states| && t in states[i].threads
    ensures var s, pc := states[i], states[i].threads[t];
      && (pc.Scanning? ==> Enabled(s, Visit(t)) != Enabled(s, EndScan(t)))
      && (pc.UnlockingAll? ==> Enabled(s, UnlockNode(t)) != Enabled(s, UnlockGlobal(t)))
      && (pc.LastUnlock? ==> Enabled(s, UnlockOwn(t)))
      && (pc.LockingAll? && pc.i == |s.nodes| ==> Enabled(s, Change(t)))
      && (pc.LockingAll? && pc.i < |s.nodes| ==>
            && s.nodes[pc.i] in s.threads
            && (Enabled(s, LockNode(t)) <==> !s.threads[s.nodes[pc.i]].Scanning?))
  {
    RunInv(states, acts, i);
    var s, pc := states[i], states[i].threads[t];
    if pc.UnlockingAll? {
      UnlockingGoesOn(s, t);
    } else if pc.LockingAll? && pc.i < |s.nodes| {
      NextIsFree(s, t);
    }
  }

  lemma AbsentIsFree(s: State, t: Tid)
    requires Inv(s) && t in s.threads && s.threads[t].Absent?
    ensures s.mutexes[t] == FREE
  {
    assert t !in s.nodes;
    forall u | u in s.threads ensures !Owns(s, u, t) {
    }
    assert s.mutexes[t].writer == None;
  }

  /** Who is in none of the operations can begin one: constructing its node at once, registering or
      unregistering when nobody else does, and a scan unless its mutex is taken from it. */
  lemma EntryOpens(states: seq<State>, acts: seq<Action>, i: nat, t: Tid)
    requires Run(states, acts) && i < |states| && t in states[i].threads
    ensures var s, pc := states[i], states[i].threads[t];
      && (pc.Absent? ==> Enabled(s, LockOwn(t)))
      && (pc.OwnLocked? || pc.Idle? ==> (Enabled(s, LockGlobal(t)) <==> s.global == None))
      && (pc.Idle? ==> (Enabled(s, StartScan(t)) <==> forall u | u in s.threads :: !Owns(s, u, t)))
  {
    RunInv(states, acts, i);
    if states[i].threads[t].Absent? {
      AbsentIsFree(states[i], t);
    }
    assert forall u | u in states[i].threads :: Owns(states[i], u, t) <==> states[i].mutexes[t].writer == Some(u);
  }

  lemma {:induction false} GlobalHolder(states: seq<State>, acts: seq<Action>, i: nat)
    requires Run(states, acts) && i < |states|
    ensures states[i].global.Some? ==> states[i].global.value in states[i].threads
  {
    if i > 0 {
      GlobalHolder(states, acts, i - 1);
      assert StepAt(states, acts, i - 1);
    }
  }

  /** A thread in a loop goes on, or the scanner it waits for does. */
  lemma LooperGoesOn(states: seq<State>, acts: seq<Action>, i: nat, t: Tid) returns (a: Action)
    requires Run(states, acts) && i < |states| && t in states[i].threads
    requires var pc := states[i].threads[t]; !pc.Idle? && !pc.Absent? && !pc.OwnLocked?
    ensures Enabled(states[i], a) && !states[i].threads[a.t].Idle? && !states[i].threads[a.t].Absent?
  {
    LoopWaitsForScanner(states, acts, i, t);
    RunInv(states, acts, i);
    var s, pc := states[i], states[i].threads[t];
    match pc {
      case Scanning(_) => a := if Enabled(s, Visit(t)) then Visit(t) else EndScan(t);
      case UnlockingAll(_, _) => a := if Enabled(s, UnlockNode(t)) then UnlockNode(t) else UnlockGlobal(t);
      case LastUnlock => a := UnlockOwn(t);
      case LockingAll(_, n) =>
        if n == |s.nodes| {
          a := Change(t);
        } else if Enabled(s, LockNode(t)) {
          a := LockNode(t);
        } else {
          LoopWaitsForScanner(states, acts, i, s.nodes[n]);
          a := if Enabled(s, Visit(s.nodes[n])) then Visit(s.nodes[n]) else EndScan(s.nodes[n]);
        }
    }
  }

  /** The lock and the mutexes never block each other for good: while any thread is inside one of
      the operations, some thread inside can take its next step. */
  lemma SomebodyGoesOn(states: seq<State>, acts: seq<Action>, i: nat, t: Tid) returns (a: Action)
    requires Run(states, acts) && i < |states| && t in states[i].threads
    requires !states[i].threads[t].Idle? && !states[i].threads[t].Absent?
    ensures Enabled(states[i], a) && !states[i].threads[a.t].Idle? && !states[i].threads[a.t].Absent?
  {
    RunInv(states, acts, i);
    GlobalHolder(states, acts, i);
    var s := states[i];
    if !s.threads[t].OwnLocked? {
      a := LooperGoesOn(states, acts, i, t);
    } else if s.global.Some? {
      a := LooperGoesOn(states, acts, i, s.global.value);
    } else {
      a := LockGlobal(t);
    }
  }

  // ---------------------------------------------------------------- a run

  function ActAt(t: Tid, k: nat): Action {
    match k
    case 0 => LockOwn(t) case 1 => LockGlobal(t) case 2 => Change(t)
    case 3 => UnlockNode(t) case 4 => UnlockGlobal(t) case _ => StartScan(t)
  }

  function StateAt(t: Tid, k: nat): State {
    var held := map[t := Mutex(Some(t), false)];
    match k
    case 0 => State(None, [], map[t := FREE], map[t := Absent])
    case 1 => State(None, [], held, map[t := OwnLocked])
    case 2 => State(Some(t), [], held, map[t := LockingAll(true, 0)])
    case 3 => State(Some(t), [t], held, map[t := UnlockingAll(true, 0)])
    case 4 => State(Some(t), [t], map[t := FREE], map[t := UnlockingAll(true, 1)])
    case 5 => State(None, [t], map[t := FREE], map[t := Idle])
    case _ => State(None, [t], map[t := Mutex(None, true)], map[t := Scanning(0)])
  }

  lemma Follows(t: Tid, k: nat)
    requires k < 6
    ensures Enabled(StateAt(t, k), ActAt(t, k)) && StateAt(t, k + 1) == Apply(StateAt(t, k), ActAt(t, k))
  {
  }

  /** There are runs in which a thread registers and scans. */
  lemma SomebodyScans(t: Tid) returns (states: seq<State>, acts: seq<Action>)
    ensures Run(states, acts) && |states| == 7
    ensures states[6].nodes == [t] && t in states[6].threads && states[6].threads[t] == Scanning(0)
  {
    states := seq(7, k requires 0 <= k < 7 => StateAt(t, k));
    acts := seq(6, k requires 0 <= k < 6 => ActAt(t, k));
    forall k | 0 <= k < 6 ensures StepAt(states, acts, k) {
      Follows(t, k);
    }
  }
}
