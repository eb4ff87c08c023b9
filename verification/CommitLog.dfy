/** The history of committed transactions, and what it says about the value of
    every variable.  Each writing commit bumps the clock once, so the commit that
    published version `i + 1` is entry `i` of the log. */
module CommitLog {
  type Var = nat
  // A pointer for heap variables, the raw bits for atomic ones.
  type Storage = nat
  type Epoch = nat

  /** The value every variable starts with; 0 stands for variables that do not exist. */
  type Memory = map<Var, Storage>

  function At(memory: Memory, x: Var): Storage { if x in memory then memory[x] else 0 }

  /** A committed transaction.  `begin` is the step of its `get_clock`, `end` the step
      at which its outcome was decided, `time` its place in the serial order. */
  datatype Rec = Rec(
    begin: nat, time: nat, end: nat,
    version: Epoch, writer: bool,
    seen: set<(Var, Storage)>,
    writes: map<Var, Storage>)

  /** The value of `x` after the first `v` transactions of `log`. */
  ghost function Latest(init: Memory, log: seq<Rec>, v: nat, x: Var): Storage
    requires v <= |log|
  {
    if v == 0 then At(init, x)
    else if x in log[v - 1].writes then log[v - 1].writes[x]
    else Latest(init, log, v - 1, x)
  }

  /** The last version not above `v` that wrote `x`, or 0. */
  ghost function LastVersion(log: seq<Rec>, v: nat, x: Var): (u: nat)
    requires v <= |log|
    ensures u <= v
    ensures u > 0 ==> x in log[u - 1].writes
  {
    if v == 0 then 0
    else if x in log[v - 1].writes then v
    else LastVersion(log, v - 1, x)
  }

  lemma {:induction false} NoWriteSince(log: seq<Rec>, v: nat, x: Var)
    requires v <= |log|
    ensures forall j | LastVersion(log, v, x) <= j < v :: x !in log[j].writes
  {
    if v > 0 && x !in log[v - 1].writes {
      NoWriteSince(log, v - 1, x);
    }
  }

  lemma {:induction false} LatestIsLastWrite(init: Memory, log: seq<Rec>, v: nat, x: Var)
    requires v <= |log|
    ensures var u := LastVersion(log, v, x);
            && (u == 0 ==> Latest(init, log, v, x) == At(init, x))
            && (u > 0 ==> Latest(init, log, v, x) == log[u - 1].writes[x])
  {
    if v > 0 && x !in log[v - 1].writes {
      LatestIsLastWrite(init, log, v - 1, x);
    }
  }

  /** Nothing changes between the last write and any later version. */
  lemma {:induction false} LatestUnchanged(init: Memory, log: seq<Rec>, v: nat, w: nat, x: Var)
    requires v <= w <= |log| && LastVersion(log, w, x) <= v
    ensures Latest(init, log, w, x) == Latest(init, log, v, x)
    ensures LastVersion(log, w, x) == LastVersion(log, v, x)
    decreases w
  {
    if v < w {
      LatestUnchanged(init, log, v, w - 1, x);
    }
  }

  /** Appending to the log leaves every earlier snapshot alone. */
  lemma {:induction false} PrefixKept(init: Memory, log: seq<Rec>, log': seq<Rec>, v: nat, x: Var)
    requires log <= log' && v <= |log|
    ensures Latest(init, log', v, x) == Latest(init, log, v, x)
    ensures LastVersion(log', v, x) == LastVersion(log, v, x)
  {
    if v > 0 {
      assert log'[v - 1] == log[v - 1];
      PrefixKept(init, log, log', v - 1, x);
    }
  }

  lemma PrefixKeptAll(init: Memory, log: seq<Rec>, log': seq<Rec>)
    requires log <= log'
    ensures forall v: nat, x {:trigger Latest(init, log', v, x)} | v <= |log| ::
              Latest(init, log', v, x) == Latest(init, log, v, x)
    ensures forall v: nat, x {:trigger LastVersion(log', v, x)} | v <= |log| ::
              LastVersion(log', v, x) == LastVersion(log, v, x)
  {
    forall v: nat, x | v <= |log|
      ensures Latest(init, log', v, x) == Latest(init, log, v, x)
      ensures LastVersion(log', v, x) == LastVersion(log, v, x)
    {
      PrefixKept(init, log, log', v, x);
    }
  }

  lemma {:induction false} LastVersionMonotone(log: seq<Rec>, v: nat, w: nat, x: Var)
    requires v <= w <= |log|
    ensures LastVersion(log, v, x) <= LastVersion(log, w, x)
    decreases w
  {
    if v < w {
      LastVersionMonotone(log, v, w - 1, x);
    }
  }
}
