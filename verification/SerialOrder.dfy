/** From a log whose reads are right for their time stamps to a serial execution:
    the transactions, sorted by time stamp, run one after the other. */
module SerialOrder {
  import opened CommitLog

  /** A transaction that wrote nothing goes before a writer with the same time stamp. */
  function Key(r: Rec): nat { 2 * r.time + if r.writer then 1 else 0 }

  ghost predicate Before(a: Rec, b: Rec) {
    Key(a) <= Key(b) && (a.writer && b.writer ==> a.time < b.time)
  }

  ghost predicate Sorted(order: seq<Rec>) {
    order == [] || ((forall r | r in order[1..] :: Before(order[0], r)) && Sorted(order[1..]))
  }

  lemma {:induction false} SortedAt(order: seq<Rec>, i: nat, j: nat)
    requires Sorted(order) && i < j < |order|
    ensures Before(order[i], order[j])
  {
    if i == 0 {
      assert order[1..][j - 1] in order[1..];
    } else {
      SortedAt(order[1..], i - 1, j - 1);
    }
  }

  function Insert(r: Rec, order: seq<Rec>): seq<Rec> {
    if order == [] || Key(r) <= Key(order[0]) then [r] + order
    else [order[0]] + Insert(r, order[1..])
  }

  function Sort(recs: seq<Rec>): seq<Rec> {
    if recs == [] then [] else Insert(recs[0], Sort(recs[1..]))
  }

  lemma {:induction false} InsertPermutes(r: Rec, order: seq<Rec>)
    ensures multiset(Insert(r, order)) == multiset(order) + multiset{r}
  {
    if order != [] && Key(r) > Key(order[0]) {
      InsertPermutes(r, order[1..]);
      assert order == [order[0]] + order[1..];
    }
  }

  lemma {:induction false} InsertSorts(r: Rec, order: seq<Rec>)
    requires Sorted(order)
    requires forall q | q in order && q.writer && r.writer :: q.time != r.time
    ensures Sorted(Insert(r, order))
  {
    if order != [] {
      assert order == [order[0]] + order[1..];
      if Key(r) > Key(order[0]) {
        InsertSorts(r, order[1..]);
        InsertPermutes(r, order[1..]);
        var done := Insert(r, order[1..]);
        forall q | q in done ensures Before(order[0], q) {
          assert q in multiset(done);
        }
        assert ([order[0]] + done)[1..] == done;
      } else {
        forall q | q in order ensures Before(r, q) {
          assert q == order[0] || q in order[1..];
        }
        assert ([r] + order)[1..] == order;
      }
    }
  }

  lemma {:induction false} SortPermutes(recs: seq<Rec>)
    ensures multiset(Sort(recs)) == multiset(recs)
  {
    if recs != [] {
      SortPermutes(recs[1..]);
      InsertPermutes(recs[0], Sort(recs[1..]));
      assert recs == [recs[0]] + recs[1..];
    }
  }

  lemma {:induction false} SortSorts(recs: seq<Rec>)
    requires forall i, j | 0 <= i < j < |recs| && recs[i].writer && recs[j].writer ::
               recs[i].time != recs[j].time
    ensures Sorted(Sort(recs))
  {
    if recs != [] {
      var rest := recs[1..];
      SortSorts(rest);
      SortPermutes(rest);
      forall q | q in Sort(rest) && q.writer && recs[0].writer
        ensures q.time != recs[0].time
      {
        assert q in multiset(Sort(rest));
        var j :| 0 <= j < |rest| && rest[j] == q;
        assert recs[j + 1] == q;
      }
      InsertSorts(recs[0], Sort(rest));
    }
  }

  /** Two histories agree on `x` when the last write of each is a write of the other.
      `i` and `j` say where: the last write of `log` in `order`, and the other way round. */
  lemma SameLast(init: Memory, log: seq<Rec>, v: nat, order: seq<Rec>, k: nat, x: Var, i: nat, j: nat)
    requires v <= |log| && k <= |order|
    requires var w := LastVersion(log, v, x); w > 0 ==> i < k && order[i] == log[w - 1]
    requires var u := LastVersion(order, k, x); u > 0 ==> j < v && log[j] == order[u - 1]
    requires var w, u := LastVersion(log, v, x), LastVersion(order, k, x);
             w > 0 && u > 0 ==>
               && (i + 1 < u ==> order[i].time < order[u - 1].time)
               && (j + 1 < w ==> log[j].time < log[w - 1].time)
    ensures Latest(init, order, k, x) == Latest(init, log, v, x)
  {
    LatestIsLastWrite(init, log, v, x);
    LatestIsLastWrite(init, order, k, x);
    NoWriteSince(log, v, x);
    NoWriteSince(order, k, x);
  }

  /** The read `p` by `r` is of the value after the first `r.version` commits, and every
      other commit to the variable has a time stamp not below that of `r`. */
  ghost predicate ReadRight(init: Memory, log: seq<Rec>, r: Rec, p: (Var, Storage)) {
    && r.version <= |log|
    && p.1 == Latest(init, log, r.version, p.0)
    && (forall j | 0 <= j < r.version :: log[j].time < r.time)
    && (forall j | r.version <= j < |log| && p.0 in log[j].writes :: r.time <= log[j].time)
  }

  ghost predicate LogRight(log: seq<Rec>, quiet: seq<Rec>) {
    && (forall i | 0 <= i < |log| :: log[i].writer)
    && (forall i | 0 <= i < |quiet| :: !quiet[i].writer)
    && (forall i, x | 0 <= i < |quiet| :: x !in quiet[i].writes)
    && (forall i, j | 0 <= i < j < |log| :: log[i].time != log[j].time)
    && (forall i, j, x | 0 <= i < j < |log| && x in log[i].writes && x in log[j].writes ::
          log[i].time < log[j].time)
  }

  /** Executed one after the other in this order, every read returns what was read. */
  ghost predicate Legal(init: Memory, order: seq<Rec>) {
    forall k, p | 0 <= k < |order| && p in order[k].seen :: p.1 == Latest(init, order, k, p.0)
  }

  lemma WriterComesFromLog(log: seq<Rec>, quiet: seq<Rec>, order: seq<Rec>, u: nat, x: Var) returns (j: nat)
    requires LogRight(log, quiet) && multiset(order) == multiset(log + quiet)
    requires u < |order| && x in order[u].writes
    ensures j < |log| && log[j] == order[u]
  {
    assert order[u] in multiset(order) && order[u] in log + quiet;
    j :| 0 <= j < |log + quiet| && (log + quiet)[j] == order[u];
  }

  lemma CommitIsOrdered(log: seq<Rec>, quiet: seq<Rec>, order: seq<Rec>, w: nat) returns (i: nat)
    requires multiset(order) == multiset(log + quiet) && w < |log|
    ensures i < |order| && order[i] == log[w]
  {
    assert (log + quiet)[w] == log[w] && log[w] in multiset(log + quiet) && log[w] in multiset(order);
    i :| 0 <= i < |order| && order[i] == log[w];
  }

  /** Where the last write of one history stands in the other. */
  lemma Partners(log: seq<Rec>, quiet: seq<Rec>, order: seq<Rec>, v: nat, k: nat, x: Var) returns (i: nat, j: nat)
    requires LogRight(log, quiet) && multiset(order) == multiset(log + quiet)
    requires v <= |log| && k <= |order|
    ensures ArePartners(log, order, v, k, x, i, j)
  {
    var w, u := LastVersion(log, v, x), LastVersion(order, k, x);
    i, j := 0, 0;
    if w > 0 {
      i := CommitIsOrdered(log, quiet, order, w - 1);
    }
    if u > 0 {
      j := WriterComesFromLog(log, quiet, order, u - 1, x);
    }
  }

  ghost predicate ArePartners(log: seq<Rec>, order: seq<Rec>, v: nat, k: nat, x: Var, i: nat, j: nat)
    requires v <= |log| && k <= |order|
  {
    var w, u := LastVersion(log, v, x), LastVersion(order, k, x);
    && (w > 0 ==> i < |order| && order[i] == log[w - 1] && log[w - 1].writer)
    && (u > 0 ==> j < |log| && log[j] == order[u - 1] && log[j].writer)
    && (w > 0 && u > 0 && j + 1 < w ==> log[j].time < log[w - 1].time)
  }

  /** The last write read by `order[k]` comes before it, and every later one after it. */
  lemma ReadIsSerial(init: Memory, log: seq<Rec>, order: seq<Rec>, k: nat, p: (Var, Storage), i: nat, j: nat)
    requires Sorted(order)
    requires k < |order| && ReadRight(init, log, order[k], p)
    requires ArePartners(log, order, order[k].version, k, p.0, i, j)
    ensures p.1 == Latest(init, order, k, p.0)
  {
    var r, x := order[k], p.0;
    var w, u := LastVersion(log, r.version, x), LastVersion(order, k, x);
    if w > 0 && k < i {
      SortedAt(order, k, i);
    }
    if u > 0 {
      SortedAt(order, u - 1, k);
      assert j < r.version;
      if i + 1 < u {
        SortedAt(order, i, u - 1);
      }
    }
    SameLast(init, log, r.version, order, k, x, i, j);
  }

  lemma EndsTheSame(init: Memory, log: seq<Rec>, order: seq<Rec>, x: Var, i: nat, j: nat)
    requires Sorted(order) && ArePartners(log, order, |log|, |order|, x, i, j)
    ensures Latest(init, order, |order|, x) == Latest(init, log, |log|, x)
  {
    var u := LastVersion(order, |order|, x);
    if i + 1 < u {
      SortedAt(order, i, u - 1);
    }
    SameLast(init, log, |log|, order, |order|, x, i, j);
  }

  ghost predicate WellTimed(init: Memory, log: seq<Rec>, r: Rec) {
    && r.version <= |log| && r.begin <= r.time <= r.end
    && (forall p | p in r.seen :: ReadRight(init, log, r, p))
  }

  /** A serial execution of exactly these transactions: every read returns what it returned, the
      final values agree, and no transaction comes before one that ended before it began. */
  ghost predicate SerialFor(init: Memory, log: seq<Rec>, quiet: seq<Rec>, order: seq<Rec>) {
    && multiset(order) == multiset(log + quiet)
    && Legal(init, order)
    && (forall x :: Latest(init, order, |order|, x) == Latest(init, log, |log|, x))
    && (forall i, j | 0 <= i < j < |order| :: order[i].begin <= order[j].end)
  }

  lemma LegalAt(init: Memory, log: seq<Rec>, quiet: seq<Rec>, order: seq<Rec>, k: nat, p: (Var, Storage))
    requires LogRight(log, quiet) && multiset(order) == multiset(log + quiet) && Sorted(order)
    requires k < |order| && ReadRight(init, log, order[k], p)
    ensures p.1 == Latest(init, order, k, p.0)
  {
    var i, j := Partners(log, quiet, order, order[k].version, k, p.0);
    ReadIsSerial(init, log, order, k, p, i, j);
  }

  lemma SortIsSerial(init: Memory, log: seq<Rec>, quiet: seq<Rec>)
    requires LogRight(log, quiet)
    requires forall r | r in log + quiet :: WellTimed(init, log, r)
    ensures SerialFor(init, log, quiet, Sort(log + quiet))
  {
    var recs := log + quiet;
    var order := Sort(recs);
    SortPermutes(recs);
    SortSorts(recs);
    forall k | 0 <= k < |order|
      ensures WellTimed(init, log, order[k])
    {
      assert order[k] in multiset(order) && order[k] in recs;
    }
    forall k, p | 0 <= k < |order| && p in order[k].seen
      ensures p.1 == Latest(init, order, k, p.0)
    {
      LegalAt(init, log, quiet, order, k, p);
    }
    forall x
      ensures Latest(init, order, |order|, x) == Latest(init, log, |log|, x)
    {
      var i, j := Partners(log, quiet, order, |log|, |order|, x);
      EndsTheSame(init, log, order, x, i, j);
    }
    forall i, j | 0 <= i < j < |order|
      ensures order[i].begin <= order[j].end
    {
      SortedAt(order, i, j);
    }
  }
}
