/** The loops of `Transaction` and the actions of the protocol do the same: the commit of an object
    is what every schedule of `try_commit` by its thread alone comes to. */
module CommitSchedule {
  import opened Stm
  import opened StmInvariant
  import opened StmAlone
  import T = Transaction
  import opened WriteSet

  type Names = map<Var, nat>

  /** Under these names the objects hold what the state holds. */
  ghost predicate Shows(s: State, names: Names, vars: set<Var>, domain: T.Domain)
    reads domain, vars
  {
    && domain.clock == s.clock && vars <= names.Keys
    && (forall v, u | v in vars && u in vars && v != u :: names[v] != names[u])
    && (forall v | v in vars ::
          names[v] in s.mem && s.mem[names[v]].word == v.version && s.mem[names[v]].storage == v.storage)
  }

  /** The transaction's sets are those of thread `t`. */
  ghost predicate ShowsSets(s: State, t: Tid, names: Names, vars: set<Var>, tx: T.Transaction)
    requires vars <= names.Keys && tx.Valid()
    reads tx, tx.readSet, tx.readSet.buffer, tx.writeSet, tx.writeSet.data, tx.writeSet.data.buffer
  {
    var tracked, pending := tx.readSet.Contents(), tx.writeSet.Pending();
    && t in s.threads && s.threads[t].version == tx.version
    && (forall v | v in tracked :: v in vars) && pending.Keys <= vars
    && s.threads[t].readSet == (set v | v in tracked :: names[v])
    && s.threads[t].writes.Keys == (set v | v in pending :: names[v])
    && (forall v | v in pending :: s.threads[t].writes[names[v]] == pending[v])
  }

  /** The version tests of the object and of the thread are the same tests. */
  lemma TestsAgree(s: State, t: Tid, names: Names, vars: set<Var>, domain: T.Domain, tx: T.Transaction)
    requires tx.Valid() && Shows(s, names, vars, domain) && ShowsSets(s, t, names, vars, tx)
    ensures AllOpen(s, t) <==>
              && T.AllValid(T.Versions(tx.writeSet.Contents()), tx.version)
              && T.ReadsValid(tx.readSet.Contents(), tx.writeSet.Pending(), tx.version)
  {
    var ws, tracked := tx.writeSet.Contents(), tx.readSet.Contents();
    T.Transaction.AsMapDests(ws);
    forall k | 0 <= k < |ws|
      ensures ws[k].dest in vars && names[ws[k].dest] in s.threads[t].writes
      ensures Open(s, t, names[ws[k].dest]) <==> T.Versions(ws)[k] <= tx.version
    {
      assert ws[k].dest in T.Dests(ws) && ws[k].dest in tx.writeSet.Pending();
    }
    assert forall v | v in tracked ::
             names[v] in s.threads[t].readSet && (Open(s, t, names[v]) <==> v.version <= tx.version);
    if T.AllValid(T.Versions(ws), tx.version) && T.ReadsValid(tracked, tx.writeSet.Pending(), tx.version) {
      forall x | x in s.threads[t].writes.Keys + s.threads[t].readSet ensures Open(s, t, x) {
        if x in s.threads[t].writes {
          var v :| v in tx.writeSet.Pending() && names[v] == x;
          var k :| 0 <= k < |ws| && ws[k].dest == v;
        } else {
          var v :| v in tracked && names[v] == x;
          assert v !in tx.writeSet.Pending();
        }
      }
    }
  }

  /** The objects that are not written still hold what they held in `s`. */
  ghost predicate OthersKept(s: State, names: Names, vars: set<Var>, ws: seq<Entry>)
    requires vars <= names.Keys
    reads vars
  {
    && (forall v, u | v in vars && u in vars && v != u :: names[v] != names[u])
    && (forall v | v in vars :: names[v] in s.mem)
    && forall v | v in vars && v !in T.Dests(ws) ::
         s.mem[names[v]].word == v.version && s.mem[names[v]].storage == v.storage
  }

  /** The write set by name. */
  ghost predicate Named(writes: map<nat, Storage>, names: Names, vars: set<Var>, ws: seq<Entry>)
    requires vars <= names.Keys
  {
    && T.Dests(ws) <= vars
    && (forall k | 0 <= k < |ws| :: names[ws[k].dest] in writes && writes[names[ws[k].dest]] == ws[k].pending)
    && (forall x | x in writes :: exists k :: 0 <= k < |ws| && names[ws[k].dest] == x)
  }

  ghost predicate ValuesAre(s: State, names: Names, vars: set<Var>, ws: seq<Entry>, vs: seq<Word>, ss: seq<Storage>)
    requires vars <= names.Keys
  {
    && |vs| == |ws| == |ss| && T.Dests(ws) <= vars
    && forall k | 0 <= k < |ws| ::
         var x := names[ws[k].dest]; x in s.mem && s.mem[x].word == vs[k] && s.mem[x].storage == ss[k]
  }

  /** After a success every object written holds its pending write under the new version. */
  lemma CommittedShows(s: State, t: Tid, s': State, names: Names, vars: set<Var>, ws: seq<Entry>, domain: T.Domain)
    requires t in s.threads && Installed(s, t, s') && vars <= names.Keys
    requires OthersKept(s, names, vars, ws) && Named(s.threads[t].writes, names, vars, ws)
    requires T.Transaction.Installed(ws, domain, s.clock)
    ensures Shows(s', names, vars, domain)
  {
    forall v | v in vars ensures s'.mem[names[v]].word == v.version && s'.mem[names[v]].storage == v.storage {
      if v in T.Dests(ws) {
        var k :| 0 <= k < |ws| && ws[k].dest == v;
        assert names[v] in s.threads[t].writes;
      } else {
        assert forall k | 0 <= k < |ws| :: ws[k].dest in T.Dests(ws) && names[ws[k].dest] != names[v];
      }
    }
  }

  /** After a failure every object holds what it held. */
  lemma FailedShows(s: State, s': State, names: Names, vars: set<Var>, ws: seq<Entry>, domain: T.Domain,
                    vs: seq<Word>, ss: seq<Storage>)
    requires vars <= names.Keys && OthersKept(s, names, vars, ws)
    requires s'.mem == s.mem && s'.clock == s.clock
    requires ValuesAre(s, names, vars, ws, vs, ss)
    requires T.Transaction.Unchanged(ws, domain, vs, ss, s.clock)
    ensures Shows(s', names, vars, domain)
  {
    forall v | v in vars ensures s.mem[names[v]].word == v.version && s.mem[names[v]].storage == v.storage {
      if v in T.Dests(ws) {
        var k :| 0 <= k < |ws| && ws[k].dest == v;
        assert T.Versions(ws)[k] == vs[k] && T.Storages(ws)[k] == ss[k];
      }
    }
  }

  lemma ValuesBefore(s: State, names: Names, vars: set<Var>, ws: seq<Entry>, domain: T.Domain)
    requires Shows(s, names, vars, domain) && T.Dests(ws) <= vars
    ensures OthersKept(s, names, vars, ws) && ValuesAre(s, names, vars, ws, T.Versions(ws), T.Storages(ws))
  {
    assert forall k | 0 <= k < |ws| :: ws[k].dest in T.Dests(ws);
  }

  lemma PendingNamed(s: State, t: Tid, names: Names, vars: set<Var>, domain: T.Domain, tx: T.Transaction)
    requires tx.Valid() && Shows(s, names, vars, domain) && ShowsSets(s, t, names, vars, tx)
    ensures Named(s.threads[t].writes, names, vars, tx.writeSet.Contents())
    ensures tx.writeSet.Contents() == [] ==> s.threads[t].writes == map[]
  {
    var ws := tx.writeSet.Contents();
    T.Transaction.AsMapDests(ws);
    forall k | 0 <= k < |ws|
      ensures names[ws[k].dest] in s.threads[t].writes && s.threads[t].writes[names[ws[k].dest]] == ws[k].pending
    {
      AsMapAt(ws, k);
    }
    forall x | x in s.threads[t].writes ensures exists k :: 0 <= k < |ws| && names[ws[k].dest] == x {
      var v :| v in tx.writeSet.Pending() && names[v] == x;
      var k :| 0 <= k < |ws| && ws[k].dest == v;
    }
    if ws == [] {
      assert s.threads[t].writes.Keys == {};
    }
  }

  /** What `AloneCommits` promises. */
  ghost predicate Outcome(s: State, t: Tid, s': State, ok: bool, sync: Word)
    requires t in s.threads
  {
    && (ok <==> AllOpen(s, t))
    && if ok then sync == s.clock && Installed(s, t, s') else s'.mem == s.mem && s'.clock == s.clock
  }

  /** `TryCommit` with something to write, told in values from before the call. */
  method CommitValues(tx: T.Transaction, domain: T.Domain, ghost ws: seq<Entry>, ghost vs: seq<Word>,
                      ghost ss: seq<Storage>, ghost clock: Word, ghost ok: bool, ghost others: set<Var>)
    returns (r: T.Commit)
    requires tx.Valid() && ws == tx.writeSet.Contents() != [] && clock == domain.clock
    requires vs == T.Versions(ws) && ss == T.Storages(ws) && others !! T.Dests(ws)
    requires ok <==>
               && T.AllValid(vs, tx.version)
               && T.ReadsValid(tx.readSet.Contents(), tx.writeSet.Pending(), tx.version)
    modifies domain, T.Dests(ws)`version, T.Dests(ws)`storage, tx.readSet`end, tx.readSet.buffer
    ensures (r.Committed? <==> ok) && (ok ==> r.sync == clock)
    ensures if ok then T.Transaction.Installed(ws, domain, clock)
            else T.Transaction.Unchanged(ws, domain, vs, ss, clock)
    ensures forall v | v in others :: v.version == old(v.version) && v.storage == old(v.storage)
  {
    r := tx.TryCommit(domain);
  }

  method CommitTo(tx: T.Transaction, domain: T.Domain, ghost s: State, ghost t: Tid, ghost s': State,
                  ghost names: Names, ghost vars: set<Var>, ghost ok: bool, ghost sync: Word) returns (r: T.Commit)
    requires tx.Valid() && Shows(s, names, vars, domain) && ShowsSets(s, t, names, vars, tx)
    requires s.threads[t].writes != map[] && Outcome(s, t, s', ok, sync)
    modifies domain, T.Dests(tx.writeSet.Contents())`version, T.Dests(tx.writeSet.Contents())`storage
    modifies tx.readSet`end, tx.readSet.buffer
    ensures Shows(s', names, vars, domain)
    ensures (r.Committed? <==> ok) && (ok ==> r.sync == sync)
  {
    ghost var ws := tx.writeSet.Contents();
    ghost var vs, ss := T.Versions(ws), T.Storages(ws);
    TestsAgree(s, t, names, vars, domain, tx);
    PendingNamed(s, t, names, vars, domain, tx);
    ValuesBefore(s, names, vars, ws, domain);
    r := CommitValues(tx, domain, ws, vs, ss, s.clock, ok, vars - T.Dests(ws));
    assert OthersKept(s, names, vars, ws) by {
      assert forall v | v in vars && v !in T.Dests(ws) :: v in vars - T.Dests(ws);
    }
    if ok {
      CommittedShows(s, t, s', names, vars, ws, domain);
    } else {
      FailedShows(s, s', names, vars, ws, domain, vs, ss);
    }
  }

  /** Wherever an object stands for a thread in a state of the protocol and calls `try_commit`, it
      commits exactly if the thread alone succeeds, on every schedule, and leaves the objects
      holding what the state at the end of the schedule holds. */
  method CommitAsScheduled(tx: T.Transaction, domain: T.Domain, ghost s: State, ghost acts: seq<Action>,
                           ghost s': State, ghost t: Tid, ghost names: Names, ghost vars: set<Var>)
    returns (r: T.Commit)
    requires tx.Valid() && Shows(s, names, vars, domain) && ShowsSets(s, t, names, vars, tx)
    requires Inv(s) && Enabled(s, StartCommit(t)) && acts != [] && acts[0] == StartCommit(t)
    requires Leads(s, acts, s') && CommitsBy(acts, t) && t in s'.threads && Ended(s'.threads[t].pc)
    modifies domain, T.Dests(tx.writeSet.Contents())`version, T.Dests(tx.writeSet.Contents())`storage
    modifies tx.readSet`end, tx.readSet.buffer
    ensures Shows(s', names, vars, domain)
    ensures r.Committed? <==> s'.threads[t].pc.Succeeding?
    ensures r.Committed? ==> r.sync == s'.threads[t].pc.sync
  {
    AloneCommits(s, acts, s', t);
    ghost var pc := s'.threads[t].pc;
    r := CommitTo(tx, domain, s, t, s', names, vars, pc.Succeeding?, if pc.Succeeding? then pc.sync else 0);
  }
}
