/** Conservation: every transaction step keeps each heap storage in exactly one place. */
module ReclaimPlaces {
  import opened CommitLog
  import opened Stm
  import opened StmInvariant
  import opened Reclaim
  import opened ReclaimInvariant

  /** A write stored but not yet published is the current storage of a variable held locked. */
  lemma StoredIsCurrent(w: World, t: Tid, x: Var)
    requires t in w.stm.threads && x in w.stm.heap && Stored(w.stm.threads[t], x)
    requires LocksInv(w.stm, t) && PlacesInv(w)
    requires x in w.stm.mem && CellInv(w.stm, x)
    ensures OwnerIs(w.stm, x, t) && w.stm.mem[x].storage == w.stm.threads[t].writes[x]
    ensures w.stm.mem[x].storage in w.place && w.place[w.stm.mem[x].storage] == Current(x)
  {
    assert Holds(w.stm.threads[t], x) && CellPlaced(w, x);
  }

  // ---------------------------------------------------------------- steps that move nothing

  predicate Moves(s: State, a: Action)
    requires Enabled(s, a)
  {
    Allocates(s, a) || (a.StoreOne? && a.x in s.heap) || a.Leave?
  }

  /** What a write set says about heap variable `x`, and how far the write has landed, does
      not change. */
  ghost predicate SameWrite(th: Thread, th': Thread, x: Var) {
    && (x in th.writes <==> x in th'.writes)
    && (x in th.writes ==> th'.writes[x] == th.writes[x])
    && (Landed(th, x) <==> Landed(th', x))
    && (Landed(th, x) && x in th.cur ==> x in th'.cur && th'.cur[x] == th.cur[x])
    && (Unborn(th') ==> Unborn(th) || x !in th.writes)
  }

  predicate Writes(a: Action) { a.WriteFast? || a.WriteSlowCheck? || a.WriteAtomic? }

  lemma WritesKept(s: State, a: Action)
    requires Enabled(s, a) && !Writes(a) && !a.Begin? && !a.GiveUp? && !a.Leave?
    ensures NextThread(s, a).writes == s.threads[a.t].writes
  {
  }

  lemma NeutralSets(s: State, a: Action, x: Var)
    requires Enabled(s, a) && !Moves(s, a) && x in s.heap
    requires SetsInv(s, s.threads[a.t])
    ensures var th, th' := s.threads[a.t], NextThread(s, a);
      && (x in th.writes <==> x in th'.writes)
      && (x in th.writes ==> th'.writes[x] == th.writes[x])
  {
    if !Writes(a) && !a.Begin? && !a.GiveUp? {
      WritesKept(s, a);
    }
  }

  lemma CallbacksKept(s: State, a: Action)
    requires Enabled(s, a) && !a.Leave?
    requires var pc := s.threads[a.t].pc; pc.Storing? || pc.Publishing? || pc.Succeeding?
    ensures NextThread(s, a).cur == s.threads[a.t].cur
  {
  }

  lemma NeutralLanded(s: State, a: Action, x: Var)
    requires Enabled(s, a) && !Moves(s, a) && x in s.heap
    requires SetsInv(s, s.threads[a.t]) && PcInv(s, s.threads[a.t])
    ensures Landed(s.threads[a.t], x) <==> Landed(NextThread(s, a), x)
  {
    NeutralSets(s, a, x);
  }

  lemma NeutralUnborn(s: State, a: Action, x: Var)
    requires Enabled(s, a) && !Moves(s, a) && Unborn(NextThread(s, a))
    ensures Unborn(s.threads[a.t])
  {
  }

  lemma NeutralWrite(s: State, a: Action, x: Var)
    requires Enabled(s, a) && !Moves(s, a) && x in s.heap
    requires SetsInv(s, s.threads[a.t]) && PcInv(s, s.threads[a.t])
    ensures SameWrite(s.threads[a.t], NextThread(s, a), x)
  {
    NeutralSets(s, a, x);
    NeutralLanded(s, a, x);
    if Unborn(NextThread(s, a)) {
      NeutralUnborn(s, a, x);
    }
    if Landed(s.threads[a.t], x) {
      CallbacksKept(s, a);
    }
  }

  lemma NeutralCells(s: State, a: Action, x: Var)
    requires Enabled(s, a) && !Moves(s, a) && x in s.mem && x in s.heap
    ensures x in NextMem(s, a) && NextMem(s, a)[x].storage == s.mem[x].storage
  {
  }

  /** A bump brings into the world only storages that are current. */
  lemma BornAreCurrent(w: World, a: Action, v: Storage)
    requires TxEnabled(w, a) && a.BumpClock? && v in HeapWrites(w.stm, w.stm.threads[a.t])
    requires LocksInv(w.stm, a.t) && CellsInv(w.stm) && PlacesInv(w) && SetsInv(w.stm, w.stm.threads[a.t])
    ensures v in w.place && w.place[v].Current? && OwnerIs(w.stm, w.place[v].x, a.t)
  {
    var th := w.stm.threads[a.t];
    var x :| x in th.writes && x in w.stm.heap && th.writes[x] == v;
    assert Stored(th, x) && CellInv(w.stm, x);
    StoredIsCurrent(w, a.t, x);
    assert WritesPlaced(w, a.t);
  }

  lemma NeutralActor(w: World, a: Action, x: Var)
    requires TxEnabled(w, a) && !Moves(w.stm, a) && x in w.stm.heap && WritePlaced(w, a.t, x)
    requires SameWrite(w.stm.threads[a.t], NextThread(w.stm, a), x)
    ensures WritePlaced(TxWorld(w, a), a.t, x)
  {
    assert a.BumpClock? ==> !Unborn(NextThread(w.stm, a));
  }

  /** Another thread's view survives as long as its own storages stay put and unborn. */
  lemma OtherWrite(w: World, w': World, t: Tid, x: Var)
    requires t in w.stm.threads && t in w'.stm.threads && w'.stm.threads[t] == w.stm.threads[t]
    requires WritePlaced(w, t, x)
    requires forall v {:trigger w'.place[v]} | v in w.place
               && (w.place[v] == Pending(t, x) || w.place[v] == Replaced(t, x)) ::
               v in w'.place && w'.place[v] == w.place[v]
    requires forall v | v in w.place :: v in w'.place
    requires forall v | v in w.origin :: v in w'.origin && w'.origin[v] == w.origin[v]
    requires Unborn(w.stm.threads[t]) && x in w.stm.threads[t].writes ==>
               w.stm.threads[t].writes[x] !in w'.born
    ensures WritePlaced(w', t, x)
  {
  }

  lemma StaysUnborn(w: World, a: Action, t: Tid, x: Var)
    requires TxEnabled(w, a) && t in w.stm.threads && t != a.t && x in w.stm.heap
    requires Inv(w.stm) && PlacesInv(w)
    requires Unborn(w.stm.threads[t]) && x in w.stm.threads[t].writes
    ensures w.stm.threads[t].writes[x] !in TxWorld(w, a).born
  {
    var v := w.stm.threads[t].writes[x];
    assert WritesPlaced(w, t) && WritePlaced(w, t, x);
    assert ThreadInv(w.stm, t) && ThreadInv(w.stm, a.t);
    if a.BumpClock? && v in HeapWrites(w.stm, w.stm.threads[a.t]) {
      BornAreCurrent(w, a, v);
      assert CellInv(w.stm, x);
      StoredIsCurrent(w, t, x);
      assert false;
    }
  }

  lemma NeutralPlaceRight(w: World, a: Action, v: Storage)
    requires TxEnabled(w, a) && !Moves(w.stm, a) && v in w.place && PlaceRight(w, v)
    requires w.place[v].Pending? || w.place[v].Replaced? ==>
               w.place[v].t == a.t && w.place[v].x in w.stm.heap ==>
               SameWrite(w.stm.threads[a.t], NextThread(w.stm, a), w.place[v].x)
    requires w.stm.heap <= w.stm.mem.Keys
    requires a.BumpClock? && v in HeapWrites(w.stm, w.stm.threads[a.t]) ==> w.place[v].Current?
    ensures PlaceRight(TxWorld(w, a), v)
  {
    var w' := TxWorld(w, a);
    assert w'.place == w.place && w'.agents == w.agents;
    match w.place[v] {
      case Current(x) => NeutralCells(w.stm, a, x);
      case _ =>
    }
  }

  lemma NeutralRight(w: World, a: Action)
    requires TxEnabled(w, a) && !Moves(w.stm, a) && Inv(w.stm) && PlacesInv(w)
    ensures forall v | v in w.place :: PlaceRight(TxWorld(w, a), v)
  {
    assert ThreadInv(w.stm, a.t);
    forall v | v in w.place ensures PlaceRight(TxWorld(w, a), v) {
      assert PlaceRight(w, v);
      if a.BumpClock? && v in HeapWrites(w.stm, w.stm.threads[a.t]) {
        BornAreCurrent(w, a, v);
      }
      if w.place[v].Pending? || w.place[v].Replaced? {
        if w.place[v].t == a.t {
          NeutralWrite(w.stm, a, w.place[v].x);
        }
      }
      NeutralPlaceRight(w, a, v);
    }
  }

  lemma NeutralViews(w: World, a: Action, t: Tid)
    requires TxEnabled(w, a) && !Moves(w.stm, a) && Inv(w.stm) && PlacesInv(w) && t in w.stm.threads
    ensures WritesPlaced(TxWorld(w, a), t)
  {
    var w' := TxWorld(w, a);
    assert ThreadInv(w.stm, a.t) && WritesPlaced(w, t);
    forall x | x in w.stm.heap ensures WritePlaced(w', t, x) {
      assert WritePlaced(w, t, x);
      if t == a.t {
        NeutralWrite(w.stm, a, x);
        NeutralActor(w, a, x);
      } else {
        if Unborn(w.stm.threads[t]) && x in w.stm.threads[t].writes {
          StaysUnborn(w, a, t, x);
        }
        OtherWrite(w, w', t, x);
      }
    }
  }

  lemma NeutralPlaces(w: World, a: Action)
    requires TxEnabled(w, a) && !Moves(w.stm, a) && Inv(w.stm) && PlacesInv(w)
    ensures PlacesInv(TxWorld(w, a))
  {
    var w' := TxWorld(w, a);
    NeutralRight(w, a);
    forall x | x in w'.stm.mem ensures CellPlaced(w', x) {
      assert CellPlaced(w, x);
      if x in w.stm.heap {
        NeutralCells(w.stm, a, x);
      }
    }
    forall t | t in w'.stm.threads ensures WritesPlaced(w', t) {
      NeutralViews(w, a, t);
    }
    forall t | t in w'.agents ensures AgentPlaced(w', t) {
      assert AgentPlaced(w, t);
      NeutralAgent(w, a, t);
    }
    NeutralBirths(w, a);
  }

  lemma NeutralAgent(w: World, a: Action, t: Tid)
    requires TxEnabled(w, a) && !Moves(w.stm, a) && t in w.agents && AgentPlaced(w, t)
    ensures AgentPlaced(TxWorld(w, a), t)
  {
  }

  lemma NeutralBirths(w: World, a: Action)
    requires TxEnabled(w, a) && !Moves(w.stm, a) && Inv(w.stm) && PlacesInv(w)
    ensures TxWorld(w, a).born.Keys <= w.place.Keys
  {
    assert ThreadInv(w.stm, a.t);
    if a.BumpClock? {
      forall v | v in HeapWrites(w.stm, w.stm.threads[a.t]) ensures v in w.place {
        BornAreCurrent(w, a, v);
      }
    }
  }

  // ---------------------------------------------------------------- allocation

  function NewVar(w: World, a: Action): Var
    requires TxEnabled(w, a) && Allocates(w.stm, a)
  {
    if a.WriteFast? then a.x else w.stm.threads[a.t].pc.x
  }

  /** The write set gains one variable; its storage is the new one. */
  lemma AllocWrites(w: World, a: Action)
    requires TxEnabled(w, a) && Allocates(w.stm, a) && PcInv(w.stm, w.stm.threads[a.t])
    ensures var th, th', x := w.stm.threads[a.t], NextThread(w.stm, a), NewVar(w, a);
      && x in w.stm.heap && x !in th.writes && th'.writes == th.writes[x := w.next]
      && (forall y :: !Landed(th, y) && !Landed(th', y)) && Unborn(th) && Unborn(th')
      && NextMem(w.stm, a) == w.stm.mem && TxAgent(w, a) == w.agents[a.t]
      && !th'.pc.Failed? && !th.pc.Failed?
  {
  }

  lemma AllocRight(w: World, a: Action, v: Storage)
    requires TxEnabled(w, a) && Allocates(w.stm, a) && PcInv(w.stm, w.stm.threads[a.t])
    requires v in TxPlace(w, a) && (v in w.place ==> PlaceRight(w, v)) && w.next !in w.place
    requires w.next !in w.born
    ensures PlaceRight(TxWorld(w, a), v)
  {
    AllocWrites(w, a);
  }

  lemma AllocViews(w: World, a: Action, t: Tid, x: Var)
    requires TxEnabled(w, a) && Allocates(w.stm, a) && PcInv(w.stm, w.stm.threads[a.t])
    requires t in w.stm.threads && x in w.stm.heap && WritePlaced(w, t, x)
    requires w.next !in w.place && w.next !in w.born && w.origin.Keys == w.place.Keys
    ensures WritePlaced(TxWorld(w, a), t, x)
  {
    AllocWrites(w, a);
  }

  lemma AllocCells(w: World, a: Action)
    requires TxEnabled(w, a) && Allocates(w.stm, a) && PcInv(w.stm, w.stm.threads[a.t]) && PlacesInv(w)
    ensures forall x {:trigger CellPlaced(TxWorld(w, a), x)} | x in w.stm.mem :: CellPlaced(TxWorld(w, a), x)
  {
    AllocWrites(w, a);
    forall x | x in w.stm.mem ensures CellPlaced(TxWorld(w, a), x) {
      assert CellPlaced(w, x);
    }
  }

  lemma AllocAgents(w: World, a: Action)
    requires TxEnabled(w, a) && Allocates(w.stm, a) && PcInv(w.stm, w.stm.threads[a.t]) && PlacesInv(w)
    ensures forall t {:trigger AgentPlaced(TxWorld(w, a), t)} | t in w.agents :: AgentPlaced(TxWorld(w, a), t)
  {
    AllocWrites(w, a);
    forall t | t in w.agents ensures AgentPlaced(TxWorld(w, a), t) {
      assert AgentPlaced(w, t);
    }
  }

  lemma AllocPlaces(w: World, a: Action)
    requires TxEnabled(w, a) && Allocates(w.stm, a) && PcInv(w.stm, w.stm.threads[a.t]) && PlacesInv(w)
    ensures PlacesInv(TxWorld(w, a))
  {
    var w' := TxWorld(w, a);
    AllocWrites(w, a);
    forall v | v in w'.place ensures PlaceRight(w', v) {
      assert v in w.place ==> PlaceRight(w, v);
      AllocRight(w, a, v);
    }
    AllocAgents(w, a);
    AllocCells(w, a);
    forall t | t in w'.stm.threads ensures WritesPlaced(w', t) {
      assert WritesPlaced(w, t);
      forall x | x in w.stm.heap ensures WritePlaced(w', t, x) {
        assert WritePlaced(w, t, x);
        AllocViews(w, a, t, x);
      }
    }
  }

  // ---------------------------------------------------------------- storing

  /** Storing a pending write swaps it with what the success callback was told to free. */
  lemma StoreSwaps(w: World, a: Action)
    requires TxEnabled(w, a) && a.StoreOne? && a.x in w.stm.heap
    requires LocksInv(w.stm, a.t) && a.x in w.stm.mem && CellInv(w.stm, a.x)
    requires CellPlaced(w, a.x) && WritePlaced(w, a.t, a.x)
    ensures var th, th', was := w.stm.threads[a.t], NextThread(w.stm, a), w.stm.mem[a.x].storage;
      && was in w.place && w.place[was] == Current(a.x)
      && th.writes[a.x] in w.place && w.place[th.writes[a.x]] == Pending(a.t, a.x)
      && a.x in th.cur && th.cur[a.x] == was
      && Landed(th', a.x) && !Landed(th, a.x)
      && (forall y | y != a.x :: Landed(th, y) <==> Landed(th', y))
      && th'.writes == th.writes && th'.cur == th.cur && Unborn(th) && Unborn(th')
      && TxAgent(w, a) == w.agents[a.t]
  {
    assert Holds(w.stm.threads[a.t], a.x);
  }

  ghost predicate StoreReady(w: World, a: Action) {
    && TxEnabled(w, a) && a.StoreOne? && a.x in w.stm.heap
    && LocksInv(w.stm, a.t) && a.x in w.stm.mem && CellInv(w.stm, a.x)
    && CellPlaced(w, a.x) && WritePlaced(w, a.t, a.x)
  }

  lemma StoreRight(w: World, a: Action, v: Storage)
    requires StoreReady(w, a) && v in w.place && PlaceRight(w, v)
    ensures PlaceRight(TxWorld(w, a), v)
  {
    StoreSwaps(w, a);
  }

  lemma StoreViews(w: World, a: Action, t: Tid, x: Var)
    requires StoreReady(w, a) && t in w.stm.threads && x in w.stm.heap && WritePlaced(w, t, x)
    ensures WritePlaced(TxWorld(w, a), t, x)
  {
    StoreSwaps(w, a);
  }

  lemma StoreAgents(w: World, a: Action)
    requires StoreReady(w, a) && PlacesInv(w)
    ensures forall t {:trigger AgentPlaced(TxWorld(w, a), t)} | t in w.agents :: AgentPlaced(TxWorld(w, a), t)
  {
    StoreSwaps(w, a);
    forall t | t in w.agents ensures AgentPlaced(TxWorld(w, a), t) {
      assert AgentPlaced(w, t);
    }
  }

  lemma StoreCells(w: World, a: Action)
    requires StoreReady(w, a) && PlacesInv(w)
    ensures forall x {:trigger CellPlaced(TxWorld(w, a), x)} | x in w.stm.mem :: CellPlaced(TxWorld(w, a), x)
  {
    StoreSwaps(w, a);
    forall x | x in w.stm.mem ensures CellPlaced(TxWorld(w, a), x) {
      assert CellPlaced(w, x);
    }
  }

  lemma StorePlaces(w: World, a: Action)
    requires StoreReady(w, a) && PlacesInv(w)
    ensures PlacesInv(TxWorld(w, a))
  {
    var w' := TxWorld(w, a);
    forall v | v in w'.place ensures PlaceRight(w', v) {
      StoreSwaps(w, a);
      assert PlaceRight(w, v);
      StoreRight(w, a, v);
    }
    StoreAgents(w, a);
    StoreCells(w, a);
    forall t | t in w'.stm.threads ensures WritesPlaced(w', t) {
      assert WritesPlaced(w, t);
      forall x | x in w.stm.heap ensures WritePlaced(w', t, x) {
        assert WritePlaced(w, t, x);
        StoreViews(w, a, t, x);
      }
    }
    StoreSwaps(w, a);
  }

  // ---------------------------------------------------------------- leaving

  lemma FailedRight(w: World, a: Action, v: Storage)
    requires TxEnabled(w, a) && a.Leave? && w.stm.threads[a.t].pc.Failing? && v in w.place && PlaceRight(w, v)
    requires WritesPlaced(w, a.t) && AgentPlaced(w, a.t)
    ensures v in TxPlace(w, a) && PlaceRight(TxWorld(w, a), v)
  {
    PendingWrites(w, a);
    if v !in HeapWrites(w.stm, w.stm.threads[a.t]) {
      SparedRight(w, a, v);
    }
  }

  /** A failure leaves alone what is not in its write set. */
  lemma SparedRight(w: World, a: Action, v: Storage)
    requires TxEnabled(w, a) && a.Leave? && w.stm.threads[a.t].pc.Failing? && v in w.place && PlaceRight(w, v)
    requires AgentPlaced(w, a.t) && v !in HeapWrites(w.stm, w.stm.threads[a.t])
    ensures v in TxPlace(w, a) && PlaceRight(TxWorld(w, a), v)
  {
    assert TxPlace(w, a)[v] == w.place[v];
  }

  lemma SucceededRight(w: World, a: Action, v: Storage)
    requires TxEnabled(w, a) && a.Leave? && w.stm.threads[a.t].pc.Succeeding? && v in w.place && PlaceRight(w, v)
    ensures v in TxPlace(w, a) && PlaceRight(TxWorld(w, a), v)
  {
    var th, w' := w.stm.threads[a.t], TxWorld(w, a);
    if w.place[v].Replaced? && w.place[v].t == a.t {
      var n := |w.agents[a.t].queue|;
      assert w'.agents[a.t].queue[n] == Chunk(th.pc.sync, th.cur);
    } else if w.place[v].Queued? && w.place[v].t == a.t {
      assert w.agents[a.t].queue <= w'.agents[a.t].queue;
    }
  }

  /** After a failure the pending storages are doomed and nothing was replaced; after a success
      nothing is pending and everything replaced is queued. */
  lemma LeaveRight(w: World, a: Action, v: Storage)
    requires TxEnabled(w, a) && a.Leave? && v in w.place && PlaceRight(w, v)
    requires WritesPlaced(w, a.t) && AgentPlaced(w, a.t)
    ensures v in TxPlace(w, a) && PlaceRight(TxWorld(w, a), v)
  {
    if w.stm.threads[a.t].pc.Failing? {
      FailedRight(w, a, v);
    } else {
      SucceededRight(w, a, v);
    }
  }

  lemma PendingWrites(w: World, a: Action)
    requires TxEnabled(w, a) && a.Leave? && w.stm.threads[a.t].pc.Failing? && WritesPlaced(w, a.t)
    ensures forall v | v in HeapWrites(w.stm, w.stm.threads[a.t]) ::
              v in w.place && w.place[v].Pending? && w.place[v].t == a.t
  {
    var th := w.stm.threads[a.t];
    forall v | v in HeapWrites(w.stm, th) ensures v in w.place && w.place[v].Pending? && w.place[v].t == a.t {
      var y :| y in th.writes && y in w.stm.heap && th.writes[y] == v;
      assert WritePlaced(w, a.t, y);
    }
  }

  lemma LeaveViews(w: World, a: Action, t: Tid, x: Var)
    requires TxEnabled(w, a) && a.Leave? && WritesPlaced(w, a.t)
    requires t in w.stm.threads && x in w.stm.heap && WritePlaced(w, t, x)
    ensures WritePlaced(TxWorld(w, a), t, x)
  {
    if t != a.t && w.stm.threads[a.t].pc.Failing? {
      PendingWrites(w, a);
    }
  }

  lemma FailedAgent(w: World, a: Action)
    requires TxEnabled(w, a) && a.Leave? && w.stm.threads[a.t].pc.Failing?
    requires AgentPlaced(w, a.t)
    requires forall v | v in HeapWrites(w.stm, w.stm.threads[a.t]) :: v in w.place && w.place[v].Pending?
    ensures AgentPlaced(TxWorld(w, a), a.t)
  {
  }

  lemma SucceededAgent(w: World, a: Action)
    requires TxEnabled(w, a) && a.Leave? && w.stm.threads[a.t].pc.Succeeding?
    requires AgentPlaced(w, a.t)
    requires forall x | x in w.stm.threads[a.t].cur ::
               w.stm.threads[a.t].cur[x] in w.place && w.place[w.stm.threads[a.t].cur[x]] == Replaced(a.t, x)
    ensures AgentPlaced(TxWorld(w, a), a.t)
  {
  }

  lemma LeaveAgent(w: World, a: Action)
    requires TxEnabled(w, a) && a.Leave? && AgentPlaced(w, a.t) && WritesPlaced(w, a.t)
    requires SetsInv(w.stm, w.stm.threads[a.t])
    ensures AgentPlaced(TxWorld(w, a), a.t)
  {
    var th := w.stm.threads[a.t];
    if th.pc.Failing? {
      PendingWrites(w, a);
      FailedAgent(w, a);
    } else {
      forall x | x in th.cur ensures th.cur[x] in w.place && w.place[th.cur[x]] == Replaced(a.t, x) {
        assert WritePlaced(w, a.t, x) && Landed(th, x);
      }
      SucceededAgent(w, a);
    }
  }

  lemma LeaveOther(w: World, a: Action, t: Tid)
    requires TxEnabled(w, a) && a.Leave? && WritesPlaced(w, a.t)
    requires t in w.agents && t != a.t && AgentPlaced(w, t)
    ensures AgentPlaced(TxWorld(w, a), t)
  {
    if w.stm.threads[a.t].pc.Failing? {
      PendingWrites(w, a);
    }
  }

  lemma LeavePlaces(w: World, a: Action)
    requires TxEnabled(w, a) && a.Leave? && SetsInv(w.stm, w.stm.threads[a.t]) && PlacesInv(w)
    ensures PlacesInv(TxWorld(w, a))
  {
    var w' := TxWorld(w, a);
    assert WritesPlaced(w, a.t) && AgentPlaced(w, a.t);
    if w.stm.threads[a.t].pc.Failing? {
      PendingWrites(w, a);
    }
    assert w'.place.Keys == w.place.Keys;
    forall v | v in w'.place ensures PlaceRight(w', v) {
      assert PlaceRight(w, v);
      LeaveRight(w, a, v);
    }
    forall x | x in w'.stm.mem ensures CellPlaced(w', x) {
      assert CellPlaced(w, x);
    }
    forall t | t in w'.stm.threads ensures WritesPlaced(w', t) {
      assert WritesPlaced(w, t);
      forall x | x in w.stm.heap ensures WritePlaced(w', t, x) {
        assert WritePlaced(w, t, x);
        LeaveViews(w, a, t, x);
      }
    }
    forall t | t in w'.agents ensures AgentPlaced(w', t) {
      assert AgentPlaced(w, t);
      if t == a.t {
        LeaveAgent(w, a);
      } else {
        LeaveOther(w, a, t);
      }
    }
  }

  lemma TxPlaces(w: World, a: Action)
    requires TxEnabled(w, a) && Inv(w.stm) && PlacesInv(w)
    ensures PlacesInv(TxWorld(w, a))
  {
    assert ThreadInv(w.stm, a.t);
    if Allocates(w.stm, a) {
      AllocPlaces(w, a);
    } else if a.Leave? {
      LeavePlaces(w, a);
    } else if a.StoreOne? && a.x in w.stm.heap {
      assert CellInv(w.stm, a.x) && CellPlaced(w, a.x) && WritesPlaced(w, a.t) && WritePlaced(w, a.t, a.x);
      StorePlaces(w, a);
    } else {
      NeutralPlaces(w, a);
    }
  }
}
