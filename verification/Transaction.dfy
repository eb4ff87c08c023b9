/** One transaction's reads, writes and commit over its own sets, with nobody else moving: what the
    fast paths, the slow paths and the loops of the commit compute. */
module Transaction {
  import opened PodVector
  import opened Quiescence
  import opened WriteSet
  import Stm

  const LOCK_BIT := Stm.LOCK_BIT

  class Domain {
    var clock: Word

    constructor ()
      ensures clock == 0
    {
      clock := 0;
    }

    /** Returns the previous version. */
    method FetchAndBumpClock() returns (result: Word)
      modifies this
      ensures result == old(clock) && clock == old(clock) + Stm.BUMP_SIZE
    {
      result := clock;
      clock := clock + Stm.BUMP_SIZE;
    }
  }

  datatype Read = Value(storage: Storage) | ReadRetry

  /** A heap write either hands a new storage to the write set or assigns to the one pending. */
  datatype Written = Stored | Assigned(storage: Storage) | WriteRetry

  datatype Commit = Failed | Committed(sync: Word)

  /** The entries of a read set whose variable is not written, in order. */
  ghost function NotWritten(rs: seq<Var>, writes: map<Var, Storage>): seq<Var> {
    if rs == [] then []
    else NotWritten(rs[..|rs| - 1], writes)
         + if rs[|rs| - 1] in writes then [] else [rs[|rs| - 1]]
  }

  lemma {:induction false} NotWrittenIn(rs: seq<Var>, writes: map<Var, Storage>, v: Var)
    ensures v in NotWritten(rs, writes) <==> v in rs && v !in writes
  {
    if rs != [] {
      var n := |rs| - 1;
      NotWrittenIn(rs[..n], writes, v);
      assert rs == rs[..n] + [rs[n]];
    }
  }

  lemma {:induction false} NotWrittenAppend(a: seq<Var>, b: seq<Var>, writes: map<Var, Storage>)
    ensures NotWritten(a + b, writes) == NotWritten(a, writes) + NotWritten(b, writes)
    decreases |b|
  {
    if b == [] {
      assert a + b == a;
    } else {
      var n := |b| - 1;
      NotWrittenAppend(a, b[..n], writes);
      assert (a + b)[..|a + b| - 1] == a + b[..n];
    }
  }

  ghost function Dests(ws: seq<Entry>): set<Var> { set k | 0 <= k < |ws| :: ws[k].dest }

  ghost function Versions(ws: seq<Entry>): (r: seq<Word>)
    reads Dests(ws)
    ensures |r| == |ws| && forall k | 0 <= k < |ws| :: r[k] == ws[k].dest.version
  {
    seq(|ws|, k requires 0 <= k < |ws| reads Dests(ws) => ws[k].dest.version)
  }

  ghost function Storages(ws: seq<Entry>): (r: seq<Storage>)
    reads Dests(ws)
    ensures |r| == |ws| && forall k | 0 <= k < |ws| :: r[k] == ws[k].dest.storage
  {
    seq(|ws|, k requires 0 <= k < |ws| reads Dests(ws) => ws[k].dest.storage)
  }

  /** Exactly the entries of `rs` that are not written, in some order. */
  ghost predicate Left(left: seq<Var>, rs: seq<Var>, writes: map<Var, Storage>) {
    multiset(left) == multiset(NotWritten(rs, writes))
  }

  lemma LeftReads(left: seq<Var>, rs: seq<Var>, writes: map<Var, Storage>)
    requires Left(left, rs, writes)
    ensures forall v :: v in left <==> v in rs && v !in writes
  {
    forall v ensures v in left <==> v in rs && v !in writes {
      NotWrittenIn(rs, writes, v);
      assert v in left <==> v in multiset(left);
      assert v in NotWritten(rs, writes) <==> v in multiset(NotWritten(rs, writes));
    }
  }

  lemma LeftStep(now: seq<Var>, was: seq<Var>, i: nat, tail: seq<Var>, writes: map<Var, Storage>)
    requires i < |was| && now == was[..i + 1] + tail && Left(tail, was[i + 1..], writes)
    ensures i < |now| && now[i] == was[i]
    ensures was[i] !in writes ==> now == was[..i] + ([was[i]] + tail) && Left([was[i]] + tail, was[i..], writes)
    ensures was[i] in writes ==> Erased(now, i) == was[..i] + Rotated(tail) && Left(Rotated(tail), was[i..], writes)
  {
    NotWrittenFirst(was, i, writes);
    assert now == was[..i] + [was[i]] + tail;
    if was[i] in writes {
      ErasedBetween(was[..i], was[i], tail);
      RotatedSame(tail);
    }
  }

  lemma NotWrittenFirst(was: seq<Var>, i: nat, writes: map<Var, Storage>)
    requires i < |was|
    ensures NotWritten(was[i..], writes)
         == (if was[i] in writes then [] else [was[i]]) + NotWritten(was[i + 1..], writes)
    ensures was[..i + 1] == was[..i] + [was[i]]
  {
    NotWrittenAppend([was[i]], was[i + 1..], writes);
    assert was[i..] == [was[i]] + was[i + 1..];
    assert NotWritten([was[i]][..0], writes) == [];
  }

  /** The first `n` of these versions with the lock bit set. */
  ghost function LockPrefix(vs: seq<Word>, n: nat): (r: seq<Word>)
    ensures |r| == |vs| && forall k | 0 <= k < |vs| :: r[k] == if k < n then Stm.AsLocked(vs[k]) else vs[k]
  {
    seq(|vs|, k requires 0 <= k < |vs| => if k < n then Stm.AsLocked(vs[k]) else vs[k])
  }

  ghost predicate AllValid(vs: seq<Word>, version: Word) {
    forall k | 0 <= k < |vs| :: vs[k] <= version
  }

  /** Every read that is not also written is of a variable still valid. */
  ghost predicate ReadsValid(rs: seq<Var>, writes: map<Var, Storage>, version: Word)
    reads rs
  {
    forall v | v in rs && v !in writes :: v.version <= version
  }

  /** On the bits of a 64-bit word: what `as_locked` sets, the exclusive or of `unlock` clears. */
  lemma UnlockRestores(word: bv64)
    ensures var bit: bv64 := 0x8000_0000_0000_0000;
      word < bit ==> bit <= (word | bit) && (word | bit) ^ bit == word
  {
  }

  /** The buffers that a transaction's writes register callbacks in. */
  class Callbacks {
    const failCallbacks: PodVector<Callback>
    const succCallbacks: QuiescenceBuffer
    ghost var onFail: seq<Callback>
    ghost var onSuccess: seq<Callback>
    ghost var queued: seq<Chunk>

    ghost function Repr(): set<object>
      reads this, failCallbacks, succCallbacks
    {
      {this, failCallbacks, failCallbacks.buffer, succCallbacks, succCallbacks.buffer}
    }

    /** `onFail` and `onSuccess` are this transaction's callbacks, `queued` those of earlier ones. */
    ghost predicate Valid()
      reads this, failCallbacks, failCallbacks.buffer, succCallbacks, succCallbacks.buffer
    {
      && failCallbacks.Valid() && failCallbacks.Contents() == onFail
      && succCallbacks.Valid() && succCallbacks.working == onSuccess && succCallbacks.chunks == queued
    }

    constructor ()
      ensures Valid() && onFail == [] && onSuccess == [] && queued == [] && fresh(Repr())
    {
      failCallbacks := new PodVector(Other(0));
      succCallbacks := new QuiescenceBuffer(1024);
      onFail, onSuccess, queued := [], [], [];
    }

    predicate AllocateOnNextPush()
      requires Valid()
      reads this, failCallbacks, failCallbacks.buffer, succCallbacks, succCallbacks.buffer
    {
      failCallbacks.AllocatesOnNextPush() || succCallbacks.AllocatesOnNextPush()
    }

    method Add(success: Callback, fail: Callback)
      requires Valid()
      modifies Repr()
      ensures Valid() && queued == old(queued) && fresh(Repr() - old(Repr()))
      ensures onFail == old(onFail) + [fail] && onSuccess == old(onSuccess) + [success]
    {
      succCallbacks.EmplaceBack(success);
      failCallbacks.EmplaceBack(fail);
      onFail, onSuccess := onFail + [fail], onSuccess + [success];
    }

    method AddUnchecked(success: Callback, fail: Callback)
      requires Valid() && !AllocateOnNextPush()
      modifies Repr()
      ensures Valid() && queued == old(queued) && fresh(Repr() - old(Repr()))
      ensures onFail == old(onFail) + [fail] && onSuccess == old(onSuccess) + [success]
    {
      failCallbacks.UncheckedEmplaceBack(fail);
      succCallbacks.UncheckedEmplaceBack(success);
      onFail, onSuccess := onFail + [fail], onSuccess + [success];
    }
  }

  class Transaction {
    const version: Word
    const readSet: PodVector<Var>
    const writeSet: PodHashSet
    const callbacks: Callbacks

    ghost predicate Valid()
      reads this, readSet, readSet.buffer, writeSet, writeSet.data, writeSet.data.buffer
    {
      version < LOCK_BIT && readSet.Valid() && writeSet.Valid()
    }

    constructor (version: Word, filler: Var)
      requires version < LOCK_BIT
      ensures Valid() && this.version == version
      ensures readSet.Contents() == [] && writeSet.Contents() == []
      ensures callbacks.Valid() && callbacks.onFail == [] == callbacks.onSuccess && fresh(callbacks.Repr())
      ensures fresh(readSet) && fresh(readSet.buffer)
      ensures fresh(writeSet) && fresh(writeSet.data) && fresh(writeSet.data.buffer)
    {
      this.version := version;
      readSet := new PodVector(filler);
      writeSet := new PodHashSet(Entry(filler, 0));
      callbacks := new Callbacks();
    }

    predicate RwValid(v: Var)
      reads v
    {
      v.version <= version
    }

    // ---------------------------------------------------------------- reads

    method RwReadSlowPath(v: Var) returns (r: Read)
      requires Valid()
      modifies readSet, readSet.buffer
      ensures Valid() && (readSet.buffer == old(readSet.buffer) || fresh(readSet.buffer))
      ensures r == if !RwValid(v) then ReadRetry
                   else Value(if v in writeSet.Pending() then writeSet.Pending()[v] else v.storage)
      ensures readSet.Contents() == old(readSet.Contents())
                                    + if RwValid(v) && v !in writeSet.Pending() then [v] else []
    {
      var iter := writeSet.Find(v);
      if iter == writeSet.data.end {
        var result := v.storage;
        if RwValid(v) {
          readSet.EmplaceBack(v);
          return Value(result);
        }
      } else if RwValid(v) {
        AsMapAt(writeSet.Contents(), iter);
        return Value(writeSet.data.buffer[iter].pending);
      }
      return ReadRetry;
    }

    /** A tracked read: the pending write if there is one, else what is in memory; the entry in the
        read set is made exactly in the second case. */
    method RwRead(v: Var) returns (r: Read)
      requires Valid()
      modifies readSet, readSet.buffer
      ensures Valid() && (readSet.buffer == old(readSet.buffer) || fresh(readSet.buffer))
      ensures r == if !RwValid(v) then ReadRetry
                   else Value(if v in writeSet.Pending() then writeSet.Pending()[v] else v.storage)
      ensures readSet.Contents() == old(readSet.Contents())
                                    + if RwValid(v) && v !in writeSet.Pending() then [v] else []
    {
      if !readSet.AllocatesOnNextPush() && writeSet.filter & v.hash == 0 {
        writeSet.FilterRejects(v);
        var result := v.storage;
        if RwValid(v) {
          readSet.UncheckedEmplaceBack(v);
          return Value(result);
        }
      }
      r := RwReadSlowPath(v);
    }

    // ---------------------------------------------------------------- writes

    /** The callback buffers share nothing with the sets and the variables. */
    lemma Apart(v: Var)
      ensures callbacks.Repr() !! {v, this, writeSet, writeSet.data, writeSet.data.buffer, readSet, readSet.buffer}
    {
    }

    method AddWriteSet(v: Var, storage: Storage, hash: bv64)
      requires Valid() && callbacks.Valid() && hash == v.hash != 0 && v !in writeSet.Pending()
      modifies writeSet`filter, writeSet.data, writeSet.data.buffer
      ensures Valid() && (writeSet.data.buffer == old(writeSet.data.buffer) || fresh(writeSet.data.buffer))
      ensures writeSet.Pending() == old(writeSet.Pending())[v := storage] && callbacks.Valid()
    {
      Apart(v);
      writeSet.PushBack(v, storage, hash);
    }

    method AddWriteSetUnchecked(v: Var, storage: Storage, hash: bv64)
      requires Valid() && callbacks.Valid() && hash == v.hash != 0 && v !in writeSet.Pending()
      requires !writeSet.data.AllocatesOnNextPush()
      modifies writeSet`filter, writeSet.data`end, writeSet.data.buffer
      ensures Valid() && writeSet.Pending() == old(writeSet.Pending())[v := storage]
      ensures callbacks.Valid() && callbacks.AllocateOnNextPush() == old(callbacks.AllocateOnNextPush())
    {
      Apart(v);
      writeSet.UncheckedPushBack(v, storage, hash);
    }

    /** The replaced storage is destroyed after a success, the new one after a failure. */
    method AddCallbacks(v: Var, curStorage: Storage, newStorage: Storage, checked: bool)
      requires Valid() && callbacks.Valid() && (checked || !callbacks.AllocateOnNextPush())
      modifies callbacks.Repr()
      ensures Valid() && writeSet.Pending() == old(writeSet.Pending()) && unchanged(v)
      ensures callbacks.Valid() && callbacks.queued == old(callbacks.queued)
      ensures fresh(callbacks.Repr() - old(callbacks.Repr()))
      ensures callbacks.onFail == old(callbacks.onFail) + [Destroy(newStorage)]
      ensures callbacks.onSuccess == old(callbacks.onSuccess) + [Destroy(curStorage)]
    {
      Apart(v);
      if checked {
        callbacks.Add(Destroy(curStorage), Destroy(newStorage));
      } else {
        callbacks.AddUnchecked(Destroy(curStorage), Destroy(newStorage));
      }
    }

    method RwWriteSlowPath(v: Var, storage: Storage) returns (r: Written)
      requires Valid() && callbacks.Valid() && v.hash != 0 && !v.atomic
      modifies writeSet`filter, writeSet.data, writeSet.data.buffer
      modifies callbacks.Repr()
      ensures Valid() && (writeSet.data.buffer == old(writeSet.data.buffer) || fresh(writeSet.data.buffer))
      ensures r == if !RwValid(v) then WriteRetry
                   else if v in old(writeSet.Pending()) then Assigned(old(writeSet.Pending())[v]) else Stored
      ensures writeSet.Pending() == if r.Stored? then old(writeSet.Pending())[v := storage] else old(writeSet.Pending())
      ensures callbacks.Valid() && callbacks.queued == old(callbacks.queued)
      ensures fresh(callbacks.Repr() - old(callbacks.Repr()))
      ensures callbacks.onFail == old(callbacks.onFail) + if r.Stored? then [Destroy(storage)] else []
      ensures callbacks.onSuccess == old(callbacks.onSuccess) + if r.Stored? then [Destroy(v.storage)] else []
    {
      Apart(v);
      var lookup := writeSet.LookUp(v);
      if lookup.Missing? {
        var curStorage := v.storage;
        if RwValid(v) {
          AddWriteSet(v, storage, lookup.hash);
          AddCallbacks(v, curStorage, storage, true);
          return Stored;
        }
      } else if RwValid(v) {
        return Assigned(writeSet.data.buffer[lookup.index].pending);
      }
      return WriteRetry;
    }

    /** A write to a heap variable.  The first write hands `storage` to the write set, queues the
        current storage to be freed on success and the new one to be freed on failure. */
    method RwWrite(v: Var, storage: Storage) returns (r: Written)
      requires Valid() && callbacks.Valid() && v.hash != 0 && !v.atomic
      modifies writeSet`filter, writeSet.data, writeSet.data.buffer
      modifies callbacks.Repr()
      ensures Valid() && (writeSet.data.buffer == old(writeSet.data.buffer) || fresh(writeSet.data.buffer))
      ensures r == if !RwValid(v) then WriteRetry
                   else if v in old(writeSet.Pending()) then Assigned(old(writeSet.Pending())[v]) else Stored
      ensures writeSet.Pending() == if r.Stored? then old(writeSet.Pending())[v := storage] else old(writeSet.Pending())
      ensures callbacks.Valid() && callbacks.queued == old(callbacks.queued)
      ensures fresh(callbacks.Repr() - old(callbacks.Repr()))
      ensures callbacks.onFail == old(callbacks.onFail) + if r.Stored? then [Destroy(storage)] else []
      ensures callbacks.onSuccess == old(callbacks.onSuccess) + if r.Stored? then [Destroy(v.storage)] else []
    {
      if writeSet.data.AllocatesOnNextPush() || writeSet.filter & v.hash != 0
         || callbacks.AllocateOnNextPush() || !RwValid(v) {
        r := RwWriteSlowPath(v, storage);
      } else {
        Apart(v);
        writeSet.FilterRejects(v);
        AddWriteSetUnchecked(v, storage, v.hash);
        var curStorage := v.storage;
        AddCallbacks(v, curStorage, storage, false);
        r := Stored;
      }
    }

    method RwAtomicWriteSlowPath(v: Var, storage: Storage) returns (ok: bool)
      requires Valid() && v.hash != 0 && v.atomic
      modifies writeSet`filter, writeSet.data, writeSet.data.buffer
      ensures Valid() && (writeSet.data.buffer == old(writeSet.data.buffer) || fresh(writeSet.data.buffer))
      ensures ok <==> RwValid(v)
      ensures writeSet.Pending() == old(writeSet.Pending())[v := storage]
    {
      var lookup := writeSet.LookUp(v);
      if lookup.Missing? {
        writeSet.PushBack(v, storage, lookup.hash);
      } else {
        writeSet.SetPending(lookup.index, storage);
      }
      ok := RwValid(v);
    }

    /** A write to an `atomic` variable: the pending value is replaced either way, the transaction
        is retried if the variable is not valid. */
    method RwAtomicWrite(v: Var, storage: Storage) returns (ok: bool)
      requires Valid() && v.hash != 0 && v.atomic
      modifies writeSet`filter, writeSet.data, writeSet.data.buffer
      ensures Valid() && (writeSet.data.buffer == old(writeSet.data.buffer) || fresh(writeSet.data.buffer))
      ensures ok <==> RwValid(v)
      ensures writeSet.Pending() == old(writeSet.Pending())[v := storage]
    {
      if writeSet.data.AllocatesOnNextPush() || writeSet.filter & v.hash != 0 || !RwValid(v) {
        ok := RwAtomicWriteSlowPath(v, storage);
      } else {
        writeSet.FilterRejects(v);
        writeSet.UncheckedPushBack(v, storage, v.hash);
        ok := true;
      }
    }

    // ---------------------------------------------------------------- commit

    /** Erasing in place while walking backwards drops exactly the entries that are also written,
        duplicates included, although each erased entry's place is taken by the last. */
    method RemoveWritesFromReads()
      requires Valid()
      modifies readSet`end, readSet.buffer
      ensures Valid() && Left(readSet.Contents(), old(readSet.Contents()), writeSet.Pending())
    {
      ghost var was, tail := readSet.Contents(), [];
      var readIter: nat := readSet.end;
      assert was[..readIter] + tail == was && was[readIter..] == [];
      while readIter != 0
        invariant Valid() && readIter <= |was|
        invariant readSet.Contents() == was[..readIter] + tail
        invariant Left(tail, was[readIter..], writeSet.Pending())
      {
        readIter := readIter - 1;
        tail := RemoveIfWritten(readIter, was, tail);
      }
      assert was[..0] + tail == tail && was[0..] == was;
    }

    /** One round of the loop: `tail` is what is left of the entries behind `i`. */
    method RemoveIfWritten(i: nat, ghost was: seq<Var>, ghost tail: seq<Var>) returns (ghost tail': seq<Var>)
      requires Valid() && i < |was| && readSet.Contents() == was[..i + 1] + tail
      requires Left(tail, was[i + 1..], writeSet.Pending())
      modifies readSet`end, readSet.buffer
      ensures Valid() && readSet.Contents() == was[..i] + tail'
      ensures Left(tail', was[i..], writeSet.Pending())
    {
      ghost var writes := writeSet.Pending();
      LeftStep(readSet.Contents(), was, i, tail, writes);
      var found := writeSet.Find(readSet.Contents()[i]);
      if found != writeSet.data.end {
        readSet.UnorderedErase(i);
        tail' := Rotated(tail);
      } else {
        tail' := [was[i]] + tail;
      }
      assert Left(tail', was[i..], writes) && writeSet.Pending() == writes;
    }

    method Lock(v: Var) returns (ok: bool)
      requires version < LOCK_BIT
      modifies v`version
      ensures ok <==> old(v.version) <= version
      ensures v.version == if ok then Stm.AsLocked(old(v.version)) else old(v.version)
    {
      var versionBuf := v.version;
      if versionBuf <= version {
        v.version := Stm.AsLocked(versionBuf);
        return true;
      }
      return false;
    }

    static method Unlock(v: Var)
      requires Stm.Locked(v.version)
      modifies v`version
      ensures v.version == old(v.version) - LOCK_BIT
    {
      v.version := Stm.FlipLock(v.version);
    }

    /** Releases the first `n` locks: every version is what it was before. */
    static method UnlockWriteSet(ws: seq<Entry>, n: nat, ghost vs: seq<Word>)
      requires NoDuplicates(ws) && n <= |ws| && |vs| == |ws| && Versions(ws) == LockPrefix(vs, n)
      requires forall k | 0 <= k < n :: !Stm.Locked(vs[k])
      modifies Dests(ws)`version
      ensures Versions(ws) == vs
    {
      var i := 0;
      while i < n
        invariant i <= n
        invariant forall k | 0 <= k < |ws| ::
                    ws[k].dest.version == if i <= k < n then Stm.AsLocked(vs[k]) else vs[k]
      {
        assert ws[i].dest in Dests(ws);
        Unlock(ws[i].dest);
        i := i + 1;
      }
    }

    /** The versions are `vs`, the first `n` of them locked. */
    static ghost predicate LockedTo(ws: seq<Entry>, n: nat, vs: seq<Word>)
      requires |vs| == |ws|
      reads Dests(ws)
    {
      forall k | 0 <= k < |ws| :: ws[k].dest.version == if k < n then Stm.AsLocked(vs[k]) else vs[k]
    }

    /** One round of the loop: takes the next lock, or releases those taken before. */
    method LockNext(ws: seq<Entry>, i: nat, ghost vs: seq<Word>) returns (ok: bool)
      requires NoDuplicates(ws) && i < |ws| == |vs| && LockedTo(ws, i, vs)
      requires version < LOCK_BIT && forall k | 0 <= k < i :: vs[k] <= version
      modifies Dests(ws)`version
      ensures ok <==> vs[i] <= version
      ensures LockedTo(ws, if ok then i + 1 else 0, vs)
    {
      assert ws[i].dest in Dests(ws);
      ok := Lock(ws[i].dest);
      if !ok {
        assert Versions(ws) == LockPrefix(vs, i);
        UnlockWriteSet(ws, i, vs);
      }
    }

    /** Takes every lock, or finds one that cannot be taken and leaves all versions as they were. */
    method LockWrites(ws: seq<Entry>) returns (ok: bool)
      requires NoDuplicates(ws) && version < LOCK_BIT
      modifies Dests(ws)`version
      ensures ok <==> AllValid(old(Versions(ws)), version)
      ensures Versions(ws) == if ok then LockPrefix(old(Versions(ws)), |ws|) else old(Versions(ws))
    {
      ghost var vs := Versions(ws);
      var i := 0;
      while i < |ws|
        invariant i <= |ws| && LockedTo(ws, i, vs) && (forall k | 0 <= k < i :: vs[k] <= version)
      {
        ok := LockNext(ws, i, vs);
        if !ok {
          assert Versions(ws) == vs;
          return;
        }
        i := i + 1;
      }
      assert Versions(ws) == LockPrefix(vs, |ws|);
      return true;
    }

    /** Looks at every tracked read that is not written; a failure releases every lock. */
    method ValidateReads(rs: seq<Var>, ws: seq<Entry>, ghost vs: seq<Word>) returns (ok: bool)
      requires NoDuplicates(ws) && |vs| == |ws| && Versions(ws) == LockPrefix(vs, |ws|)
      requires forall k | 0 <= k < |vs| :: !Stm.Locked(vs[k])
      modifies Dests(ws)`version
      ensures ok <==> forall v | v in rs :: old(v.version) <= version
      ensures Versions(ws) == if ok then old(Versions(ws)) else vs
    {
      var i := 0;
      while i < |rs|
        invariant i <= |rs| && forall k | 0 <= k < i :: rs[k].version <= version
      {
        if !RwValid(rs[i]) {
          UnlockWriteSet(ws, |ws|, vs);
          return false;
        }
        i := i + 1;
      }
      return true;
    }

    static method DoWrites(ws: seq<Entry>)
      requires NoDuplicates(ws)
      modifies Dests(ws)`storage
      ensures forall k | 0 <= k < |ws| :: ws[k].dest.storage == ws[k].pending
    {
      var i := 0;
      while i < |ws|
        invariant i <= |ws| && forall k | 0 <= k < i :: ws[k].dest.storage == ws[k].pending
      {
        assert ws[i].dest in Dests(ws);
        ws[i].dest.storage := ws[i].pending;
        i := i + 1;
      }
    }

    static method Publish(ws: seq<Entry>, writeVersion: Word)
      requires NoDuplicates(ws)
      modifies Dests(ws)`version
      ensures forall k | 0 <= k < |ws| :: ws[k].dest.version == writeVersion
    {
      var i := 0;
      while i < |ws|
        invariant i <= |ws| && forall k | 0 <= k < i :: ws[k].dest.version == writeVersion
      {
        assert ws[i].dest in Dests(ws);
        ws[i].dest.version := writeVersion;
        i := i + 1;
      }
    }

    /** What a commit does to memory once the read set holds no variable that is written. */
    method SlowPath(rs: seq<Var>, ws: seq<Entry>, domain: Domain) returns (r: Commit)
      requires NoDuplicates(ws) && version < LOCK_BIT && forall v | v in rs :: v !in Dests(ws)
      modifies domain, Dests(ws)`version, Dests(ws)`storage
      ensures r.Committed? <==>
                AllValid(old(Versions(ws)), version) && forall v | v in rs :: old(v.version) <= version
      ensures r.Failed? ==> Unchanged(ws, domain, old(Versions(ws)), old(Storages(ws)), old(domain.clock))
      ensures r.Committed? ==> r.sync == old(domain.clock) && Installed(ws, domain, r.sync)
    {
      ghost var vs := Versions(ws);
      var ok := LockWrites(ws);
      if !ok {
        return Failed;
      }
      assert forall v | v in rs :: v.version == old(v.version);
      ok := ValidateReads(rs, ws, vs);
      if !ok {
        assert exists v :: v in rs && old(v.version) > version;
        return Failed;
      }
      var sync := Install(ws, domain);
      return Committed(sync);
    }

    /** Stores every pending write, bumps the clock and publishes the new version. */
    static method Install(ws: seq<Entry>, domain: Domain) returns (sync: Word)
      requires NoDuplicates(ws)
      modifies domain, Dests(ws)`version, Dests(ws)`storage
      ensures sync == old(domain.clock) && Installed(ws, domain, sync)
    {
      DoWrites(ws);
      sync := domain.FetchAndBumpClock();
      Publish(ws, sync + Stm.BUMP_SIZE);
    }

    static ghost predicate Unchanged(ws: seq<Entry>, domain: Domain, vs: seq<Word>, ss: seq<Storage>, clock: Word)
      reads domain, Dests(ws)
    {
      domain.clock == clock && Versions(ws) == vs && Storages(ws) == ss
    }

    /** Every pending write is in memory under the one version after `sync`. */
    static ghost predicate Installed(ws: seq<Entry>, domain: Domain, sync: Word)
      reads domain, Dests(ws)
    {
      && domain.clock == sync + 1
      && forall k | 0 <= k < |ws| :: ws[k].dest.storage == ws[k].pending && ws[k].dest.version == sync + 1
    }

    /** The reads left after removing those that are also written. */
    method ReadsToCheck() returns (left: seq<Var>)
      requires Valid()
      modifies readSet`end, readSet.buffer
      ensures Valid() && writeSet.Contents() == old(writeSet.Contents())
      ensures forall v | v in left :: v !in writeSet.Pending()
      ensures (forall v | v in left :: v.version <= version)
           <==> old(ReadsValid(readSet.Contents(), writeSet.Pending(), version))
    {
      ghost var rs, writes := readSet.Contents(), writeSet.Pending();
      RemoveWritesFromReads();
      left := readSet.Contents();
      assert writeSet.Contents() == old(writeSet.Contents());
      LeftReads(left, rs, writes);
    }

    static lemma NotAmong(left: seq<Var>, ws: seq<Entry>)
      requires forall v | v in left :: v !in AsMap(ws)
      ensures forall v | v in left :: v !in Dests(ws)
    {
      AsMapDests(ws);
    }

    /** Alone, a commit succeeds exactly if every variable written and every other variable read is
        valid.  It installs all its writes under one new version or changes nothing at all. */
    method TryCommit(domain: Domain) returns (r: Commit)
      requires Valid()
      modifies domain, Dests(writeSet.Contents())`version, Dests(writeSet.Contents())`storage
      modifies readSet`end, readSet.buffer
      ensures Valid() && writeSet.Contents() == old(writeSet.Contents())
      ensures r.Committed? <==>
                || old(writeSet.Contents()) == []
                || (AllValid(old(Versions(writeSet.Contents())), version)
                    && old(ReadsValid(readSet.Contents(), writeSet.Pending(), version)))
      ensures r.Failed? || old(writeSet.Contents()) == [] ==>
                Unchanged(old(writeSet.Contents()), domain, old(Versions(writeSet.Contents())),
                          old(Storages(writeSet.Contents())), old(domain.clock))
      ensures r.Committed? ==>
                if old(writeSet.Contents()) == [] then r.sync == 0
                else r.sync == old(domain.clock) && Installed(old(writeSet.Contents()), domain, r.sync)
    {
      var ws := writeSet.Contents();
      if ws == [] {
        return Committed(0);
      }
      ghost var vs, ss := Versions(ws), Storages(ws);
      ghost var readsValid := ReadsValid(readSet.Contents(), writeSet.Pending(), version);
      var left := ReadsToCheck();
      NotAmong(left, ws);
      assert Versions(ws) == vs && Storages(ws) == ss;
      label Removed:
      r := SlowPath(left, ws, domain);
      assert r.Committed? <==> AllValid(vs, version) && readsValid;
      assert old@Removed(Valid()) == Valid();
      assert old@Removed(writeSet.Contents()) == writeSet.Contents();
    }

    static lemma AsMapDests(ws: seq<Entry>)
      ensures AsMap(ws).Keys == Dests(ws)
    {
      forall v ensures v in AsMap(ws) <==> v in Dests(ws) {
        AsMapKeys(ws, v);
      }
    }
  }
}
