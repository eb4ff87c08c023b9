/** The write set: a list of pending writes in front of which a 64-bit filter answers most
    lookups. */
module WriteSet {
  import opened PodVector

  type Storage = nat
  type Word = nat

  /** log2 of the alignment of a variable. */
  const SHIFT: bv64 := 3

  /** One bit, chosen by the address. */
  function DumbReferenceHash(address: bv64): (hash: bv64)
    ensures hash != 0 && hash & (hash - 1) == 0
  {
    OneBit((address >> SHIFT) & 63)
  }

  function OneBit(i: bv64): (hash: bv64)
    requires i < 64
    ensures hash != 0 && hash & (hash - 1) == 0
  {
    1 << i
  }

  /** A transactional variable, with the hash of its address.  Variables that are not `atomic` keep
      their value on the heap. */
  class Var {
    const hash: bv64
    const atomic: bool
    var version: Word
    var storage: Storage

    constructor (address: bv64, atomic: bool, storage: Storage)
      ensures hash == DumbReferenceHash(address) && hash != 0
      ensures this.atomic == atomic && version == 0 && this.storage == storage
    {
      this.hash, this.atomic, version, this.storage := DumbReferenceHash(address), atomic, 0, storage;
    }
  }

  datatype Entry = Entry(dest: Var, pending: Storage)

  // ---------------------------------------------------------------- what a list of entries means

  ghost predicate NoDuplicates(s: seq<Entry>) {
    forall j, k | 0 <= j < k < |s| :: s[j].dest != s[k].dest
  }

  /** The pending writes by variable. */
  ghost function AsMap(s: seq<Entry>): map<Var, Storage> {
    if s == [] then map[] else AsMap(s[..|s| - 1])[s[|s| - 1].dest := s[|s| - 1].pending]
  }

  lemma {:induction false} AsMapKeys(s: seq<Entry>, v: Var)
    ensures v in AsMap(s) <==> exists k :: 0 <= k < |s| && s[k].dest == v
  {
    if s != [] {
      AsMapKeys(s[..|s| - 1], v);
      assert forall k | 0 <= k < |s| - 1 :: s[..|s| - 1][k] == s[k];
    }
  }

  lemma {:induction false} AsMapAt(s: seq<Entry>, k: nat)
    requires NoDuplicates(s) && k < |s|
    ensures s[k].dest in AsMap(s) && AsMap(s)[s[k].dest] == s[k].pending
    decreases |s|
  {
    var n := |s| - 1;
    if k < n {
      AsMapAt(s[..n], k);
    }
  }

  lemma AsMapPush(s: seq<Entry>, e: Entry)
    ensures AsMap(s + [e]) == AsMap(s)[e.dest := e.pending]
  {
    assert (s + [e])[..|s|] == s;
  }

  lemma {:induction false} AsMapUpdate(s: seq<Entry>, k: nat, pending: Storage)
    requires NoDuplicates(s) && k < |s|
    ensures AsMap(s[k := Entry(s[k].dest, pending)]) == AsMap(s)[s[k].dest := pending]
    decreases |s|
  {
    var n := |s| - 1;
    var s' := s[k := Entry(s[k].dest, pending)];
    if k == n {
      assert s'[..n] == s[..n];
    } else {
      AsMapUpdate(s[..n], k, pending);
      assert s'[..n] == s[..n][k := Entry(s[k].dest, pending)];
      Commute(AsMap(s[..n]), s[k].dest, pending, s[n].dest, s[n].pending);
    }
  }

  lemma Commute(m: map<Var, Storage>, a: Var, x: Storage, b: Var, y: Storage)
    requires a != b
    ensures m[a := x][b := y] == m[b := y][a := x]
  {
  }

  // ---------------------------------------------------------------- the write set

  /** `write_set_lookup`: the place of the pending write, or the hash to insert one with. */
  datatype Lookup = Found(index: nat) | Missing(hash: bv64)

  predicate HasBits(filter: bv64, hash: bv64) { filter & hash == hash }

  lemma BitsStay(filter: bv64, hash: bv64, h: bv64)
    requires HasBits(filter, h)
    ensures HasBits(filter | hash, h)
  {
  }

  lemma OwnBits(filter: bv64, hash: bv64)
    ensures HasBits(filter | hash, hash)
  {
  }

  class PodHashSet {
    var filter: bv64
    const data: PodVector<Entry>

    /** The filter has the bit of every variable in the set. */
    ghost predicate Covers(s: seq<Entry>, bits: bv64) {
      forall k | 0 <= k < |s| :: s[k].dest.hash != 0 && HasBits(bits, s[k].dest.hash)
    }

    ghost predicate Valid()
      reads this, data, data.buffer
    {
      && data.Valid() && NoDuplicates(data.Contents()) && Covers(data.Contents(), filter)
    }

    function Contents(): seq<Entry>
      requires data.Valid()
      reads this, data, data.buffer
    {
      data.Contents()
    }

    ghost function Pending(): map<Var, Storage>
      requires data.Valid()
      reads this, data, data.buffer
    {
      AsMap(data.Contents())
    }

    constructor (filler: Entry)
      ensures Valid() && fresh(data) && fresh(data.buffer) && Contents() == []
    {
      filter := 0;
      data := new PodVector(filler);
    }

    predicate Empty()
      reads this, data
    {
      data.Empty()
    }

    method Clear()
      requires Valid()
      modifies this`filter, data`end
      ensures Valid() && Contents() == []
    {
      filter := 0;
      data.Clear();
    }

    /** The position of `v`, or the end. */
    method FindImpl(v: Var) returns (result: nat)
      requires Valid()
      ensures result <= |Contents()|
      ensures result < |Contents()| <==> v in Pending()
      ensures result < |Contents()| ==> Contents()[result].dest == v
    {
      AsMapKeys(Contents(), v);
      result := 0;
      while result != data.end && data.buffer[result].dest != v
        invariant result <= data.end
        invariant forall k | 0 <= k < result :: Contents()[k].dest != v
      {
        result := result + 1;
      }
    }

    /** A variable whose bit is not in the filter is not in the set. */
    lemma FilterRejects(v: Var)
      requires Valid() && filter & v.hash == 0
      ensures v !in Pending()
    {
      assert forall k | 0 <= k < |Contents()| :: HasBits(filter, Contents()[k].dest.hash);
      AsMapKeys(Contents(), v);
    }

    /** `find`: the filter's answer agrees with the search. */
    method Find(v: Var) returns (result: nat)
      requires Valid()
      ensures result <= |Contents()|
      ensures result < |Contents()| <==> v in Pending()
      ensures result < |Contents()| ==> Contents()[result].dest == v
    {
      if filter & v.hash == 0 {
        FilterRejects(v);
        return data.end;
      }
      result := FindImpl(v);
    }

    method LookUp(v: Var) returns (r: Lookup)
      requires Valid()
      ensures r.Found? <==> v in Pending()
      ensures r.Found? ==> r.index < |Contents()| && Contents()[r.index] == Entry(v, Pending()[v])
      ensures r.Missing? ==> r.hash == v.hash
    {
      var hash := v.hash;
      if filter & hash == 0 {
        FilterRejects(v);
        return Missing(hash);
      }
      var index := FindImpl(v);
      if index != data.end {
        AsMapAt(Contents(), index);
        return Found(index);
      }
      return Missing(hash);
    }

    lemma PushCovers(s: seq<Entry>, e: Entry, bits: bv64)
      requires Covers(s, bits) && e.dest.hash != 0
      ensures Covers(s + [e], bits | e.dest.hash)
    {
      forall k | 0 <= k < |s| ensures HasBits(bits | e.dest.hash, s[k].dest.hash) {
        BitsStay(bits, e.dest.hash, s[k].dest.hash);
      }
      OwnBits(bits, e.dest.hash);
    }

    lemma PushKeeps(v: Var, pending: Storage)
      requires Valid() && v !in Pending() && v.hash != 0
      ensures var s := Contents() + [Entry(v, pending)];
        && NoDuplicates(s) && Covers(s, filter | v.hash)
        && AsMap(s) == Pending()[v := pending]
    {
      var s := Contents() + [Entry(v, pending)];
      AsMapPush(Contents(), Entry(v, pending));
      AsMapKeys(Contents(), v);
      PushCovers(Contents(), Entry(v, pending), filter);
    }

    method PushBack(v: Var, pending: Storage, hash: bv64)
      requires Valid() && hash == v.hash != 0 && v !in Pending()
      modifies this`filter, data, data.buffer
      ensures Valid() && Contents() == old(Contents()) + [Entry(v, pending)]
      ensures Pending() == old(Pending())[v := pending]
      ensures data.buffer == old(data.buffer) || fresh(data.buffer)
    {
      PushKeeps(v, pending);
      filter := filter | hash;
      data.EmplaceBack(Entry(v, pending));
    }

    method UncheckedPushBack(v: Var, pending: Storage, hash: bv64)
      requires Valid() && hash == v.hash != 0 && v !in Pending() && !data.AllocatesOnNextPush()
      modifies this`filter, data`end, data.buffer
      ensures Valid() && Contents() == old(Contents()) + [Entry(v, pending)]
      ensures Pending() == old(Pending())[v := pending]
    {
      PushKeeps(v, pending);
      filter := filter | hash;
      data.UncheckedEmplaceBack(Entry(v, pending));
    }

    /** Overwrites the pending write a lookup found. */
    method SetPending(index: nat, pending: Storage)
      requires Valid() && index < |Contents()|
      modifies data.buffer
      ensures Valid() && Pending() == old(Pending())[old(Contents())[index].dest := pending]
      ensures Contents() == old(Contents())[index := Entry(old(Contents())[index].dest, pending)]
    {
      AsMapUpdate(Contents(), index, pending);
      data.Set(index, Entry(data.buffer[index].dest, pending));
    }
  }
}
