/** The store of pre-serialized response payloads, with its per-name invalidation
    generations and its serialization counter. */
module ResponseStore {
  import opened Basics
  import opened CacheKeys
  import opened MapSums

  type Bytes = string

  datatype Payload = Payload(designPbBytes: Bytes, designJson: Bytes, fileModelJson: Bytes) {
    function TotalBytes(): nat {
      |designPbBytes| + |designJson| + |fileModelJson|
    }
  }

  datatype JsonKind = DesignJson | FileModelJson

  datatype Store = Store(entries: map<Name, Payload>, gens: map<Name, nat>, serializations: nat)

  const EMPTY: Store := Store(map[], map[], 0)

  function Gen(s: Store, n: Name): nat {
    if n in s.gens then s.gens[n] else 0
  }

  function StoredBytes(s: Store, n: Name): nat {
    if n in s.entries then s.entries[n].TotalBytes() else 0
  }

  /** Keep a payload if the generation it was captured under is still current. */
  function Put(s: Store, n: Name, g: nat, p: Payload): Store {
    if g != Gen(s, n) || n in s.entries then s
    else s.(entries := s.entries[n := p], serializations := s.serializations + 1)
  }

  function Drop(s: Store, n: Name): Store {
    s.(entries := s.entries - {n}, gens := s.gens[n := Gen(s, n) + 1])
  }

  function Wipe(s: Store): Store {
    s.(entries := map[], gens := map[])
  }

  ghost function Sizes(s: Store): map<Name, int> {
    map n | n in s.entries ::
      |s.entries[n].designPbBytes| + |s.entries[n].designJson| + |s.entries[n].fileModelJson|
  }

  class Responses {
    var entries: map<Name, Payload>
    var generations: map<Name, nat>
    var serializations: nat

    function View(): Store
      reads this
    {
      Store(entries, generations, serializations)
    }

    constructor ()
      ensures View() == EMPTY
    {
      entries, generations, serializations := map[], map[], 0;
    }

    method TryGetDesignBytes(n: Name) returns (r: Option<Bytes>)
      ensures r.Some? <==> n in entries && entries[n].designPbBytes != []
      ensures r.Some? ==> r.value == entries[n].designPbBytes
    {
      if n !in entries || entries[n].designPbBytes == [] {
        return None;
      }
      return Some(entries[n].designPbBytes);
    }

    method TryGetJsonPayload(n: Name, kind: JsonKind) returns (r: Option<Bytes>)
      ensures r.Some? ==> n in entries && r.value != []
      ensures n in entries && kind.DesignJson? ==>
                r == if entries[n].designJson == [] then None else Some(entries[n].designJson)
      ensures n in entries && kind.FileModelJson? ==>
                r == if entries[n].fileModelJson == [] then None else Some(entries[n].fileModelJson)
    {
      if n !in entries {
        return None;
      }
      var json := if kind.DesignJson? then entries[n].designJson else entries[n].fileModelJson;
      if json == [] {
        return None;
      }
      return Some(json);
    }

    /** The total over all names, whatever order the names are visited in. */
    method TotalStoredBytes() returns (total: nat)
      ensures total == Sum(Sizes(View()))
    {
      total := 0;
      var left := entries;
      ghost var sizes := Sizes(View());
      while left != map[]
        invariant left.Keys <= entries.Keys && forall n :: n in left ==> left[n] == entries[n]
        invariant sizes == Sizes(View())
        invariant Sum(sizes) == total + Sum(Sizes(Store(left, generations, serializations)))
        decreases |left|
      {
        var n :| n in left;
        ghost var before := Sizes(Store(left, generations, serializations));
        SumRemove(before, n);
        total := total + left[n].TotalBytes();
        left := left - {n};
        assert before - {n} == Sizes(Store(left, generations, serializations));
      }
      assert Sizes(Store(left, generations, serializations)) == map[];
    }

    /** Stored means the payload held for the name is current, not that it is this one. */
    method TryStore(n: Name, generation: nat, payload: Payload) returns (stored: bool, storedBytes: nat)
      modifies this
      ensures View() == Put(old(View()), n, generation, payload)
      ensures stored == (generation == Gen(old(View()), n))
      ensures storedBytes == if stored then StoredBytes(View(), n) else 0
    {
      var current := if n in generations then generations[n] else 0;
      if generation != current {
        return false, 0;
      }
      if n in entries {
        return true, entries[n].TotalBytes();
      }
      entries := entries[n := payload];
      serializations := serializations + 1;
      return true, payload.TotalBytes();
    }

    method Invalidate(n: Name) returns (dropped: nat)
      modifies this
      ensures View() == Drop(old(View()), n)
      ensures dropped == StoredBytes(old(View()), n)
    {
      dropped := 0;
      if n in entries {
        dropped := entries[n].TotalBytes();
        entries := entries - {n};
      }
      generations := generations[n := (if n in generations then generations[n] else 0) + 1];
    }

    /** The counter survives: it counts work done, not work kept. */
    method Clear()
      modifies this
      ensures View() == Wipe(old(View()))
      ensures serializations == old(serializations)
    {
      entries := map[];
      generations := map[];
    }
  }

  // ---- whole runs ----

  datatype Op = TryStore(n: Name, g: nat, p: Payload) | Invalidate(n: Name) | Clear

  function Apply(s: Store, o: Op): Store {
    match o
    case TryStore(n, g, p) => Put(s, n, g, p)
    case Invalidate(n) => Drop(s, n)
    case Clear => Wipe(s)
  }

  ghost predicate Run(tr: seq<Store>, os: seq<Op>) {
    && |tr| == |os| + 1
    && tr[0] == EMPTY
    && forall i :: 0 <= i < |os| ==> tr[i+1] == Apply(tr[i], os[i])
  }

  ghost predicate ClearFree(os: seq<Op>) {
    forall i :: 0 <= i < |os| ==> !os[i].Clear?
  }

  /** Some operation in [i, j) invalidates the name. */
  ghost predicate InvalidatedBetween(os: seq<Op>, n: Name, i: nat, j: nat) {
    exists k :: i <= k < j && k < |os| && os[k] == Invalidate(n)
  }

  /** Generations never decrease, and one moves exactly when its name is invalidated. */
  lemma {:induction false} GenerationsOnlyRise(tr: seq<Store>, os: seq<Op>, n: Name, i: nat, j: nat)
    requires Run(tr, os) && ClearFree(os) && i <= j < |tr|
    ensures Gen(tr[i], n) <= Gen(tr[j], n)
    ensures Gen(tr[i], n) == Gen(tr[j], n) <==> !InvalidatedBetween(os, n, i, j)
    decreases j
  {
    if i < j {
      GenerationsOnlyRise(tr, os, n, i, j - 1);
      if InvalidatedBetween(os, n, i, j - 1) {
        var k :| i <= k < j - 1 && k < |os| && os[k] == Invalidate(n);
        assert InvalidatedBetween(os, n, i, j);
      } else if os[j-1] == Invalidate(n) {
        assert InvalidatedBetween(os, n, i, j);
      }
    }
  }

  /** A commit that captured its generation at time i and stores at time j succeeds
      exactly when its name was not invalidated in between; then the store holds a
      payload for the name. */
  lemma StoreSucceedsIffNotInvalidated(tr: seq<Store>, os: seq<Op>, n: Name, i: nat, j: nat, p: Payload)
    requires Run(tr, os) && ClearFree(os) && i <= j < |os| && os[j] == TryStore(n, Gen(tr[i], n), p)
    ensures Gen(tr[i], n) == Gen(tr[j], n) <==> !InvalidatedBetween(os, n, i, j)
    ensures !InvalidatedBetween(os, n, i, j) ==> n in tr[j+1].entries
    ensures InvalidatedBetween(os, n, i, j) ==> tr[j+1] == tr[j]
  {
    GenerationsOnlyRise(tr, os, n, i, j);
  }

  /** Step i builds and keeps a new payload for the name. */
  ghost predicate Counts(tr: seq<Store>, os: seq<Op>, i: nat, n: Name) {
    i < |os| && i + 1 < |tr| && os[i].TryStore? && os[i].n == n && tr[i+1].serializations > tr[i].serializations
  }

  /** Once stored, a payload is held until its generation is over. */
  lemma {:induction false} HeldOrSuperseded(tr: seq<Store>, os: seq<Op>, n: Name, i: nat, j: nat)
    requires Run(tr, os) && ClearFree(os) && i <= j < |tr| && n in tr[i].entries
    ensures n in tr[j].entries || Gen(tr[j], n) > Gen(tr[i], n)
    decreases j
  {
    if i < j {
      HeldOrSuperseded(tr, os, n, i, j - 1);
      GenerationsOnlyRise(tr, os, n, i, j - 1);
    }
  }

  /** However many committers race, the counter rises at most once per name and
      generation. */
  lemma OneSerializationPerGeneration(tr: seq<Store>, os: seq<Op>, n: Name, i: nat, j: nat)
    requires Run(tr, os) && ClearFree(os) && i < j && Counts(tr, os, i, n) && Counts(tr, os, j, n)
    ensures Gen(tr[i], n) < Gen(tr[j], n)
  {
    GenerationsOnlyRise(tr, os, n, i, i + 1);
    HeldOrSuperseded(tr, os, n, i + 1, j);
  }

  /** The counter rises by one exactly when a payload is kept for a name that had none, and
      what is kept then is the payload offered. */
  lemma CounterCountsNewPayloads(tr: seq<Store>, os: seq<Op>, i: nat)
    requires Run(tr, os) && i < |os|
    ensures tr[i+1].serializations == tr[i].serializations +
            if os[i].TryStore? && os[i].n !in tr[i].entries && os[i].n in tr[i+1].entries then 1 else 0
    ensures os[i].TryStore? && os[i].n !in tr[i].entries && os[i].n in tr[i+1].entries ==>
              tr[i+1].entries[os[i].n] == os[i].p
    ensures os[i].TryStore? && os[i].n in tr[i].entries ==> tr[i+1] == tr[i]
    ensures os[i].Invalidate? ==> tr[i+1].entries == tr[i].entries - {os[i].n}
  {
    assert tr[i+1] == Apply(tr[i], os[i]);
  }

  /** Without the Clear-free hypothesis the generation alone is not enough: Clear resets
      it, and a commit captured before an invalidation is then accepted. */
  lemma ClearForgetsInvalidations(n: Name, p: Payload)
    ensures var os := [Invalidate(n), Clear, TryStore(n, 0, p)];
      var s1 := Apply(EMPTY, os[0]); var s2 := Apply(s1, os[1]); var s3 := Apply(s2, os[2]);
      Run([EMPTY, s1, s2, s3], os) && InvalidatedBetween(os, n, 0, 2) && s3.entries == map[n := p]
  {
    var os := [Invalidate(n), Clear, TryStore(n, 0, p)];
    assert os[0] == Invalidate(n);
  }
}
