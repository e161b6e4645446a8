/** The byte-budget LRU bookkeeping: one entry per name, a 64-bit total, and eviction. */
module LruLedger {
  import opened CacheKeys
  import opened MapSums

  const TWO64: int := 0x1_0000_0000_0000_0000
  const TWO63: int := 0x8000_0000_0000_0000

  type U64 = x: int | 0 <= x < TWO64

  /** time_point::max(), the initial value of the victim search. */
  const TIME_MAX: int := 0x7fff_ffff_ffff_ffff

  const DESIGN_BYTES_OVERHEAD: U64 := 4096

  function Wrap(x: int): U64 {
    x % TWO64
  }

  /** Reinterpretation of a 64-bit word as two's complement. */
  function Signed(x: U64): int {
    if x < TWO63 then x else x - TWO64
  }

  datatype LruEntry = LruEntry(estimated: U64, serialized: U64, lastServed: int)

  datatype Ledger = Ledger(entries: map<Name, LruEntry>, cached: U64, maxBytes: U64)

  // ---- the critical sections on the LRU mutex ----

  function Touch(l: Ledger, n: Name, now: int): Ledger {
    if n in l.entries then l.(entries := l.entries[n := l.entries[n].(lastServed := now)]) else l
  }

  /** Replace an entry's estimate, moving the total by the signed difference. */
  function Reestimate(l: Ledger, n: Name, base: U64): Ledger
    requires n in l.entries
  {
    var e := l.entries[n];
    l.(entries := l.entries[n := e.(estimated := base)],
       cached := Wrap(Signed(l.cached) + (Signed(base) - Signed(e.estimated))))
  }

  /** bytes is the estimate read before the lock was taken, stored the payload bytes read
      under it; in a race the difference may wrap. */
  function Charge(l: Ledger, n: Name, bytes: U64, stored: U64, now: int): Ledger {
    if n in l.entries then Reestimate(Touch(l, n, now), n, Wrap(bytes - stored))
    else l.(entries := l.entries[n := LruEntry(bytes, 0, now)], cached := Wrap(l.cached + bytes))
  }

  function Resync(l: Ledger, n: Name, bytes: U64, stored: U64): Ledger {
    if n in l.entries then Reestimate(l, n, Wrap(bytes - stored)) else l
  }

  function ChargePayload(l: Ledger, n: Name, stored: U64): Ledger
    requires n in l.entries
  {
    var e := l.entries[n];
    l.(entries := l.entries[n := e.(serialized := stored)], cached := Wrap(l.cached + Wrap(stored - e.serialized)))
  }

  function AdjustPayload(l: Ledger, n: Name, stored: U64): Ledger {
    if n !in l.entries || stored == l.entries[n].serialized then l
    else
      var e := l.entries[n];
      l.(entries := l.entries[n := e.(serialized := stored)], cached := Wrap(l.cached - Wrap(e.serialized - stored)))
  }

  function Remove(l: Ledger, n: Name): Ledger
    requires n in l.entries
  {
    var e := l.entries[n];
    l.(entries := l.entries - {n}, cached := Wrap(l.cached - Wrap(e.estimated + e.serialized)))
  }

  function Reset(l: Ledger): Ledger {
    l.(entries := map[], cached := 0)
  }

  // ---- conservation ----

  ghost function Weights(es: map<Name, LruEntry>): map<Name, int> {
    map n | n in es :: es[n].estimated + es[n].serialized
  }

  /** What the entries really add up to, in the integers. */
  ghost function Total(l: Ledger): int {
    Sum(Weights(l.entries))
  }

  /** The stored total is the real one modulo 2^64. */
  ghost predicate Balanced(l: Ledger) {
    l.cached == Wrap(Total(l))
  }

  lemma WrapCongruent(a: int, b: int, k: int)
    requires a == b + k * TWO64
    ensures Wrap(a) == Wrap(b)
  {
  }

  lemma WrapSum(a: int, b: int)
    ensures Wrap(Wrap(a) + b) == Wrap(a + b)
    ensures Wrap(Wrap(a) + Wrap(b)) == Wrap(a + b)
    ensures Wrap(Wrap(a) - Wrap(b)) == Wrap(a - b)
  {
    WrapCongruent(a + b, Wrap(a) + b, a / TWO64);
    WrapCongruent(a + b, Wrap(a) + Wrap(b), a / TWO64 + b / TWO64);
    WrapCongruent(a - b, Wrap(a) - Wrap(b), a / TWO64 - b / TWO64);
  }

  lemma SetWeight(es: map<Name, LruEntry>, n: Name, e: LruEntry)
    ensures Sum(Weights(es[n := e])) ==
      Sum(Weights(es)) + (e.estimated + e.serialized) - (if n in es then es[n].estimated + es[n].serialized else 0)
  {
    SumSet(Weights(es), n, e.estimated + e.serialized);
    assert Weights(es[n := e]) == Weights(es)[n := e.estimated + e.serialized];
  }

  lemma TouchBalanced(l: Ledger, n: Name, now: int)
    requires Balanced(l)
    ensures Balanced(Touch(l, n, now)) && Total(Touch(l, n, now)) == Total(l)
  {
    if n in l.entries {
      SetWeight(l.entries, n, l.entries[n].(lastServed := now));
    }
  }

  lemma SignedWrap(c: U64, b: U64, e: U64)
    ensures Wrap(Signed(c) + (Signed(b) - Signed(e))) == Wrap(c + b - e)
  {
    var k := (if c < TWO63 then 0 else 1) + (if b < TWO63 then 0 else 1) - (if e < TWO63 then 0 else 1);
    WrapCongruent(c + b - e, Signed(c) + (Signed(b) - Signed(e)), k);
  }

  lemma ReestimateBalanced(l: Ledger, n: Name, base: U64)
    requires Balanced(l) && n in l.entries
    ensures Balanced(Reestimate(l, n, base))
    ensures Total(Reestimate(l, n, base)) == Total(l) + base - l.entries[n].estimated
  {
    var e := l.entries[n];
    SetWeight(l.entries, n, e.(estimated := base));
    SignedWrap(l.cached, base, e.estimated);
    WrapSum(Total(l), base - e.estimated);
  }

  lemma ChargeBalanced(l: Ledger, n: Name, bytes: U64, stored: U64, now: int)
    requires Balanced(l)
    ensures Balanced(Charge(l, n, bytes, stored, now))
    ensures Total(Charge(l, n, bytes, stored, now)) ==
      Total(l) + (if n in l.entries then Wrap(bytes - stored) - l.entries[n].estimated else bytes)
  {
    if n in l.entries {
      TouchBalanced(l, n, now);
      ReestimateBalanced(Touch(l, n, now), n, Wrap(bytes - stored));
    } else {
      SetWeight(l.entries, n, LruEntry(bytes, 0, now));
      WrapSum(Total(l), bytes);
    }
  }

  lemma PayloadBalanced(l: Ledger, n: Name, stored: U64)
    requires Balanced(l) && n in l.entries
    ensures Balanced(ChargePayload(l, n, stored))
    ensures Total(ChargePayload(l, n, stored)) == Total(l) + stored - l.entries[n].serialized
  {
    var e := l.entries[n];
    SetWeight(l.entries, n, e.(serialized := stored));
    WrapSum(Total(l), stored - e.serialized);
  }

  lemma AdjustBalanced(l: Ledger, n: Name, stored: U64)
    requires Balanced(l) && n in l.entries
    ensures Balanced(AdjustPayload(l, n, stored))
    ensures Total(AdjustPayload(l, n, stored)) == Total(l) + stored - l.entries[n].serialized
  {
    var e := l.entries[n];
    SetWeight(l.entries, n, e.(serialized := stored));
    WrapSum(Total(l), e.serialized - stored);
  }

  lemma RemoveBalanced(l: Ledger, n: Name)
    requires Balanced(l) && n in l.entries
    ensures Balanced(Remove(l, n))
    ensures Total(Remove(l, n)) == Total(l) - (l.entries[n].estimated + l.entries[n].serialized)
  {
    var e := l.entries[n];
    SumRemove(Weights(l.entries), n);
    assert Weights(l.entries - {n}) == Weights(l.entries) - {n};
    WrapSum(Total(l), e.estimated + e.serialized);
  }

  /** The real total is never negative and bounds every entry. */
  lemma TotalBounds(l: Ledger)
    ensures Total(l) >= 0
    ensures forall n :: n in l.entries ==> l.entries[n].estimated + l.entries[n].serialized <= Total(l)
  {
    SumNonNegative(Weights(l.entries));
    assert forall n :: n in l.entries ==> Weights(l.entries)[n] == l.entries[n].estimated + l.entries[n].serialized;
  }

  // ---- eviction ----

  /** A victim is never the protected name, never Loading, and has been served. */
  predicate Evictable(es: map<Name, LruEntry>, n: Name, protected: Name, loading: set<Name>) {
    n in es && n != protected && n !in loading && es[n].lastServed < TIME_MAX
  }

  ghost predicate Oldest(es: map<Name, LruEntry>, n: Name, protected: Name, loading: set<Name>) {
    && Evictable(es, n, protected, loading)
    && forall u :: Evictable(es, u, protected, loading) ==> es[n].lastServed <= es[u].lastServed
  }

  predicate Over(l: Ledger) {
    l.maxBytes != 0 && l.cached > l.maxBytes
  }

  /** Removing the victims one by one, each the oldest evictable entry while over budget. */
  ghost predicate Removing(l: Ledger, victims: seq<Name>, protected: Name, loading: set<Name>)
    decreases |victims|
  {
    victims == [] ||
    (&& Over(l) && Oldest(l.entries, victims[0], protected, loading)
     && Removing(Remove(l, victims[0]), victims[1..], protected, loading))
  }

  function RemoveAll(l: Ledger, victims: seq<Name>): Ledger
    decreases |victims|
  {
    if victims == [] then l
    else RemoveAll(if victims[0] in l.entries then Remove(l, victims[0]) else l, victims[1..])
  }

  ghost predicate NothingToEvict(l: Ledger, protected: Name, loading: set<Name>) {
    forall n :: !Evictable(l.entries, n, protected, loading)
  }

  /** victims is what one complete eviction pass removes, in order, from ledger l while
      the given names are Loading. */
  ghost predicate Pass(l: Ledger, victims: seq<Name>, protected: Name, loading: set<Name>) {
    && Removing(l, victims, protected, loading)
    && (!Over(RemoveAll(l, victims)) || NothingToEvict(RemoveAll(l, victims), protected, loading))
  }

  lemma {:induction false} OneMore(l: Ledger, victims: seq<Name>, v: Name, protected: Name, loading: set<Name>)
    requires Removing(l, victims, protected, loading)
    requires var t := RemoveAll(l, victims); Over(t) && Oldest(t.entries, v, protected, loading)
    ensures Removing(l, victims + [v], protected, loading)
    ensures RemoveAll(l, victims + [v]) == Remove(RemoveAll(l, victims), v)
    decreases |victims|
  {
    if victims == [] {
      assert [v][1..] == [];
    } else {
      OneMore(Remove(l, victims[0]), victims[1..], v, protected, loading);
      assert (victims + [v])[1..] == victims[1..] + [v];
    }
  }

  lemma {:induction false} OldestExists(
    es: map<Name, LruEntry>, names: set<Name>, protected: Name, loading: set<Name>) returns (v: Name)
    requires names != {} && names <= es.Keys && forall n :: n in names ==> Evictable(es, n, protected, loading)
    ensures v in names && forall n :: n in names ==> es[v].lastServed <= es[n].lastServed
    decreases names
  {
    var n :| n in names;
    if names == {n} {
      return n;
    }
    v := OldestExists(es, names - {n}, protected, loading);
    if es[n].lastServed < es[v].lastServed {
      v := n;
    }
  }

  /** Every ledger has a complete eviction pass, whatever its budget. */
  lemma {:induction false} PassExists(l: Ledger, protected: Name, loading: set<Name>) returns (victims: seq<Name>)
    ensures Pass(l, victims, protected, loading)
    decreases |l.entries|
  {
    var evictable := set n | n in l.entries && Evictable(l.entries, n, protected, loading);
    if !Over(l) || evictable == {} {
      assert forall n :: Evictable(l.entries, n, protected, loading) ==> n in evictable;
      return [];
    }
    var v := OldestExists(l.entries, evictable, protected, loading);
    assert Oldest(l.entries, v, protected, loading);
    var rest := PassExists(Remove(l, v), protected, loading);
    victims := [v] + rest;
    assert victims[1..] == rest;
  }

  /** What a pass leaves: exactly the entries it did not name; and it kept the balance. */
  lemma {:induction false} PassRemoves(l: Ledger, victims: seq<Name>, protected: Name, loading: set<Name>)
    requires Pass(l, victims, protected, loading)
    ensures var t := RemoveAll(l, victims);
      && t.maxBytes == l.maxBytes
      && (forall n :: n in t.entries <==> n in l.entries && n !in victims)
      && (forall n :: n in t.entries ==> t.entries[n] == l.entries[n])
      && (Balanced(l) ==> Balanced(t))
    ensures forall n :: n in victims ==> Evictable(l.entries, n, protected, loading)
    ensures forall n :: n in victims ==> n in l.entries && n != protected && n !in loading
    decreases |victims|
  {
    if victims != [] {
      var u := Remove(l, victims[0]);
      PassRemoves(u, victims[1..], protected, loading);
      if Balanced(l) {
        RemoveBalanced(l, victims[0]);
      }
      assert forall n :: n in victims <==> n == victims[0] || n in victims[1..];
    }
  }

  /** Victims leave oldest first, no name leaves twice, and whatever evictable name
      remains was served no earlier than any victim. */
  lemma {:induction false} PassIsLeastRecentFirst(l: Ledger, victims: seq<Name>, protected: Name, loading: set<Name>)
    requires Pass(l, victims, protected, loading)
    ensures forall i :: 0 <= i < |victims| ==> victims[i] in l.entries
    ensures forall i, j :: 0 <= i < j < |victims| ==>
              victims[i] != victims[j] && l.entries[victims[i]].lastServed <= l.entries[victims[j]].lastServed
    ensures forall i, n :: 0 <= i < |victims| && n !in victims && Evictable(l.entries, n, protected, loading) ==>
              l.entries[victims[i]].lastServed <= l.entries[n].lastServed
    decreases |victims|
  {
    if victims != [] {
      var u, rest := Remove(l, victims[0]), victims[1..];
      PassIsLeastRecentFirst(u, rest, protected, loading);
      PassRemoves(u, rest, protected, loading);
      forall i | 0 <= i < |victims|
        ensures victims[i] in l.entries && Evictable(l.entries, victims[i], protected, loading)
      {
        assert i == 0 || victims[i] == rest[i-1];
      }
      forall i, j | 0 <= i < j < |victims|
        ensures victims[i] != victims[j] && l.entries[victims[i]].lastServed <= l.entries[victims[j]].lastServed
      {
        assert victims[j] == rest[j-1] && (i == 0 || victims[i] == rest[i-1]);
      }
      forall i, n | 0 <= i < |victims| && n !in victims && Evictable(l.entries, n, protected, loading)
        ensures l.entries[victims[i]].lastServed <= l.entries[n].lastServed
      {
        assert Evictable(u.entries, n, protected, loading);
        assert i == 0 || victims[i] == rest[i-1];
      }
    }
  }

  /** The total is exact, not just modulo 2^64. */
  ghost predicate Exact(l: Ledger) {
    l.cached == Total(l)
  }

  lemma LeftAfterPass(l: Ledger, victims: seq<Name>, protected: Name, loading: set<Name>)
    requires Pass(l, victims, protected, loading)
    ensures var t := RemoveAll(l, victims);
      || t.maxBytes == 0 || t.cached <= t.maxBytes
      || forall n :: n in t.entries ==> n == protected || n in loading || t.entries[n].lastServed >= TIME_MAX
  {
    var t := RemoveAll(l, victims);
    if Over(t) {
      forall n | n in t.entries
        ensures n == protected || n in loading || t.entries[n].lastServed >= TIME_MAX
      {
        assert !Evictable(t.entries, n, protected, loading);
      }
    }
  }

  lemma {:induction false} PassStaysExact(l: Ledger, victims: seq<Name>, protected: Name, loading: set<Name>, k: nat)
    requires Exact(l) && Removing(l, victims, protected, loading) && k <= |victims|
    ensures var t := RemoveAll(l, victims[..k]);
      && Exact(t)
      && (k < |victims| ==>
            && t.maxBytes != 0 && t.cached > t.maxBytes && victims[k] in t.entries
            && t.entries[victims[k]].estimated + t.entries[victims[k]].serialized <= t.cached)
    decreases |victims|
  {
    if k == 0 {
      TotalBounds(l);
      assert victims[..0] == [];
    } else {
      var u, rest := Remove(l, victims[0]), victims[1..];
      RemovedIsExact(l, victims[0]);
      PassStaysExact(u, rest, protected, loading, k - 1);
      assert victims[..k] == [victims[0]] + rest[..k-1];
      assert RemoveAll(l, victims[..k]) == RemoveAll(u, rest[..k-1]);
    }
  }

  lemma RemovedIsExact(l: Ledger, n: Name)
    requires Exact(l) && n in l.entries
    ensures Exact(Remove(l, n))
  {
    RemoveBalanced(l, n);
    TotalBounds(l);
    TotalBounds(Remove(l, n));
  }

  /** With exact accounting no subtraction of the pass wraps, every removal happened
      while over budget, and at the end the total is exact and within budget, or nothing
      evictable is left. */
  lemma PassIsExact(l: Ledger, victims: seq<Name>, protected: Name, loading: set<Name>, k: nat)
    requires Exact(l) && Pass(l, victims, protected, loading) && k <= |victims|
    ensures var t := RemoveAll(l, victims[..k]);
      && Exact(t)
      && (k < |victims| ==>
            && t.maxBytes != 0 && t.cached > t.maxBytes && victims[k] in t.entries
            && t.entries[victims[k]].estimated + t.entries[victims[k]].serialized <= t.cached)
      && (k == |victims| ==>
            || t.maxBytes == 0 || t.cached <= t.maxBytes
            || forall n :: n in t.entries ==>
                 n == protected || n in loading || t.entries[n].lastServed >= TIME_MAX)
  {
    PassStaysExact(l, victims, protected, loading, k);
    if k == |victims| {
      assert victims[..k] == victims;
      LeftAfterPass(l, victims, protected, loading);
    }
  }

  // ---- any interleaving of critical sections ----

  /** One critical section on the LRU mutex. The byte counts were read outside it, so
      they are arbitrary: other threads may have changed the store since. */
  datatype Section =
    | TouchIt(n: Name, now: int)
    | ChargeIt(n: Name, bytes: U64, stored: U64, now: int, victims: seq<Name>)
    | ResyncIt(n: Name, bytes: U64, stored: U64)
    | CommitIt(n: Name, stored: U64, victims: seq<Name>)
    | AdjustIt(n: Name, stored: U64)
    | SetMaxIt(maxBytes: U64, victims: seq<Name>)
    | ResetIt

  ghost predicate SectionOk(l: Ledger, c: Section, loading: set<Name>) {
    match c
    case ChargeIt(n, bytes, stored, now, vs) => Pass(Charge(l, n, bytes, stored, now), vs, n, loading)
    case CommitIt(n, stored, vs) => n in l.entries && Pass(ChargePayload(l, n, stored), vs, n, loading)
    case SetMaxIt(m, vs) => Pass(l.(maxBytes := m), vs, "", loading)
    case _ => true
  }

  ghost function Perform(l: Ledger, c: Section, loading: set<Name>): Ledger
    requires SectionOk(l, c, loading)
  {
    match c
    case TouchIt(n, now) => Touch(l, n, now)
    case ChargeIt(n, bytes, stored, now, vs) => RemoveAll(Charge(l, n, bytes, stored, now), vs)
    case ResyncIt(n, bytes, stored) => Resync(l, n, bytes, stored)
    case CommitIt(n, stored, vs) => RemoveAll(ChargePayload(l, n, stored), vs)
    case AdjustIt(n, stored) => AdjustPayload(l, n, stored)
    case SetMaxIt(m, vs) => RemoveAll(l.(maxBytes := m), vs)
    case ResetIt => Reset(l)
  }

  lemma SectionBalanced(l: Ledger, c: Section, loading: set<Name>)
    requires Balanced(l) && SectionOk(l, c, loading)
    ensures Balanced(Perform(l, c, loading))
  {
    match c
    case TouchIt(n, now) => TouchBalanced(l, n, now);
    case ChargeIt(n, bytes, stored, now, vs) =>
      ChargeBalanced(l, n, bytes, stored, now);
      PassRemoves(Charge(l, n, bytes, stored, now), vs, n, loading);
    case ResyncIt(n, bytes, stored) =>
      if n in l.entries {
        ReestimateBalanced(l, n, Wrap(bytes - stored));
      }
    case CommitIt(n, stored, vs) =>
      PayloadBalanced(l, n, stored);
      PassRemoves(ChargePayload(l, n, stored), vs, n, loading);
    case AdjustIt(n, stored) =>
      if n in l.entries {
        AdjustBalanced(l, n, stored);
      }
    case SetMaxIt(m, vs) =>
      PassRemoves(l.(maxBytes := m), vs, "", loading);
    case ResetIt =>
      assert Weights(Reset(l).entries) == map[];
  }

  ghost predicate Sections(tr: seq<Ledger>, cs: seq<Section>, ws: seq<set<Name>>) {
    && |tr| == |cs| + 1 && |ws| == |cs|
    && tr[0].entries == map[] && tr[0].cached == 0
    && forall i :: 0 <= i < |cs| ==> SectionOk(tr[i], cs[i], ws[i]) && tr[i+1] == Perform(tr[i], cs[i], ws[i])
  }

  /** Byte conservation: after every critical section of any interleaving, the cached
      total equals the sum over all entries modulo 2^64. */
  lemma {:induction false} BytesAreConserved(tr: seq<Ledger>, cs: seq<Section>, ws: seq<set<Name>>, i: nat)
    requires Sections(tr, cs, ws) && i < |tr|
    ensures tr[i].cached == Wrap(Sum(Weights(tr[i].entries)))
  {
    if i == 0 {
      assert Weights(tr[0].entries) == map[];
    } else {
      BytesAreConserved(tr, cs, ws, i - 1);
      SectionBalanced(tr[i-1], cs[i-1], ws[i-1]);
    }
  }

  // ---- the bookkeeping object ----

  class LruCache {
    var entries: map<Name, LruEntry>
    var cachedBytes: U64
    var maxBytes: U64

    function View(): Ledger
      reads this
    {
      Ledger(entries, cachedBytes, maxBytes)
    }

    constructor (budget: U64)
      ensures View() == Ledger(map[], 0, budget)
    {
      entries, cachedBytes, maxBytes := map[], 0, budget;
    }

    method TouchLru(n: Name, now: int)
      modifies this
      ensures View() == Touch(old(View()), n, now)
    {
      if n in entries {
        entries := entries[n := entries[n].(lastServed := now)];
      }
    }

    /** The search for the least recently served evictable entry. order is the order in
        which the hash map enumerates its keys. */
    method FindVictim(order: seq<Name>, protected: Name, loading: set<Name>) returns (found: bool, victim: Name)
      requires forall n :: n in entries <==> n in order
      ensures found ==> Oldest(entries, victim, protected, loading)
      ensures !found ==> forall n :: !Evictable(entries, n, protected, loading)
    {
      found, victim := false, "";
      var oldest := TIME_MAX;
      for i := 0 to |order|
        invariant found ==> Evictable(entries, victim, protected, loading) && oldest == entries[victim].lastServed
        invariant !found ==> oldest == TIME_MAX
        invariant forall j :: 0 <= j < i && Evictable(entries, order[j], protected, loading) ==>
                    found && oldest <= entries[order[j]].lastServed
      {
        var n := order[i];
        if n != protected && entries[n].lastServed < oldest && n !in loading {
          oldest, victim, found := entries[n].lastServed, n, true;
        }
      }
    }

    /** Uncharge an entry's full contribution and erase it. */
    method EraseEntry(n: Name)
      requires n in entries
      modifies this
      ensures View() == Remove(old(View()), n)
    {
      var e := entries[n];
      cachedBytes := Wrap(cachedBytes - Wrap(e.estimated + e.serialized));
      entries := entries - {n};
    }

    /** The eviction loop. Erasing an entry keeps the enumeration order of the others. */
    method EvictOverBudgetLocked(protected: Name, loading: set<Name>, order: seq<Name>) returns (evicted: seq<Name>)
      requires forall n :: n in entries <==> n in order
      modifies this
      ensures Pass(old(View()), evicted, protected, loading)
      ensures View() == RemoveAll(old(View()), evicted)
    {
      evicted := [];
      if maxBytes == 0 {
        return;
      }
      var rest := order;
      ghost var start := View();
      while cachedBytes > maxBytes
        invariant forall n :: n in entries <==> n in rest
        invariant maxBytes != 0
        invariant View() == RemoveAll(start, evicted) && Removing(start, evicted, protected, loading)
        decreases |entries|
      {
        var found, victim := FindVictim(rest, protected, loading);
        if !found {
          break;
        }
        OneMore(start, evicted, victim, protected, loading);
        EraseEntry(victim);
        evicted := evicted + [victim];
        rest := Without(rest, victim);
      }
    }

    method InsertLru(n: Name, bytes: U64, stored: U64, now: int)
      modifies this
      ensures View() == Charge(old(View()), n, bytes, stored, now)
    {
      if n in entries {
        var base := Wrap(bytes - stored);
        var delta := Signed(base) - Signed(entries[n].estimated);
        entries := entries[n := LruEntry(base, entries[n].serialized, now)];
        cachedBytes := Wrap(Signed(cachedBytes) + delta);
      } else {
        entries := entries[n := LruEntry(bytes, 0, now)];
        cachedBytes := Wrap(cachedBytes + bytes);
      }
    }

    method ResyncLruEstimate(n: Name, bytes: U64, stored: U64)
      modifies this
      ensures View() == Resync(old(View()), n, bytes, stored)
    {
      if n !in entries {
        return;
      }
      var base := Wrap(bytes - stored);
      var delta := Signed(base) - Signed(entries[n].estimated);
      entries := entries[n := entries[n].(estimated := base)];
      cachedBytes := Wrap(Signed(cachedBytes) + delta);
    }

    method ChargeSerialized(n: Name, stored: U64)
      requires n in entries
      modifies this
      ensures View() == ChargePayload(old(View()), n, stored)
    {
      var delta := Wrap(stored - entries[n].serialized);
      entries := entries[n := entries[n].(serialized := stored)];
      cachedBytes := Wrap(cachedBytes + delta);
    }

    method AdjustLruSerializedBytes(n: Name, stored: U64)
      modifies this
      ensures View() == AdjustPayload(old(View()), n, stored)
    {
      if n !in entries {
        return;
      }
      if stored != entries[n].serialized {
        cachedBytes := Wrap(cachedBytes - Wrap(entries[n].serialized - stored));
        entries := entries[n := entries[n].(serialized := stored)];
      }
    }

    method Clear()
      modifies this
      ensures View() == Reset(old(View()))
    {
      entries := map[];
      cachedBytes := 0;
    }
  }

  function Without(s: seq<Name>, n: Name): (r: seq<Name>)
    ensures forall m :: m in r <==> m in s && m != n
  {
    if s == [] then [] else if s[0] == n then Without(s[1..], n) else [s[0]] + Without(s[1..], n)
  }
}
