/** The order in which GetLayerSymbols lists a layer's symbols, so that a feature's
    sym_num is a position in the list. A pointer to an input symbol is modelled by
    the symbol's position in the input, so that equal-looking symbols stay apart. */
module SymbolSlots {
  datatype Symbol = Null | Symbol(name: string, index: int)

  datatype Feature = NoFeature | Feature(isPad: bool, symNum: int, aptDefSymbolNum: int)

  datatype Slot = Empty | Holds(k: nat)

  datatype Reply = ContractViolation | Listing(slots: seq<Slot>)

  const MAX_REASONABLE_INDEX := 10_000_000

  function Max(a: int, b: int): int {
    if a < b then b else a
  }

  // --------------------------------------------------- The simple definition

  predicate Declares(s: Symbol, j: int) {
    s.Symbol? && s.index == j && j >= 0
  }

  predicate Unindexed(s: Symbol) {
    s.Symbol? && s.index < 0
  }

  /** The highest index any symbol declares, or -1. */
  function MaxIndex(syms: seq<Symbol>): (m: int)
    ensures m >= -1
  {
    if syms == [] then -1
    else
      var m := MaxIndex(syms[..|syms| - 1]);
      var s := syms[|syms| - 1];
      if s.Null? then m else Max(m, s.index)
  }

  /** Who gets slot j: the first symbol that declares it. */
  function Claim(syms: seq<Symbol>, j: int): (c: Slot)
    ensures c.Holds? ==> c.k < |syms|
  {
    if syms == [] then Empty
    else
      var n := |syms| - 1;
      var c := Claim(syms[..n], j);
      if c.Empty? && Declares(syms[n], j) then Holds(n) else c
  }

  /** The list once every explicit index has been honoured. */
  function Placed(maxRef: int, syms: seq<Symbol>): (o: seq<Slot>)
    ensures |o| == Max(Max(maxRef, MaxIndex(syms)) + 1, 0)
    ensures forall j :: 0 <= j < |o| ==> o[j] == Claim(syms, j)
  {
    seq(Max(Max(maxRef, MaxIndex(syms)) + 1, 0), j requires 0 <= j => Claim(syms, j))
  }

  /** The symbols that declare no index, in input order. */
  function UnindexedOf(syms: seq<Symbol>, i: nat): (us: seq<nat>)
    requires i <= |syms|
    decreases |syms| - i
  {
    if i == |syms| then []
    else if Unindexed(syms[i]) then [i] + UnindexedOf(syms, i + 1)
    else UnindexedOf(syms, i + 1)
  }

  function FirstEmpty(o: seq<Slot>, i: nat): (j: nat)
    requires i <= |o|
    ensures i <= j <= |o|
    ensures j < |o| ==> o[j].Empty?
    ensures forall m :: i <= m < j ==> o[m].Holds?
    decreases |o| - i
  {
    if i == |o| || o[i].Empty? then i else FirstEmpty(o, i + 1)
  }

  /** The linear search the fast form replaces: first empty slot, else append. */
  function Put(o: seq<Slot>, k: nat): (r: seq<Slot>) {
    var j := FirstEmpty(o, 0);
    if j < |o| then o[j := Holds(k)] else o + [Holds(k)]
  }

  function Fill(o: seq<Slot>, us: seq<nat>): (r: seq<Slot>)
    decreases |us|
  {
    if us == [] then o else Fill(Put(o, us[0]), us[1..])
  }

  function Ordered(maxRef: int, syms: seq<Symbol>): (r: seq<Slot>) {
    Fill(Placed(maxRef, syms), UnindexedOf(syms, 0))
  }

  // ------------------------------------------------------- The gap positions

  /** The positions of the empty slots, in increasing order. */
  function Gaps(o: seq<Slot>): (g: seq<nat>) {
    if o == [] then []
    else
      var n := |o| - 1;
      if o[n].Empty? then Gaps(o[..n]) + [n] else Gaps(o[..n])
  }

  lemma {:induction false} GapsAreEmpty(o: seq<Slot>)
    ensures forall t :: 0 <= t < |Gaps(o)| ==> Gaps(o)[t] < |o| && o[Gaps(o)[t]].Empty?
    ensures Gaps(o) == [] <==> forall j :: 0 <= j < |o| ==> o[j].Holds?
  {
    if o != [] {
      var n := |o| - 1;
      GapsAreEmpty(o[..n]);
      assert forall j :: 0 <= j < n ==> o[..n][j] == o[j];
    }
  }

  lemma {:induction false} FirstGap(o: seq<Slot>)
    ensures FirstEmpty(o, 0) == if Gaps(o) == [] then |o| else Gaps(o)[0]
  {
    GapsAreEmpty(o);
    if o != [] {
      var n := |o| - 1;
      GapsAreEmpty(o[..n]);
      FirstGap(o[..n]);
      assert forall m :: 0 <= m < n ==> o[..n][m] == o[m];
      if Gaps(o[..n]) != [] {
        var j := FirstEmpty(o[..n], 0);
        assert o[j].Empty? && forall m :: 0 <= m < j ==> o[m].Holds?;
        assert FirstEmpty(o, 0) == j;
      }
    }
  }

  lemma {:induction false} FillingTheFirstGap(o: seq<Slot>, k: nat)
    requires Gaps(o) != []
    ensures Gaps(o)[0] < |o| && Gaps(o[Gaps(o)[0] := Holds(k)]) == Gaps(o)[1..]
  {
    GapsAreEmpty(o);
    var n := |o| - 1;
    var h := Gaps(o)[0];
    var p := o[h := Holds(k)];
    if Gaps(o[..n]) == [] {
      assert p[..n] == o[..n];
    } else {
      FillingTheFirstGap(o[..n], k);
      assert p[..n] == o[..n][h := Holds(k)];
    }
  }

  lemma AppendingAddsNoGap(o: seq<Slot>, k: nat)
    ensures Gaps(o + [Holds(k)]) == Gaps(o)
  {
    assert (o + [Holds(k)])[..|o|] == o;
  }

  /** What one search-and-place does, in terms of the gaps. */
  lemma PutUsesTheFirstGap(o: seq<Slot>, k: nat)
    ensures Gaps(o) != [] ==>
              && Gaps(o)[0] < |o| && Put(o, k) == o[Gaps(o)[0] := Holds(k)]
              && Gaps(Put(o, k)) == Gaps(o)[1..]
    ensures Gaps(o) == [] ==> Put(o, k) == o + [Holds(k)] && Gaps(Put(o, k)) == []
  {
    FirstGap(o);
    if Gaps(o) != [] {
      FillingTheFirstGap(o, k);
    } else {
      AppendingAddsNoGap(o, k);
    }
  }

  // --------------------------------------------------- What the listing says

  /** A slot belongs to the first symbol that declares it. */
  lemma {:induction false} ClaimIsTheFirst(syms: seq<Symbol>, j: int, k: nat)
    ensures Claim(syms, j) == Holds(k) <==>
            k < |syms| && Declares(syms[k], j) && forall m :: 0 <= m < k ==> !Declares(syms[m], j)
  {
    if syms != [] {
      var n := |syms| - 1;
      ClaimIsTheFirst(syms[..n], j, k);
      assert forall m :: 0 <= m < n ==> syms[..n][m] == syms[m];
      if Claim(syms[..n], j).Holds? {
        ClaimIsTheFirst(syms[..n], j, Claim(syms[..n], j).k);
      } else if k == n {
        forall m | 0 <= m < n
          ensures !Declares(syms[m], j)
        {
          NoClaimNoDeclarer(syms[..n], j, m);
        }
      }
    }
  }

  lemma {:induction false} NoClaimNoDeclarer(syms: seq<Symbol>, j: int, m: nat)
    requires Claim(syms, j).Empty? && m < |syms|
    ensures !Declares(syms[m], j)
  {
    var n := |syms| - 1;
    if m < n {
      NoClaimNoDeclarer(syms[..n], j, m);
    }
  }

  lemma {:induction false} MaxIndexBounds(syms: seq<Symbol>, k: nat)
    requires k < |syms| && syms[k].Symbol?
    ensures syms[k].index <= MaxIndex(syms)
  {
    if k < |syms| - 1 {
      MaxIndexBounds(syms[..|syms| - 1], k);
    }
  }

  /** The bound is attained, unless nothing declares an index. */
  lemma {:induction false} MaxIndexIsAttained(syms: seq<Symbol>)
    ensures MaxIndex(syms) == -1 || exists k :: 0 <= k < |syms| && syms[k].Symbol? && syms[k].index == MaxIndex(syms)
  {
    if syms != [] {
      var n := |syms| - 1;
      MaxIndexIsAttained(syms[..n]);
      if MaxIndex(syms) > MaxIndex(syms[..n]) {
        assert syms[n].index == MaxIndex(syms);
      } else if k :| 0 <= k < n && syms[..n][k].Symbol? && syms[..n][k].index == MaxIndex(syms) {
        assert syms[k].index == MaxIndex(syms);
      }
    }
  }

  /** Filling gaps never disturbs a slot that is taken. */
  lemma {:induction false} FillKeeps(o: seq<Slot>, us: seq<nat>, j: nat)
    requires j < |o| && o[j].Holds?
    ensures j < |Fill(o, us)| && Fill(o, us)[j] == o[j]
    decreases |us|
  {
    if us != [] {
      FillKeeps(Put(o, us[0]), us[1..], j);
    }
  }

  lemma {:induction false} FillAddsOnly(o: seq<Slot>, us: seq<nat>, j: nat)
    requires j < |Fill(o, us)| && Fill(o, us)[j].Holds?
    ensures (j < |o| && Fill(o, us)[j] == o[j]) || Fill(o, us)[j].k in us
    decreases |us|
  {
    if us != [] {
      FillAddsOnly(Put(o, us[0]), us[1..], j);
    }
  }

  /** A symbol that declares an index is listed exactly at that index, and exactly
      when no earlier symbol declares it. */
  lemma DeclaredSlotsAreHonoured(maxRef: int, syms: seq<Symbol>, k: nat, j: nat)
    requires k < |syms| && syms[k].Symbol? && syms[k].index >= 0
    ensures j < |Ordered(maxRef, syms)| && Ordered(maxRef, syms)[j] == Holds(k) <==>
            Declares(syms[k], j) && forall m :: 0 <= m < k ==> !Declares(syms[m], j)
  {
    var o, us := Placed(maxRef, syms), UnindexedOf(syms, 0);
    MaxIndexBounds(syms, k);
    ClaimIsTheFirst(syms, j, k);
    if Claim(syms, j) == Holds(k) {
      FillKeeps(o, us, j);
    }
    if j < |Fill(o, us)| && Fill(o, us)[j] == Holds(k) {
      FillAddsOnly(o, us, j);
      UnindexedOfHolds(syms, 0);
    }
  }

  /** The un-indexed symbols of a list, in slot order. */
  function Loose(o: seq<Slot>, syms: seq<Symbol>): (ks: seq<nat>) {
    if o == [] then []
    else
      var n := |o| - 1;
      if IsLoose(o[n], syms) then Loose(o[..n], syms) + [o[n].k] else Loose(o[..n], syms)
  }

  predicate IsLoose(s: Slot, syms: seq<Symbol>) {
    s.Holds? && s.k < |syms| && Unindexed(syms[s.k])
  }

  /** From position h on, no slot holds an un-indexed symbol. */
  predicate TightFrom(o: seq<Slot>, h: nat, syms: seq<Symbol>) {
    forall j :: h <= j < |o| ==> !IsLoose(o[j], syms)
  }

  lemma {:induction false} LooseStopsAt(o: seq<Slot>, h: nat, syms: seq<Symbol>)
    requires h <= |o| && TightFrom(o, h, syms)
    ensures Loose(o, syms) == Loose(o[..h], syms)
  {
    if h == |o| {
      assert o[..h] == o;
    } else {
      var n := |o| - 1;
      LooseStopsAt(o[..n], h, syms);
      assert o[..n][..h] == o[..h];
    }
  }

  lemma LooseAfterPlacing(o: seq<Slot>, h: nat, k: nat, r: seq<Slot>, syms: seq<Symbol>)
    requires h <= |o| && h < |r| && k < |syms| && Unindexed(syms[k])
    requires TightFrom(o, h, syms) && TightFrom(r, h + 1, syms)
    requires (forall m :: 0 <= m < h ==> r[m] == o[m]) && r[h] == Holds(k)
    ensures Loose(r, syms) == Loose(o, syms) + [k]
  {
    LooseStopsAt(o, h, syms);
    LooseStopsAt(r, h + 1, syms);
    assert r[..h + 1][..h] == o[..h];
  }

  lemma PutPlaces(o: seq<Slot>, h: nat, k: nat, r: seq<Slot>)
    requires h == FirstEmpty(o, 0) && r == Put(o, k)
    ensures h < |r| == Max(|o|, h + 1) && r[h] == Holds(k)
    ensures forall m :: 0 <= m < |r| && m != h ==> m < |o| && r[m] == o[m]
    ensures FirstEmpty(r, 0) > h
  {
    assert forall m :: 0 <= m < |r| && m != h ==> m < |o| && r[m] == o[m];
  }

  lemma PutAddsLast(o: seq<Slot>, k: nat, r: seq<Slot>, syms: seq<Symbol>)
    requires k < |syms| && Unindexed(syms[k]) && r == Put(o, k)
    requires TightFrom(o, FirstEmpty(o, 0), syms)
    ensures Loose(r, syms) == Loose(o, syms) + [k]
    ensures TightFrom(r, FirstEmpty(r, 0), syms)
  {
    var h := FirstEmpty(o, 0);
    PutPlaces(o, h, k, r);
    LooseAfterPlacing(o, h, k, r, syms);
  }

  lemma Regroup(ks: seq<nat>, us: seq<nat>)
    requires us != []
    ensures ks + [us[0]] + us[1..] == ks + us
  {
  }

  lemma {:induction false} FillAddsInOrder(o: seq<Slot>, us: seq<nat>, syms: seq<Symbol>)
    requires forall t :: 0 <= t < |us| ==> us[t] < |syms| && Unindexed(syms[us[t]])
    requires TightFrom(o, FirstEmpty(o, 0), syms)
    ensures Loose(Fill(o, us), syms) == Loose(o, syms) + us
    decreases |us|
  {
    if us != [] {
      var p := Put(o, us[0]);
      PutAddsLast(o, us[0], p, syms);
      FillAddsInOrder(p, us[1..], syms);
      Regroup(Loose(o, syms), us);
    }
  }

  lemma {:induction false} UnindexedOfHolds(syms: seq<Symbol>, i: nat)
    requires i <= |syms|
    ensures forall t :: 0 <= t < |UnindexedOf(syms, i)| ==>
              UnindexedOf(syms, i)[t] < |syms| && Unindexed(syms[UnindexedOf(syms, i)[t]])
    decreases |syms| - i
  {
    if i < |syms| {
      UnindexedOfHolds(syms, i + 1);
    }
  }

  /** Reading the listing from slot 0 up, the un-indexed symbols are exactly those
      of the input: each once, in input order, none missing. */
  lemma UnindexedKeepTheirOrder(maxRef: int, syms: seq<Symbol>)
    ensures Loose(Ordered(maxRef, syms), syms) == UnindexedOf(syms, 0)
  {
    var o := Placed(maxRef, syms);
    UnindexedOfHolds(syms, 0);
    forall j | 0 <= j < |o|
      ensures !IsLoose(o[j], syms)
    {
      if o[j].Holds? {
        ClaimIsTheFirst(syms, j, o[j].k);
      }
    }
    LooseStopsAt(o, 0, syms);
    FillAddsInOrder(o, UnindexedOf(syms, 0), syms);
  }

  /** The positions of the symbols that declare no index: all of them, in increasing order. */
  lemma {:induction false} UnindexedOfIsTheList(syms: seq<Symbol>, i: nat)
    requires i <= |syms|
    ensures forall k :: k in UnindexedOf(syms, i) <==> i <= k < |syms| && syms[k].Symbol? && syms[k].index < 0
    ensures forall t, u :: 0 <= t < u < |UnindexedOf(syms, i)| ==> UnindexedOf(syms, i)[t] < UnindexedOf(syms, i)[u]
    decreases |syms| - i
  {
    if i < |syms| {
      UnindexedOfIsTheList(syms, i + 1);
      var rest := UnindexedOf(syms, i + 1);
      assert forall t :: 0 <= t < |rest| ==> rest[t] in rest;
    }
  }

  /** No un-indexed symbol stands behind an empty slot. */
  ghost predicate Packed(o: seq<Slot>, syms: seq<Symbol>) {
    forall i, j :: 0 <= i < j < |o| && o[i].Empty? ==> !IsLoose(o[j], syms)
  }

  lemma {:induction false} FillIsPacked(o: seq<Slot>, us: seq<nat>, syms: seq<Symbol>)
    requires Packed(o, syms)
    ensures Packed(Fill(o, us), syms)
    decreases |us|
  {
    if us != [] {
      FillIsPacked(Put(o, us[0]), us[1..], syms);
    }
  }

  /** The gaps are used from the lowest up: in the listing an empty slot has no un-indexed
      symbol behind it. */
  lemma LowestGapsAreUsed(maxRef: int, syms: seq<Symbol>, i: nat, j: nat)
    requires i < j < |Ordered(maxRef, syms)| && Ordered(maxRef, syms)[i].Empty? && Ordered(maxRef, syms)[j].Holds?
    ensures Ordered(maxRef, syms)[j].k < |syms| ==> !Unindexed(syms[Ordered(maxRef, syms)[j].k])
  {
    var o := Placed(maxRef, syms);
    forall m | 0 <= m < |o|
      ensures !IsLoose(o[m], syms)
    {
      if o[m].Holds? {
        ClaimIsTheFirst(syms, m, o[m].k);
      }
    }
    FillIsPacked(o, UnindexedOf(syms, 0), syms);
  }

  // ---------------------------------------------------------------- Its size

  function DeclaredIndices(syms: seq<Symbol>): set<int> {
    set k | 0 <= k < |syms| && syms[k].Symbol? && syms[k].index >= 0 :: syms[k].index
  }

  function Taken(o: seq<Slot>): set<int> {
    set j | 0 <= j < |o| && o[j].Holds?
  }

  lemma {:induction false} TakenAndGaps(o: seq<Slot>)
    ensures |Taken(o)| + |Gaps(o)| == |o|
  {
    if o != [] {
      var n := |o| - 1;
      TakenAndGaps(o[..n]);
      if o[n].Holds? {
        assert Taken(o) == Taken(o[..n]) + {n};
      } else {
        assert Taken(o) == Taken(o[..n]);
      }
    }
  }

  lemma TakenAreTheDeclared(maxRef: int, syms: seq<Symbol>)
    ensures Taken(Placed(maxRef, syms)) == DeclaredIndices(syms)
  {
    var o := Placed(maxRef, syms);
    forall j | j in Taken(o)
      ensures j in DeclaredIndices(syms)
    {
      ClaimIsTheFirst(syms, j, o[j].k);
    }
    forall j | j in DeclaredIndices(syms)
      ensures j in Taken(o)
    {
      var k :| 0 <= k < |syms| && syms[k].Symbol? && syms[k].index == j;
      MaxIndexBounds(syms, k);
      if o[j].Empty? {
        NoClaimNoDeclarer(syms, j, k);
      }
    }
  }

  lemma {:induction false} FillLength(o: seq<Slot>, us: seq<nat>)
    ensures |Fill(o, us)| == Max(|o|, |o| - |Gaps(o)| + |us|)
    decreases |us|
  {
    GapsAreEmpty(o);
    if us != [] {
      PutUsesTheFirstGap(o, us[0]);
      FillLength(Put(o, us[0]), us[1..]);
    } else {
      TakenAndGaps(o);
    }
  }

  lemma FillSize(o: seq<Slot>, us: seq<nat>)
    ensures |Fill(o, us)| == Max(|o|, |Taken(o)| + |us|)
  {
    FillLength(o, us);
    TakenAndGaps(o);
  }

  /** The exact size: room for every referenced or declared index, and for every
      symbol that keeps a slot. */
  lemma ListingLength(maxRef: int, syms: seq<Symbol>)
    requires maxRef >= -1
    ensures |Ordered(maxRef, syms)| ==
            Max(Max(maxRef, MaxIndex(syms)) + 1, |DeclaredIndices(syms)| + |UnindexedOf(syms, 0)|)
  {
    FillSize(Placed(maxRef, syms), UnindexedOf(syms, 0));
    TakenAreTheDeclared(maxRef, syms);
  }

  /** The limit on symbol numbers filters references only: an index that a symbol declares
      is honoured, and its slot listed, however large it is. */
  lemma DeclaredIndicesAreNotLimited(maxRef: int, syms: seq<Symbol>, k: nat)
    requires maxRef >= -1 && k < |syms| && syms[k].Symbol? && syms[k].index >= 10_000_000
    ensures |Ordered(maxRef, syms)| > syms[k].index
  {
    ListingLength(maxRef, syms);
    MaxIndexBounds(syms, k);
  }

  function Resize(o: seq<Slot>, n: int): (r: seq<Slot>) {
    if n > |o| then o + seq(n - |o|, _ => Empty) else o
  }

  /** The final padding has nothing left to do. */
  lemma PaddingChangesNothing(maxRef: int, syms: seq<Symbol>)
    requires maxRef >= -1
    ensures Resize(Ordered(maxRef, syms), Max(maxRef, MaxIndex(syms)) + 1) == Ordered(maxRef, syms)
  {
    ListingLength(maxRef, syms);
  }

  // ---------------------------------------------------------------- The code

  predicate Violates(f: Feature) {
    f.Feature? && f.isPad && f.aptDefSymbolNum >= 0 && f.symNum != f.aptDefSymbolNum
  }

  predicate Reasonable(n: int) {
    0 <= n < MAX_REASONABLE_INDEX
  }

  predicate References(f: Feature, n: int) {
    f.Feature? && Reasonable(n) && (f.symNum == n || f.aptDefSymbolNum == n)
  }

  /** m is the largest symbol number the features refer to, or -1. */
  ghost predicate IsMaxRef(fs: seq<Feature>, m: int) {
    && m >= -1
    && (m >= 0 ==> exists i :: 0 <= i < |fs| && References(fs[i], m))
    && forall i, n :: 0 <= i < |fs| && References(fs[i], n) ==> n <= m
  }

  lemma MaxRefBounds(fs: seq<Feature>, m: int)
    requires IsMaxRef(fs, m)
    ensures forall i :: 0 <= i < |fs| && fs[i].Feature? ==>
              && (fs[i].symNum < 10_000_000 ==> fs[i].symNum <= m)
              && (fs[i].aptDefSymbolNum < 10_000_000 ==> fs[i].aptDefSymbolNum <= m)
  {
    forall i | 0 <= i < |fs| && fs[i].Feature?
      ensures fs[i].symNum < 10_000_000 ==> fs[i].symNum <= m
      ensures fs[i].aptDefSymbolNum < 10_000_000 ==> fs[i].aptDefSymbolNum <= m
    {
      assert Reasonable(fs[i].symNum) ==> References(fs[i], fs[i].symNum);
      assert Reasonable(fs[i].aptDefSymbolNum) ==> References(fs[i], fs[i].aptDefSymbolNum);
    }
  }

  method CheckPadsAndReferences(fs: seq<Feature>) returns (ok: bool, maxRef: int)
    ensures ok <==> forall i :: 0 <= i < |fs| && fs[i].Feature? && fs[i].isPad && fs[i].aptDefSymbolNum >= 0 ==>
                                  fs[i].symNum == fs[i].aptDefSymbolNum
    ensures ok ==> IsMaxRef(fs, maxRef) && -1 <= maxRef < 10_000_000
    ensures ok && maxRef >= 0 ==>
              exists i :: 0 <= i < |fs| && fs[i].Feature? && (fs[i].symNum == maxRef || fs[i].aptDefSymbolNum == maxRef)
    ensures ok ==> forall i :: 0 <= i < |fs| && fs[i].Feature? ==>
              && (fs[i].symNum < 10_000_000 ==> fs[i].symNum <= maxRef)
              && (fs[i].aptDefSymbolNum < 10_000_000 ==> fs[i].aptDefSymbolNum <= maxRef)
  {
    maxRef := -1;
    for i := 0 to |fs|
      invariant forall j :: 0 <= j < i ==> !Violates(fs[j])
      invariant IsMaxRef(fs[..i], maxRef)
    {
      var f := fs[i];
      ghost var was := maxRef;
      if f.Feature? {
        if Violates(f) {
          return false, maxRef;
        }
        if Reasonable(f.symNum) {
          maxRef := Max(maxRef, f.symNum);
        }
        if Reasonable(f.aptDefSymbolNum) {
          maxRef := Max(maxRef, f.aptDefSymbolNum);
        }
      }
      assert was != maxRef ==> References(fs[..i + 1][i], maxRef);
      assert forall j :: 0 <= j < i ==> fs[..i + 1][j] == fs[..i][j];
    }
    assert fs[..|fs|] == fs;
    MaxRefBounds(fs, maxRef);
    return true, maxRef;
  }

  method PlaceDeclared(maxRef: int, syms: seq<Symbol>) returns (ordered: seq<Slot>, maxIndex: int)
    requires maxRef >= -1
    ensures ordered == Placed(maxRef, syms)
    ensures maxIndex == MaxIndex(syms)
  {
    ordered := Resize([], maxRef + 1);
    maxIndex := -1;
    for i := 0 to |syms|
      invariant maxIndex == MaxIndex(syms[..i])
      invariant ordered == Placed(maxRef, syms[..i])
    {
      BeyondTheLastIndex(maxRef, syms[..i]);
      var s := syms[i];
      if s.Symbol? {
        var idx := s.index;
        maxIndex := Max(maxIndex, idx);
        if idx >= 0 {
          ordered := Resize(ordered, idx + 1);
          if ordered[idx].Empty? {
            ordered := ordered[idx := Holds(i)];
          }
        }
      }
      ghost var upTo := syms[..i + 1];
      assert upTo[..i] == syms[..i] && upTo[i] == s;
      assert forall j :: 0 <= j < |ordered| ==> ordered[j] == Claim(upTo, j);
    }
    assert syms[..|syms|] == syms;
  }

  lemma BeyondTheLastIndex(maxRef: int, syms: seq<Symbol>)
    ensures forall j :: j >= |Placed(maxRef, syms)| ==> Claim(syms, j).Empty?
  {
    forall j | j >= |Placed(maxRef, syms)|
      ensures Claim(syms, j).Empty?
    {
      if Claim(syms, j).Holds? {
        ClaimIsTheFirst(syms, j, Claim(syms, j).k);
        MaxIndexBounds(syms, Claim(syms, j).k);
      }
    }
  }

  method FindGaps(ordered: seq<Slot>) returns (available: seq<nat>)
    ensures available == Gaps(ordered)
  {
    available := [];
    for i := 0 to |ordered|
      invariant available == Gaps(ordered[..i])
    {
      assert ordered[..i + 1][..i] == ordered[..i];
      if ordered[i].Empty? {
        available := available + [i];
      }
    }
    assert ordered[..|ordered|] == ordered;
  }

  /** The precomputed gaps, used one after the other, give what a fresh search
      for every symbol would have given. */
  method FillGaps(start: seq<Slot>, syms: seq<Symbol>) returns (ordered: seq<Slot>)
    ensures ordered == Fill(start, UnindexedOf(syms, 0))
  {
    ordered := start;
    var available := FindGaps(ordered);
    var slotIdx := 0;
    for i := 0 to |syms|
      invariant slotIdx <= |available| && available[slotIdx..] == Gaps(ordered)
      invariant Fill(start, UnindexedOf(syms, 0)) == Fill(ordered, UnindexedOf(syms, i))
    {
      if Unindexed(syms[i]) {
        PutUsesTheFirstGap(ordered, i);
        if slotIdx < |available| {
          ordered := ordered[available[slotIdx] := Holds(i)];
          slotIdx := slotIdx + 1;
        } else {
          ordered := ordered + [Holds(i)];
        }
      }
    }
  }

  method OrderSymbols(fs: seq<Feature>, syms: seq<Symbol>) returns (r: Reply)
    ensures r.ContractViolation? <==>
            exists i :: 0 <= i < |fs| && fs[i].Feature? && fs[i].isPad && fs[i].aptDefSymbolNum >= 0 &&
                        fs[i].symNum != fs[i].aptDefSymbolNum
    ensures r.Listing? ==> exists maxRef :: IsMaxRef(fs, maxRef) && r.slots == Ordered(maxRef, syms)
  {
    var ok, maxRef := CheckPadsAndReferences(fs);
    if !ok {
      return ContractViolation;
    }
    var ordered, maxIndex := PlaceDeclared(maxRef, syms);
    ordered := FillGaps(ordered, syms);
    PaddingChangesNothing(maxRef, syms);
    return Listing(Resize(ordered, Max(maxRef, maxIndex) + 1));
  }
}
