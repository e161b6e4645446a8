/** What the byte budget is charged for: every LRU entry carries the size its name was last
    charged with and the time it was last served, so the cached total is the size of what
    is cached, and the budget bounds it. */
module CacheBills {
  import opened Basics
  import opened CacheKeys
  import opened CacheModel
  import opened CacheViews
  import opened CacheSoundness
  import opened MapSums
  import S = ResponseStore
  import L = LruLedger

  /** The size a name was last charged with, and when it was last served. */
  datatype Bill = Bill(base: nat, served: int)

  /** The step inserts an object of the name and charges it. */
  predicate ChargesName(c: Cache, l: Label, n: Name) {
    match l
    case ArchiveDone(m, _, _, _) => m == n && Current(c, Key(ArchiveKind, n))
    case DesignDone(m, _, _, _) => m == n && Current(c, Key(DesignKind, n))
    case GuardExit(k, stage, _, _, _) => k.name == n && (stage.Charged? || stage.Scheduled?)
    case Inject(m, _, _) => m == n
    case _ => false
  }

  /** The bill of the name after a step, read off the step alone. */
  function BillAfter(c: Cache, l: Label, wire: Wire, n: Name, bill: Option<Bill>): Option<Bill> {
    if l.Clear? || n in Victims(c, l, wire) then None
    else if ChargesName(c, l, n) then Some(Bill(l.charging.base, l.charging.now))
    else
      match (l, bill)
      case (Resync(m, base), Some(b)) => if m == n then Some(b.(base := base)) else bill
      case (Touch(m, now), Some(b)) => if m == n then Some(b.(served := now)) else bill
      case _ => bill
  }

  ghost function BillOf(tr: seq<Cache>, ls: seq<Label>, wire: Wire, n: Name, i: nat): Option<Bill>
    requires |tr| == |ls| + 1 && i < |tr|
  {
    if i == 0 then None else BillAfter(tr[i-1], ls[i-1], wire, n, BillOf(tr, ls, wire, n, i - 1))
  }

  /** The entry is the bill: the size modulo 2^64, and the time. */
  ghost predicate Billed(l: L.Ledger, n: Name, bill: Option<Bill>) {
    && (n in l.entries <==> bill.Some?)
    && (bill.Some? ==>
          l.entries[n].estimated == L.Wrap(bill.value.base) && l.entries[n].lastServed == bill.value.served)
  }

  // ---- the sections of the ledger, seen through one entry ----

  lemma WrapDifference(base: nat, stored: L.U64)
    ensures L.Wrap(L.Wrap(base + stored) - stored) == L.Wrap(base)
  {
    L.WrapCongruent(L.Wrap(base + stored) - stored, base, -((base + stored) / L.TWO64));
  }

  /** A charge leaves the size the name was charged with, whatever payload is stored,
      because a name without an entry has no payload. */
  lemma ChargeBills(l: L.Ledger, m: Name, base: nat, stored: L.U64, now: int, n: Name, bill: Option<Bill>)
    requires Billed(l, n, bill) && (m !in l.entries ==> stored == 0)
    ensures Billed(L.Charge(l, m, L.Wrap(base + stored), stored, now), n,
                   if m == n then Some(Bill(base, now)) else bill)
  {
    WrapDifference(base, stored);
  }

  lemma ResyncBills(l: L.Ledger, m: Name, base: nat, stored: L.U64, n: Name, bill: Option<Bill>)
    requires Billed(l, n, bill)
    ensures Billed(L.Resync(l, m, L.Wrap(base + stored), stored), n,
                   if m == n && bill.Some? then Some(bill.value.(base := base)) else bill)
  {
    WrapDifference(base, stored);
  }

  /** An eviction pass takes the victims' bills and leaves the others. */
  lemma PassBills(c: Cache, vs: seq<Name>, protected: Name, n: Name, bill: Option<Bill>)
    requires PassOk(c, vs, protected) && Billed(c.lru, n, bill)
    ensures Billed(Evict(c, vs).lru, n, if n in vs then None else bill)
  {
    L.PassRemoves(c.lru, vs, protected, LoadingNames(c.states));
    EvictNamesLru(c.(lru := L.RemoveAll(c.lru, vs)), vs);
  }

  // ---- operations ----

  ghost predicate NoStrayPayload(c: Cache, n: Name) {
    n !in c.lru.entries ==> Stored(c, n) == 0
  }

  lemma NoEntryNoPayload(c: Cache, wire: Wire, n: Name)
    requires NameOk(At(c, n), wire)
    ensures NoStrayPayload(c, n)
  {
  }

  lemma ChargedBills(c: Cache, m: Name, ch: Charging, n: Name, bill: Option<Bill>)
    requires Billed(c.lru, n, bill) && NoStrayPayload(c, m) && PassOk(ChargeName(c, m, ch.base, ch.now), ch.victims, m)
    ensures Billed(Evict(ChargeName(c, m, ch.base, ch.now), ch.victims).lru, n,
                   if n in ch.victims then None else if m == n then Some(Bill(ch.base, ch.now)) else bill)
  {
    ChargeBills(c.lru, m, ch.base, Stored(c, m), ch.now, n, bill);
    var charged := if m == n then Some(Bill(ch.base, ch.now)) else bill;
    PassBills(ChargeName(c, m, ch.base, ch.now), ch.victims, m, n, charged);
  }

  lemma InsertedBills(c: Cache, k: Key, id: nat, ch: Charging, n: Name, bill: Option<Bill>)
    requires Parsed(c, k) && Billed(c.lru, n, bill) && NoStrayPayload(c, k.name)
    requires PassOk(ChargeName(Insert(c, k, id), k.name, ch.base, ch.now), ch.victims, k.name)
    ensures Billed(InsertAndCharge(c, k, id, ch).lru, n,
                   if n in ch.victims then None else if k.name == n then Some(Bill(ch.base, ch.now)) else bill)
  {
    ChargedBills(Insert(c, k, id), k.name, ch, n, bill);
  }

  lemma InjectedBills(c: Cache, m: Name, id: nat, ch: Charging, n: Name, bill: Option<Bill>)
    requires Billed(c.lru, n, bill) && PassOk(ChargeName(InjectArchive(c, m, id), m, ch.base, ch.now), ch.victims, m)
    ensures Billed(Injected(c, m, id, ch).lru, n,
                   if n in ch.victims then None else if m == n then Some(Bill(ch.base, ch.now)) else bill)
  {
    ChargedBills(InjectArchive(c, m, id), m, ch, n, bill);
  }

  lemma CommitBills(c: Cache, co: Commit, vs: seq<Name>, wire: Wire, n: Name, bill: Option<Bill>)
    requires Billed(c.lru, n, bill) && (CommitValid(c, co, wire) ==> PassOk(StorePayload(c, co, wire), vs, co.name))
    ensures Billed(Committed(c, co, vs, wire).lru, n, if CommitValid(c, co, wire) && n in vs then None else bill)
  {
    if CommitValid(c, co, wire) {
      PassBills(StorePayload(c, co, wire), vs, co.name, n, bill);
    }
  }

  lemma ArchiveBills(c: Cache, l: Label, wire: Wire, n: Name, bill: Option<Bill>)
    requires Enabled(c, l, wire) && l.ArchiveDone? && NoStrayPayload(c, l.name) && Billed(c.lru, n, bill)
    ensures Billed(Apply(c, l, wire).lru, n, BillAfter(c, l, wire, n, bill))
  {
    if Current(c, Key(ArchiveKind, l.name)) {
      InsertedBills(c, Key(ArchiveKind, l.name), l.id, l.charging, n, bill);
    }
  }

  lemma DesignBills(c: Cache, l: Label, wire: Wire, n: Name, bill: Option<Bill>)
    requires Enabled(c, l, wire) && l.DesignDone? && NoStrayPayload(c, l.name) && Billed(c.lru, n, bill)
    ensures Billed(Apply(c, l, wire).lru, n, BillAfter(c, l, wire, n, bill))
  {
    if Current(c, Key(DesignKind, l.name)) {
      InsertedBills(c, Key(DesignKind, l.name), l.id, l.charging, n, bill);
    }
  }

  lemma GuardBills(c: Cache, l: Label, wire: Wire, n: Name, bill: Option<Bill>)
    requires Enabled(c, l, wire) && l.GuardExit? && NoStrayPayload(c, l.key.name) && Billed(c.lru, n, bill)
    ensures Billed(Apply(c, l, wire).lru, n, BillAfter(c, l, wire, n, bill))
  {
    if l.stage.Charged? || l.stage.Scheduled? {
      InsertedBills(c, l.key, l.id, l.charging, n, bill);
    }
  }

  lemma LoadBills(c: Cache, l: Label, wire: Wire, n: Name, bill: Option<Bill>)
    requires Enabled(c, l, wire) && OfALoad(l) && Sound(c, wire) && Billed(c.lru, n, bill)
    ensures Billed(Apply(c, l, wire).lru, n, BillAfter(c, l, wire, n, bill))
  {
    match l
    case ArchiveDone(m, _, _, _) =>
      NoEntryNoPayload(c, wire, m);
      ArchiveBills(c, l, wire, n, bill);
    case DesignDone(m, _, _, _) =>
      NoEntryNoPayload(c, wire, m);
      DesignBills(c, l, wire, n, bill);
    case GuardExit(k, _, _, _, _) =>
      NoEntryNoPayload(c, wire, k.name);
      GuardBills(c, l, wire, n, bill);
    case _ =>
  }

  lemma SetMaxBills(c: Cache, l: Label, wire: Wire, n: Name, bill: Option<Bill>)
    requires Enabled(c, l, wire) && l.SetMax? && Billed(c.lru, n, bill)
    ensures Billed(Apply(c, l, wire).lru, n, BillAfter(c, l, wire, n, bill))
  {
    PassBills(c.(lru := c.lru.(maxBytes := l.maxBytes)), l.victims, "", n, bill);
  }

  lemma ResyncStepBills(c: Cache, l: Label, wire: Wire, n: Name, bill: Option<Bill>)
    requires Enabled(c, l, wire) && l.Resync? && Billed(c.lru, n, bill)
    ensures Billed(Apply(c, l, wire).lru, n, BillAfter(c, l, wire, n, bill))
  {
    ResyncBills(c.lru, l.name, l.base, Stored(c, l.name), n, bill);
  }

  lemma InjectStepBills(c: Cache, l: Label, wire: Wire, n: Name, bill: Option<Bill>)
    requires Enabled(c, l, wire) && l.Inject? && Billed(c.lru, n, bill)
    ensures Billed(Apply(c, l, wire).lru, n, BillAfter(c, l, wire, n, bill))
  {
    InjectedBills(c, l.name, l.id, l.charging, n, bill);
  }

  lemma CommitStepBills(c: Cache, l: Label, wire: Wire, n: Name, bill: Option<Bill>)
    requires Enabled(c, l, wire) && l.CommitPayload? && Billed(c.lru, n, bill)
    ensures Billed(Apply(c, l, wire).lru, n, BillAfter(c, l, wire, n, bill))
  {
    CommitBills(c, c.commits[l.commit], l.victims, wire, n, bill);
  }

  lemma QuietStepBills(c: Cache, l: Label, wire: Wire, n: Name, bill: Option<Bill>)
    requires Enabled(c, l, wire) && !OfALoad(l) && Billed(c.lru, n, bill)
    requires !l.Inject? && !l.Resync? && !l.SetMax? && !l.CommitPayload?
    ensures Billed(Apply(c, l, wire).lru, n, BillAfter(c, l, wire, n, bill))
  {
  }

  lemma BillStep(c: Cache, l: Label, wire: Wire, n: Name, bill: Option<Bill>)
    requires Enabled(c, l, wire) && Sound(c, wire) && Billed(c.lru, n, bill)
    ensures Billed(Apply(c, l, wire).lru, n, BillAfter(c, l, wire, n, bill))
  {
    if OfALoad(l) {
      LoadBills(c, l, wire, n, bill);
    } else if l.Inject? {
      InjectStepBills(c, l, wire, n, bill);
    } else if l.Resync? {
      ResyncStepBills(c, l, wire, n, bill);
    } else if l.SetMax? {
      SetMaxBills(c, l, wire, n, bill);
    } else if l.CommitPayload? {
      CommitStepBills(c, l, wire, n, bill);
    } else {
      QuietStepBills(c, l, wire, n, bill);
    }
  }

  /** In every reachable state a name has an LRU entry exactly if it has a bill, and the
      entry holds the size and the time of the bill. */
  lemma {:induction false} EntriesAreBilled(tr: seq<Cache>, ls: seq<Label>, wire: Wire, n: Name, i: nat)
    requires Run(tr, ls, wire) && i < |tr|
    ensures Billed(tr[i].lru, n, BillOf(tr, ls, wire, n, i))
  {
    if i > 0 {
      EntriesAreBilled(tr, ls, wire, n, i - 1);
      assert Leads(tr, ls, wire, i - 1);
      SoundAlways(tr, ls, wire, i - 1);
      BillStep(tr[i-1], ls[i-1], wire, n, BillOf(tr, ls, wire, n, i - 1));
    }
  }

  // ---- the total ----

  /** The size of everything charged: what each name was last charged with, and the bytes
      stored for it. */
  ghost function Sizes(tr: seq<Cache>, ls: seq<Label>, wire: Wire, i: nat): map<Name, int>
    requires Run(tr, ls, wire) && i < |tr|
  {
    map n | n in tr[i].lru.entries :: Size(tr, ls, wire, n, i)
  }

  ghost function Size(tr: seq<Cache>, ls: seq<Label>, wire: Wire, n: Name, i: nat): nat
    requires |tr| == |ls| + 1 && i < |tr|
  {
    (match BillOf(tr, ls, wire, n, i) case Some(b) => b.base case None => 0) + S.StoredBytes(tr[i].store, n)
  }

  lemma SizeIsTheWeight(tr: seq<Cache>, ls: seq<Label>, wire: Wire, n: Name, i: nat)
    requires Run(tr, ls, wire) && i < |tr| && n in tr[i].lru.entries && Size(tr, ls, wire, n, i) < L.TWO64
    ensures Size(tr, ls, wire, n, i) == tr[i].lru.entries[n].estimated + tr[i].lru.entries[n].serialized
  {
    EntriesAreBilled(tr, ls, wire, n, i);
    AccountsAreExact(tr, ls, wire, i);
  }

  /** The cached total is the size of everything charged, in the integers, as long as that
      fits 64 bits. */
  lemma TotalIsTheSize(tr: seq<Cache>, ls: seq<Label>, wire: Wire, i: nat)
    requires Run(tr, ls, wire) && i < |tr| && Sum(Sizes(tr, ls, wire, i)) < L.TWO64
    ensures tr[i].lru.cached == Sum(Sizes(tr, ls, wire, i))
  {
    var sizes := Sizes(tr, ls, wire, i);
    SumNonNegative(sizes);
    forall n | n in tr[i].lru.entries
      ensures sizes[n] == L.Weights(tr[i].lru.entries)[n]
    {
      assert sizes[n] == Size(tr, ls, wire, n, i) <= Sum(sizes);
      SizeIsTheWeight(tr, ls, wire, n, i);
    }
    assert sizes == L.Weights(tr[i].lru.entries);
    AccountsAreExact(tr, ls, wire, i);
  }

  // ---- the budget ----

  /** The budget in force: the one set last, or the first. */
  ghost function BudgetOf(tr: seq<Cache>, ls: seq<Label>, i: nat): int
    requires |tr| == |ls| + 1 && i < |tr|
  {
    if i == 0 then tr[0].lru.maxBytes
    else if ls[i-1].SetMax? then ls[i-1].maxBytes
    else BudgetOf(tr, ls, i - 1)
  }

  lemma EvictKeepsBudget(c: Cache, vs: seq<Name>, protected: Name)
    requires PassOk(c, vs, protected)
    ensures Evict(c, vs).lru.maxBytes == c.lru.maxBytes
  {
    L.PassRemoves(c.lru, vs, protected, LoadingNames(c.states));
    EvictNamesLru(c.(lru := L.RemoveAll(c.lru, vs)), vs);
  }

  /** After a pass the total is within the budget, or every entry is protected, was being
      loaded, or has no time. */
  ghost predicate WithinBudget(before: Cache, protected: Name, l: L.Ledger) {
    || l.maxBytes == 0 || l.cached <= l.maxBytes
    || forall n :: n in l.entries ==>
         n == protected || StateOf(before, n) == Loading || l.entries[n].lastServed >= L.TIME_MAX
  }

  lemma PassLeavesWithin(c: Cache, vs: seq<Name>, protected: Name)
    requires PassOk(c, vs, protected)
    ensures WithinBudget(c, protected, Evict(c, vs).lru)
  {
    var t := L.RemoveAll(c.lru, vs);
    EvictNamesLru(c.(lru := t), vs);
    if L.NothingToEvict(t, protected, LoadingNames(c.states)) {
      forall n | n in t.entries
        ensures n == protected || StateOf(c, n) == Loading || t.entries[n].lastServed >= L.TIME_MAX
      {
        assert !L.Evictable(t.entries, n, protected, LoadingNames(c.states));
      }
    }
  }

  /** The name an eviction pass of the step protects, if the step runs one. */
  function Protects(c: Cache, l: Label, wire: Wire): Option<Name> {
    match l
    case ArchiveDone(m, _, _, _) => if Current(c, Key(ArchiveKind, m)) then Some(m) else None
    case DesignDone(m, _, _, _) => if Current(c, Key(DesignKind, m)) then Some(m) else None
    case GuardExit(k, stage, _, _, _) => if stage.Charged? || stage.Scheduled? then Some(k.name) else None
    case Inject(m, _, _) => Some(m)
    case SetMax(_, _) => Some("")
    case CommitPayload(id, _) =>
      if id in c.commits && CommitValid(c, c.commits[id], wire) then Some(c.commits[id].name) else None
    case _ => None
  }

  lemma ChargedWithin(c: Cache, k: Key, id: nat, ch: Charging)
    requires Parsed(c, k) && PassOk(ChargeName(Insert(c, k, id), k.name, ch.base, ch.now), ch.victims, k.name)
    ensures WithinBudget(c, k.name, InsertAndCharge(c, k, id, ch).lru)
    ensures InsertAndCharge(c, k, id, ch).lru.maxBytes == c.lru.maxBytes
  {
    var d := ChargeName(Insert(c, k, id), k.name, ch.base, ch.now);
    PassLeavesWithin(d, ch.victims, k.name);
    EvictKeepsBudget(d, ch.victims, k.name);
  }

  lemma ArchiveWithin(c: Cache, l: Label, wire: Wire)
    requires Enabled(c, l, wire) && l.ArchiveDone?
    ensures BudgetStep(c, l, wire, Apply(c, l, wire))
  {
    var k := Key(ArchiveKind, l.name);
    if Current(c, k) {
      ChargedWithin(c, k, l.id, l.charging);
    }
  }

  lemma DesignWithin(c: Cache, l: Label, wire: Wire)
    requires Enabled(c, l, wire) && l.DesignDone?
    ensures BudgetStep(c, l, wire, Apply(c, l, wire))
  {
    var k := Key(DesignKind, l.name);
    if Current(c, k) {
      ChargedWithin(c, k, l.id, l.charging);
    }
  }

  lemma GuardWithin(c: Cache, l: Label, wire: Wire)
    requires Enabled(c, l, wire) && l.GuardExit?
    ensures BudgetStep(c, l, wire, Apply(c, l, wire))
  {
    if l.stage.Charged? || l.stage.Scheduled? {
      ChargedWithin(c, l.key, l.id, l.charging);
    }
  }

  lemma InjectWithin(c: Cache, l: Label, wire: Wire)
    requires Enabled(c, l, wire) && l.Inject?
    ensures BudgetStep(c, l, wire, Apply(c, l, wire))
  {
    var d := ChargeName(InjectArchive(c, l.name, l.id), l.name, l.charging.base, l.charging.now);
    PassLeavesWithin(d, l.charging.victims, l.name);
    EvictKeepsBudget(d, l.charging.victims, l.name);
  }

  lemma SetMaxWithin(c: Cache, l: Label, wire: Wire)
    requires Enabled(c, l, wire) && l.SetMax?
    ensures BudgetStep(c, l, wire, Apply(c, l, wire))
  {
    var d := c.(lru := c.lru.(maxBytes := l.maxBytes));
    PassLeavesWithin(d, l.victims, "");
    EvictKeepsBudget(d, l.victims, "");
  }

  lemma CommitWithin(c: Cache, l: Label, wire: Wire)
    requires Enabled(c, l, wire) && l.CommitPayload?
    ensures BudgetStep(c, l, wire, Apply(c, l, wire))
  {
    var co := c.commits[l.commit];
    if CommitValid(c, co, wire) {
      PassLeavesWithin(StorePayload(c, co, wire), l.victims, co.name);
      EvictKeepsBudget(StorePayload(c, co, wire), l.victims, co.name);
    }
  }

  /** Only SetMax moves the budget, and a step that evicts ends within it. */
  ghost predicate BudgetStep(c: Cache, l: Label, wire: Wire, t: Cache) {
    && t.lru.maxBytes == (if l.SetMax? then l.maxBytes else c.lru.maxBytes)
    && (Protects(c, l, wire).Some? ==> WithinBudget(c, Protects(c, l, wire).value, t.lru))
  }

  lemma BudgetStepHolds(c: Cache, l: Label, wire: Wire)
    requires Enabled(c, l, wire)
    ensures BudgetStep(c, l, wire, Apply(c, l, wire))
  {
    match l
    case ArchiveDone(_, _, _, _) => ArchiveWithin(c, l, wire);
    case DesignDone(_, _, _, _) => DesignWithin(c, l, wire);
    case GuardExit(_, _, _, _, _) => GuardWithin(c, l, wire);
    case Inject(_, _, _) => InjectWithin(c, l, wire);
    case SetMax(_, _) => SetMaxWithin(c, l, wire);
    case CommitPayload(_, _) => CommitWithin(c, l, wire);
    case _ =>
  }

  /** In every run the ledger's budget is the one set last, and after every operation that
      charges, commits or changes the budget the total is within it, or only the name
      just served, names being loaded and names without a time are left. */
  lemma {:induction false} BudgetIsKept(tr: seq<Cache>, ls: seq<Label>, wire: Wire, i: nat)
    requires Run(tr, ls, wire) && i < |tr|
    ensures tr[i].lru.maxBytes == BudgetOf(tr, ls, i)
    ensures i > 0 && Protects(tr[i-1], ls[i-1], wire).Some? ==>
              || BudgetOf(tr, ls, i) == 0 || tr[i].lru.cached <= BudgetOf(tr, ls, i)
              || forall n :: n in tr[i].lru.entries ==>
                   || n == Protects(tr[i-1], ls[i-1], wire).value || StateOf(tr[i-1], n) == Loading
                   || tr[i].lru.entries[n].lastServed >= L.TIME_MAX
  {
    if i > 0 {
      BudgetIsKept(tr, ls, wire, i - 1);
      assert Leads(tr, ls, wire, i - 1);
      BudgetStepHolds(tr[i-1], ls[i-1], wire);
    }
  }
}
