/** What every operation of the cache keeps: served payloads describe the cached design,
    cached archives are current, and the byte accounts match the store. */
module CacheSoundness {
  import opened Basics
  import opened CacheKeys
  import opened CacheModel
  import opened CacheViews
  import S = ResponseStore
  import L = LruLedger

  /** A stored payload was built from the design cached under its name and is charged, a
      cached archive's load registered after the last invalidation of its name, and the
      payload charge is what the store holds. */
  ghost predicate NameOk(v: NameView, wire: Wire) {
    && (v.payload.Some? ==> v.design.Some? && v.payload.value == S.Payload(wire(v.design.value), [], []))
    && (v.archive.Some? ==> v.archive.value.born == v.stamp)
    && (v.payload.Some? ==> v.charge.Some?)
    && (v.charge.Some? ==> v.charge.value == if v.payload.Some? then L.Wrap(v.payload.value.TotalBytes()) else 0)
  }

  ghost predicate Sound(c: Cache, wire: Wire) {
    L.Balanced(c.lru) && forall n :: NameOk(At(c, n), wire)
  }

  lemma ArchiveOutcomeOk(c: Cache, l: Label, wire: Wire, n: Name)
    requires l.ArchiveDone? && NameOk(At(c, n), wire)
    ensures NameOk(Outcome(c, l, wire, n), wire)
  {
  }

  lemma DesignOutcomeOk(c: Cache, l: Label, wire: Wire, n: Name)
    requires l.DesignDone? && NameOk(At(c, n), wire)
    ensures NameOk(Outcome(c, l, wire, n), wire)
  {
  }

  lemma GuardOutcomeOk(c: Cache, l: Label, wire: Wire, n: Name)
    requires l.GuardExit? && NameOk(At(c, n), wire)
    ensures NameOk(Outcome(c, l, wire, n), wire)
  {
  }

  lemma CommitOutcomeOk(c: Cache, l: Label, wire: Wire, n: Name)
    requires l.CommitPayload? && NameOk(At(c, n), wire)
    ensures NameOk(Outcome(c, l, wire, n), wire)
  {
  }

  lemma OutcomeOk(c: Cache, l: Label, wire: Wire, n: Name)
    requires NameOk(At(c, n), wire)
    ensures NameOk(Outcome(c, l, wire, n), wire)
  {
    match l
    case ArchiveDone(_, _, _, _) => ArchiveOutcomeOk(c, l, wire, n);
    case DesignDone(_, _, _, _) => DesignOutcomeOk(c, l, wire, n);
    case GuardExit(_, _, _, _, _) => GuardOutcomeOk(c, l, wire, n);
    case CommitPayload(_, _) => CommitOutcomeOk(c, l, wire, n);
    case _ =>
  }

  lemma NameOkStep(c: Cache, l: Label, wire: Wire, n: Name)
    requires Enabled(c, l, wire) && NameOk(At(c, n), wire)
    ensures NameOk(At(Apply(c, l, wire), n), wire)
  {
    StepSeenAt(c, l, wire, n);
    OutcomeOk(c, l, wire, n);
  }

  // ---- the ledger: every operation is a sequence of critical sections ----

  lemma {:induction false} EvictNamesLru(c: Cache, vs: seq<Name>)
    ensures EvictNames(c, vs).lru == c.lru
    decreases |vs|
  {
    if vs != [] {
      EvictNamesLru(EvictOne(c, vs[0]), vs[1..]);
    }
  }

  lemma ChargeAndEvictBalanced(c: Cache, n: Name, ch: Charging)
    requires L.Balanced(c.lru) && PassOk(ChargeName(c, n, ch.base, ch.now), ch.victims, n)
    ensures L.Balanced(Evict(ChargeName(c, n, ch.base, ch.now), ch.victims).lru)
  {
    var d := ChargeName(c, n, ch.base, ch.now);
    var section := L.ChargeIt(n, L.Wrap(ch.base + Stored(c, n)), Stored(c, n), ch.now, ch.victims);
    L.SectionBalanced(c.lru, section, LoadingNames(c.states));
    EvictNamesLru(d.(lru := L.RemoveAll(d.lru, ch.victims)), ch.victims);
  }

  lemma DropBalanced(c: Cache, n: Name)
    requires L.Balanced(c.lru)
    ensures L.Balanced(DropName(c, n).lru)
  {
    L.SectionBalanced(c.lru, L.AdjustIt(n, L.Wrap(S.StoredBytes(S.Drop(c.store, n), n))), {});
  }

  lemma CommitBalanced(c: Cache, co: Commit, vs: seq<Name>, wire: Wire)
    requires L.Balanced(c.lru) && (CommitValid(c, co, wire) ==> PassOk(StorePayload(c, co, wire), vs, co.name))
    ensures L.Balanced(Committed(c, co, vs, wire).lru)
  {
    if CommitValid(c, co, wire) {
      var d := StorePayload(c, co, wire);
      L.PayloadBalanced(c.lru, co.name, L.Wrap(S.StoredBytes(d.store, co.name)));
      L.PassRemoves(d.lru, vs, co.name, LoadingNames(d.states));
      EvictNamesLru(d.(lru := L.RemoveAll(d.lru, vs)), vs);
    }
  }

  lemma InsertBalanced(c: Cache, k: Key, id: nat, ch: Charging)
    requires L.Balanced(c.lru) && Parsed(c, k)
    requires PassOk(ChargeName(Insert(c, k, id), k.name, ch.base, ch.now), ch.victims, k.name)
    ensures L.Balanced(InsertAndCharge(c, k, id, ch).lru)
  {
    ChargeAndEvictBalanced(Insert(c, k, id), k.name, ch);
  }

  lemma ArchiveBalanced(c: Cache, l: Label, wire: Wire)
    requires L.Balanced(c.lru) && Enabled(c, l, wire) && l.ArchiveDone?
    ensures L.Balanced(Apply(c, l, wire).lru)
  {
    var k := Key(ArchiveKind, l.name);
    if !Stale(c, k) {
      InsertBalanced(c, k, l.id, l.charging);
    }
  }

  lemma DesignBalanced(c: Cache, l: Label, wire: Wire)
    requires L.Balanced(c.lru) && Enabled(c, l, wire) && l.DesignDone?
    ensures L.Balanced(Apply(c, l, wire).lru)
  {
    var k := Key(DesignKind, l.name);
    if !Stale(c, k) {
      InsertBalanced(c, k, l.id, l.charging);
    }
  }

  lemma GuardBalanced(c: Cache, l: Label, wire: Wire)
    requires L.Balanced(c.lru) && Enabled(c, l, wire) && l.GuardExit?
    ensures L.Balanced(Apply(c, l, wire).lru)
  {
    if l.stage.Charged? || l.stage.Scheduled? {
      InsertBalanced(c, l.key, l.id, l.charging);
    }
  }

  lemma LoadBalanced(c: Cache, l: Label, wire: Wire)
    requires L.Balanced(c.lru) && Enabled(c, l, wire) && OfALoad(l)
    ensures L.Balanced(Apply(c, l, wire).lru)
  {
    match l
    case ArchiveDone(_, _, _, _) => ArchiveBalanced(c, l, wire);
    case DesignDone(_, _, _, _) => DesignBalanced(c, l, wire);
    case GuardExit(_, _, _, _, _) => GuardBalanced(c, l, wire);
    case _ =>
  }

  lemma SetMaxBalanced(c: Cache, l: Label, wire: Wire)
    requires L.Balanced(c.lru) && Enabled(c, l, wire) && l.SetMax?
    ensures L.Balanced(Apply(c, l, wire).lru)
  {
    L.SectionBalanced(c.lru, L.SetMaxIt(l.maxBytes, l.victims), LoadingNames(c.states));
    EvictNamesLru(c.(lru := L.RemoveAll(c.lru.(maxBytes := l.maxBytes), l.victims)), l.victims);
  }

  lemma BalancedStep(c: Cache, l: Label, wire: Wire)
    requires L.Balanced(c.lru) && Enabled(c, l, wire)
    ensures L.Balanced(Apply(c, l, wire).lru)
  {
    if OfALoad(l) {
      LoadBalanced(c, l, wire);
    } else {
      match l
      case Inject(n, id, ch) =>
        DropBalanced(c, n);
        ChargeAndEvictBalanced(InjectArchive(c, n, id), n, ch);
      case InjectThrows(n, id) => DropBalanced(c, n);
      case CommitPayload(id, vs) => CommitBalanced(c, c.commits[id], vs, wire);
      case Resync(n, base) =>
        L.SectionBalanced(c.lru, L.ResyncIt(n, L.Wrap(base + Stored(c, n)), Stored(c, n)), {});
      case Invalidate(n) => DropBalanced(c, n);
      case Clear => L.SectionBalanced(c.lru, L.ResetIt, {});
      case SetMax(_, _) => SetMaxBalanced(c, l, wire);
      case Touch(n, now) => L.SectionBalanced(c.lru, L.TouchIt(n, now), {});
      case _ =>
    }
  }

  /** Every operation keeps the cache sound. */
  lemma SoundStep(c: Cache, l: Label, wire: Wire)
    requires Sound(c, wire) && Enabled(c, l, wire)
    ensures Sound(Apply(c, l, wire), wire)
  {
    BalancedStep(c, l, wire);
    forall n
      ensures NameOk(At(Apply(c, l, wire), n), wire)
    {
      NameOkStep(c, l, wire, n);
    }
  }

  lemma {:induction false} SoundAlways(tr: seq<Cache>, ls: seq<Label>, wire: Wire, i: nat)
    requires Run(tr, ls, wire) && i < |tr|
    ensures Sound(tr[i], wire)
  {
    if i == 0 {
      assert L.Weights(tr[0].lru.entries) == map[];
    } else {
      SoundAlways(tr, ls, wire, i - 1);
      assert Leads(tr, ls, wire, i - 1);
      SoundStep(tr[i-1], ls[i-1], wire);
    }
  }

  // ---- what this means to a caller ----

  datatype Message = Message(content: string)

  /** The cold path builds the pruned message of the cached design; the warm path parses
      the stored bytes. */
  datatype Codec = Codec(prune: Design -> Message, write: Message -> S.Bytes, read: S.Bytes -> Option<Message>)

  function WireOf(codec: Codec): Wire {
    d => codec.write(codec.prune(d))
  }

  /** A warm GetDesign reply equals what the cold path would send for the design cached
      at that moment, for any serializer whose reader inverts its writer. */
  lemma WarmEqualsCold(tr: seq<Cache>, ls: seq<Label>, codec: Codec, i: nat, n: Name)
    requires Run(tr, ls, WireOf(codec)) && i < |tr|
    requires forall m :: codec.read(codec.write(m)) == Some(m)
    requires n in tr[i].store.entries
    ensures n in tr[i].designs
    ensures codec.read(tr[i].store.entries[n].designPbBytes) == Some(codec.prune(tr[i].designs[n]))
  {
    SoundAlways(tr, ls, WireOf(codec), i);
    assert NameOk(At(tr[i], n), WireOf(codec));
  }

  /** Non-overlapping operations keep the accounts exact: as long as the entries fit in
      64 bits, the cached total is their sum in the integers, and each entry's payload
      charge is the number of bytes the store holds for that name. */
  lemma AccountsAreExact(tr: seq<Cache>, ls: seq<Label>, wire: Wire, i: nat)
    requires Run(tr, ls, wire) && i < |tr|
    ensures L.Total(tr[i].lru) < L.TWO64 ==> tr[i].lru.cached == L.Total(tr[i].lru)
    ensures forall n :: n in tr[i].lru.entries && S.StoredBytes(tr[i].store, n) < L.TWO64 ==>
              tr[i].lru.entries[n].serialized == S.StoredBytes(tr[i].store, n)
    ensures forall n :: n in tr[i].store.entries ==> n in tr[i].lru.entries
  {
    SoundAlways(tr, ls, wire, i);
    L.TotalBounds(tr[i].lru);
    forall n | n in tr[i].lru.entries || n in tr[i].store.entries
      ensures ChargedAsStored(tr[i], n)
    {
      AccountOf(tr[i], wire, n);
    }
  }

  /** The name has an LRU entry whose payload charge is the size of its stored payload. */
  ghost predicate ChargedAsStored(c: Cache, n: Name) {
    n in c.lru.entries && c.lru.entries[n].serialized == L.Wrap(S.StoredBytes(c.store, n))
  }

  lemma AccountOf(c: Cache, wire: Wire, n: Name)
    requires NameOk(At(c, n), wire) && (n in c.lru.entries || n in c.store.entries)
    ensures ChargedAsStored(c, n)
  {
  }
}
