/** The effect of each operation on one name, in terms of the tables themselves. */
module CacheEffects {
  import opened Basics
  import opened CacheKeys
  import opened CacheModel
  import opened CacheViews
  import opened CacheSoundness
  import opened CacheRuns
  import S = ResponseStore
  import L = LruLedger

  /** The state an operation records for the name, if it records one. */
  function Recorded(c: Cache, l: Label, wire: Wire, n: Name): Option<LoadState> {
    if n in Victims(c, l, wire) then Some(Unloaded)
    else
      match l
      case Register(k, announces) => if announces && k.name == n then Some(Loading) else None
      case ArchiveDone(m, _, _, _) =>
        var k := Key(ArchiveKind, m);
        if m == n && Current(c, k) && c.loads[k].announces then Some(Loaded) else None
      case DesignDone(m, _, _, _) => if m == n && Current(c, Key(DesignKind, m)) then Some(Loaded) else None
      case NotFound(k) => if k.name == n && k in c.loads && c.loads[k].announces then Some(Unloaded) else None
      case Fails(k) =>
        if k.name == n && k in c.loads && c.loads[k].announces && c.loads[k].mark.epoch == c.epoch
        then Some(Failed) else None
      case Inject(m, _, _) => if m == n then Some(Loaded) else None
      case Invalidate(m) => if m == n then Some(Unloaded) else None
      case Clear => Some(Unloaded)
      case _ => None
  }

  lemma StateSeen(c: Cache, n: Name)
    ensures StateOf(c, n) == if At(c, n).state.Some? then At(c, n).state.value else Unloaded
  {
  }

  lemma LoadRecords(c: Cache, l: Label, wire: Wire, n: Name)
    requires Enabled(c, l, wire) && OfALoad(l) && n !in Victims(c, l, wire)
    ensures var o := Outcome(c, l, wire, n).state;
      (if o.Some? then o.value else Unloaded) ==
      if Recorded(c, l, wire, n).Some? then Recorded(c, l, wire, n).value else StateOf(c, n)
  {
  }

  lemma OtherRecords(c: Cache, l: Label, wire: Wire, n: Name)
    requires Enabled(c, l, wire) && !OfALoad(l) && n !in Victims(c, l, wire)
    ensures var o := Outcome(c, l, wire, n).state;
      (if o.Some? then o.value else Unloaded) ==
      if Recorded(c, l, wire, n).Some? then Recorded(c, l, wire, n).value else StateOf(c, n)
  {
  }

  /** A load announces Loading and ends as Loaded, Failed or, if nothing was found, with no
      state; an injected name is Loaded; an evicted, invalidated or cleared one Unloaded;
      and nothing else changes a state. */
  lemma StatesAreRecorded(c: Cache, l: Label, wire: Wire, n: Name)
    requires Enabled(c, l, wire)
    ensures StateOf(Apply(c, l, wire), n) ==
            if Recorded(c, l, wire, n).Some? then Recorded(c, l, wire, n).value else StateOf(c, n)
  {
    var t := Apply(c, l, wire);
    StepSeenAt(c, l, wire, n);
    StateSeen(t, n);
    if n !in Victims(c, l, wire) {
      if OfALoad(l) {
        LoadRecords(c, l, wire, n);
      } else {
        OtherRecords(c, l, wire, n);
      }
    }
  }

  /** After an invalidation, an eviction or a Clear nothing of the name is cached or stored;
      after an injection, only the injected archive is. */
  lemma InvalidatedNamesAreGone(c: Cache, l: Label, wire: Wire, n: Name)
    requires Enabled(c, l, wire) && Invalidates(c, l, wire, n)
    ensures var t := Apply(c, l, wire);
      && n !in t.designs && n !in t.store.entries
      && if (l.Inject? || l.InjectThrows?) && l.name == n && n !in Victims(c, l, wire)
         then n in t.archives && t.archives[n].id == l.id
         else n !in t.archives
  {
    var t := Apply(c, l, wire);
    StepSeenAt(c, l, wire, n);
    assert At(t, n).design.None? && At(t, n).payload.None?;
    assert n in t.archives <==> At(t, n).archive.Some?;
  }

  /** A Clear leaves no name charged or recorded, and starts a new epoch with no
      generations; the loads and commits in flight stay with their threads. */
  lemma ClearLeavesNothing(c: Cache, wire: Wire)
    ensures var t := Apply(c, Clear, wire);
      && t.archives == map[] && t.designs == map[] && t.store.entries == map[] && t.store.gens == map[]
      && t.lru.entries == map[] && t.lru.cached == 0 && t.lru.maxBytes == c.lru.maxBytes
      && t.states == map[] && t.epoch == c.epoch + 1 && t.loads == c.loads && t.commits == c.commits
  {
  }

  /** A design load gets the archive that is cached, or the one its archive load ended with:
      the cached one if that load is current, else what it parsed itself. */
  lemma DesignLoadsGetTheirArchive(c: Cache, l: Label, wire: Wire)
    requires Enabled(c, l, wire) && (l.Fetch? || (l.ArchiveDone? && l.joined))
    ensures var k, a, t := Key(DesignKind, l.name), Key(ArchiveKind, l.name), Apply(c, l, wire);
      && k in t.loads && t.loads[k].mark == c.loads[k].mark
      && (l.Fetch? ==> t.loads[k].got == Some(c.archives[l.name]))
      && (l.ArchiveDone? ==>
            t.loads[k].got == Some(if Current(c, a) && l.name in c.archives then c.archives[l.name]
                                   else Archive(l.id, c.loads[a].mark)))
  {
    LoadsStep(c, l, wire);
  }

  /** What is cached of a name changes only when one of its loads inserts it, and then only
      if nothing was cached; or when the name is invalidated. */
  lemma CachedObjectsStay(c: Cache, l: Label, wire: Wire, n: Name)
    requires Enabled(c, l, wire) && !Invalidates(c, l, wire, n)
    ensures var t := Apply(c, l, wire);
      && (n in c.archives ==> n in t.archives && t.archives[n] == c.archives[n])
      && (n in c.designs ==> n in t.designs && t.designs[n] == c.designs[n])
      && (n in c.store.entries ==> n in t.store.entries && t.store.entries[n] == c.store.entries[n])
  {
    var t := Apply(c, l, wire);
    StepSeenAt(c, l, wire, n);
    ObjectsStay(c, l, wire, n);
    assert At(t, n) == Outcome(c, l, wire, n);
  }

  lemma ObjectsStay(c: Cache, l: Label, wire: Wire, n: Name)
    requires Enabled(c, l, wire) && !Invalidates(c, l, wire, n)
    ensures var v, w := At(c, n), Outcome(c, l, wire, n);
      && (v.archive.Some? ==> w.archive == v.archive)
      && (v.design.Some? ==> w.design == v.design)
      && (v.payload.Some? ==> w.payload == v.payload)
  {
  }
}
