/** The cache object: its methods mutate the maps, the payload store, the LRU ledger and
    the state table in the order the program does. Each operation is proved to be an
    enabled step of the cache model, so that everything proved of its runs holds of the
    object; in particular each keeps the cache sound. */
module DesignCache {
  import opened Basics
  import opened CacheKeys
  import opened CacheModel
  import opened CacheSoundness
  import S = ResponseStore
  import L = LruLedger
  import V = CacheViews

  /** What backs a cached name: a readable file on disk, or else the injected archive. */
  datatype Backing = OnDisk(fileSize: nat) | InMemory(injectedBytes: nat)

  /** What a name is charged with for its backing. */
  function BaseBytes(b: Backing): (bytes: nat)
    ensures b.OnDisk? ==> bytes == b.fileSize + 4096
    ensures b.InMemory? ==> bytes == 4096 + b.injectedBytes
  {
    match b
    case OnDisk(size) => size + L.DESIGN_BYTES_OVERHEAD
    case InMemory(injected) => L.DESIGN_BYTES_OVERHEAD + injected
  }

  function ChargingFor(b: Backing, now: int, victims: seq<Name>): Charging {
    Charging(BaseBytes(b), now, victims)
  }

  /** Going from c to t is one step of the model, and keeps the cache sound. */
  ghost predicate Performs(c: Cache, l: Label, wire: Wire, t: Cache) {
    && Enabled(c, l, wire) && t == Apply(c, l, wire)
    && (Sound(c, wire) ==> Sound(t, wire))
  }

  lemma Performed(c: Cache, l: Label, wire: Wire, t: Cache)
    requires Enabled(c, l, wire) && t == Apply(c, l, wire)
    ensures Performs(c, l, wire, t)
  {
    if Sound(c, wire) {
      SoundStep(c, l, wire);
    }
  }

  class Caches {
    var archives: map<Name, Archive>
    var designs: map<Name, Design>
    var states: map<Name, LoadState>
    var epoch: nat
    var loads: map<Key, Load>
    var commits: map<nat, Commit>
    var events: seq<Event>
    const responses: S.Responses
    const ledger: L.LruCache

    function View(): Cache
      reads this, responses, ledger
    {
      Cache(archives, designs, responses.View(), ledger.View(), states, epoch, loads, commits, events)
    }

    constructor (budget: L.U64)
      ensures Init(View()) && ledger.maxBytes == budget
      ensures fresh(responses) && fresh(ledger)
    {
      archives, designs, states, epoch, loads, commits, events := map[], map[], map[], 0, map[], map[], [];
      responses := new S.Responses();
      ledger := new L.LruCache(budget);
    }

    method TransitionLoadState(n: Name, to: LoadState)
      modifies this
      ensures View() == Transition(old(View()), n, to)
    {
      var from := if n in states then states[n] else Unloaded;
      if from == to {
        return;
      }
      states := states[n := to];
      events := events + [Event(n, from, to)];
    }

    method EraseLoadState(n: Name)
      modifies this
      ensures View() == EraseState(old(View()), n)
    {
      if n !in states {
        return;
      }
      var from := states[n];
      states := states - {n};
      if from != Unloaded {
        events := events + [Event(n, from, Unloaded)];
      }
    }

    method StoredWord(n: Name) returns (b: L.U64)
      ensures b == Stored(View(), n)
    {
      b := L.Wrap(if n in responses.entries then responses.entries[n].TotalBytes() else 0);
    }

    method InvalidateResponsePayloads(n: Name)
      modifies responses, ledger
      ensures View() == DropPayloads(old(View()), n)
    {
      var dropped := responses.Invalidate(n);
      var stored := StoredWord(n);
      ledger.AdjustLruSerializedBytes(n, stored);
    }

    /** The clean-up of each evicted name, one after the other. */
    method EvictCacheEntries(names: seq<Name>)
      modifies this, responses
      ensures View() == EvictNames(old(View()), names)
    {
      var i := 0;
      while i < |names|
        invariant i <= |names|
        invariant EvictNames(View(), names[i..]) == EvictNames(old(View()), names)
      {
        var dropped := responses.Invalidate(names[i]);
        designs := designs - {names[i]};
        archives := archives - {names[i]};
        TransitionLoadState(names[i], Unloaded);
        assert names[i..][1..] == names[i+1..];
        i := i + 1;
      }
      assert names[i..] == [];
    }

    /** The size of the archive file, or of the injected archive, with a flat overhead, and
        the bytes stored for the name. */
    method EstimateDesignBytes(n: Name, backing: Backing) returns (bytes: L.U64)
      ensures backing.OnDisk? ==> bytes == L.Wrap(backing.fileSize + 4096 + Stored(View(), n))
      ensures backing.InMemory? ==> bytes == L.Wrap(4096 + Stored(View(), n) + backing.injectedBytes)
    {
      var stored := StoredWord(n);
      match backing
      case OnDisk(size) => bytes := L.Wrap(size + L.DESIGN_BYTES_OVERHEAD + stored);
      case InMemory(injected) => bytes := L.Wrap(L.DESIGN_BYTES_OVERHEAD + stored + injected);
    }

    /** order is the enumeration order of the LRU entries, the new one included. */
    method InsertLruAndEvict(n: Name, backing: Backing, now: int, order: seq<Name>) returns (victims: seq<Name>)
      requires forall m :: m in order <==> m == n || m in ledger.entries
      modifies this, responses, ledger
      ensures PassOk(ChargeName(old(View()), n, BaseBytes(backing), now), victims, n)
      ensures View() == Evict(ChargeName(old(View()), n, BaseBytes(backing), now), victims)
    {
      var bytes := EstimateDesignBytes(n, backing);
      var stored := StoredWord(n);
      ledger.InsertLru(n, bytes, stored, now);
      assert View() == ChargeName(old(View()), n, BaseBytes(backing), now);
      victims := ledger.EvictOverBudgetLocked(n, LoadingNames(states), order);
      EvictCacheEntries(victims);
    }

    // ---- operations ----

    /** The registration half of a load: capture the stamp, become the runner, announce. */
    method BeginLoad(k: Key, announces: bool, ghost wire: Wire)
      requires k !in loads && (k.kind.DesignKind? ==> announces)
      modifies this
      ensures Performs(old(View()), Register(k, announces), wire, View())
    {
      ghost var c := View();
      var generationAtStart := S.Gen(responses.View(), k.name);
      loads := loads[k := Load(announces, Stamp(epoch, generationAtStart), None)];
      if announces {
        TransitionLoadState(k.name, Loading);
      }
      Performed(c, Register(k, announces), wire, View());
    }

    /** A design load finds its archive cached. */
    method FetchArchive(n: Name, ghost wire: Wire)
      requires Key(DesignKind, n) in loads && loads[Key(DesignKind, n)].got.None? && n in archives
      modifies this
      ensures Performs(old(View()), Fetch(n), wire, View())
    {
      ghost var c := View();
      var k := Key(DesignKind, n);
      loads := loads[k := loads[k].(got := Some(archives[n]))];
      Performed(c, Fetch(n), wire, View());
    }

    /** The check a loader makes before it inserts: invalidated or cleared since. */
    method IsStale(k: Key) returns (stale: bool)
      requires k in loads
      ensures stale == Stale(View(), k)
    {
      var invalidated := S.Gen(responses.View(), k.name) != loads[k].mark.gen;
      return epoch != loads[k].mark.epoch || invalidated;
    }

    /** Insert the load's object unless one is there already. */
    method InsertObject(k: Key, id: nat)
      requires Parsed(View(), k)
      modifies this
      ensures View() == Insert(old(View()), k, id)
    {
      if k.kind.ArchiveKind? {
        if k.name !in archives {
          archives := archives[k.name := Archive(id, loads[k].mark)];
        }
        assert archives == InsertArchive(old(View()), k.name, id).archives;
      } else {
        if k.name !in designs {
          designs := designs[k.name := Design(id, loads[k].got.value)];
        }
        assert designs == InsertDesign(old(View()), k.name, id).designs;
      }
    }

    /** The insertion half of a load, up to the state it is to record. */
    method InsertAndChargeObject(k: Key, id: nat, backing: Backing, now: int, order: seq<Name>)
      returns (victims: seq<Name>)
      requires Parsed(View(), k)
      requires forall m :: m in order <==> m == k.name || m in ledger.entries
      modifies this, responses, ledger
      ensures PassOk(ChargeName(Insert(old(View()), k, id), k.name, BaseBytes(backing), now), victims, k.name)
      ensures View() == InsertAndCharge(old(View()), k, id, ChargingFor(backing, now, victims))
    {
      InsertObject(k, id);
      victims := InsertLruAndEvict(k.name, backing, now, order);
    }

    method ScheduleCommitOf(n: Name, id: nat, commit: nat, kept: Design, markEpoch: nat, ghost c: Cache)
      requires Parsed(c, Key(DesignKind, n)) && kept == KeptDesign(c, n, id)
      requires markEpoch == c.loads[Key(DesignKind, n)].mark.epoch
      modifies this
      ensures View() == ScheduleCommit(c, old(View()), n, id, commit)
    {
      commits := commits[commit := Commit(n, kept, markEpoch, S.Gen(responses.View(), n))];
    }

    /** Insert and charge a design, schedule its payload commit and record Loaded. */
    method PublishDesign(n: Name, id: nat, commit: nat, backing: Backing, now: int, order: seq<Name>)
      returns (victims: seq<Name>)
      requires Parsed(View(), Key(DesignKind, n))
      requires forall m :: m in order <==> m == n || m in ledger.entries
      modifies this, responses, ledger
      ensures PassOk(ChargeName(Insert(old(View()), Key(DesignKind, n), id), n, BaseBytes(backing), now), victims, n)
      ensures View() == DesignInserted(old(View()), n, id, commit, ChargingFor(backing, now, victims))
    {
      ghost var c := View();
      var k := Key(DesignKind, n);
      var mark := loads[k].mark;
      var kept := if n in designs then designs[n] else Design(id, loads[k].got.value);
      victims := InsertAndChargeObject(k, id, backing, now, order);
      ScheduleCommitOf(n, id, commit, kept, mark.epoch, c);
      TransitionLoadState(n, Loaded);
    }

    /** The completion half of a design load that produced a design: abandon if the name
        was invalidated or the cache cleared since, else insert, charge, schedule the
        payload commit and record Loaded. */
    method FinishDesign(n: Name, id: nat, commit: nat, backing: Backing, now: int, order: seq<Name>, ghost wire: Wire)
      returns (victims: seq<Name>)
      requires Key(DesignKind, n) in loads && loads[Key(DesignKind, n)].got.Some? && commit !in commits
      requires forall m :: m in order <==> m == n || m in ledger.entries
      modifies this, responses, ledger
      ensures Performs(old(View()), DesignDone(n, id, commit, ChargingFor(backing, now, victims)), wire, View())
    {
      ghost var c := View();
      victims := [];
      var k := Key(DesignKind, n);
      var stale := IsStale(k);
      if !stale {
        victims := PublishDesign(n, id, commit, backing, now, order);
      }
      loads := loads - {k};
      Performed(c, DesignDone(n, id, commit, ChargingFor(backing, now, victims)), wire, View());
    }

    /** The same for an archive load. The object it returns, inserted or abandoned, also
        reaches the design load that joined it. */
    method FinishArchive(n: Name, id: nat, joined: bool, backing: Backing, now: int, order: seq<Name>, ghost wire: Wire)
      returns (victims: seq<Name>)
      requires Key(ArchiveKind, n) in loads
      requires joined ==> Key(DesignKind, n) in loads && loads[Key(DesignKind, n)].got.None?
      requires forall m :: m in order <==> m == n || m in ledger.entries
      modifies this, responses, ledger
      ensures Performs(old(View()), ArchiveDone(n, id, joined, ChargingFor(backing, now, victims)), wire, View())
    {
      ghost var c := View();
      victims := [];
      var k := Key(ArchiveKind, n);
      var load := loads[k];
      var a := Archive(id, load.mark);
      var stale := IsStale(k);
      if !stale {
        a := if n in archives then archives[n] else a;
        victims := InsertAndChargeObject(k, id, backing, now, order);
        if load.announces {
          TransitionLoadState(n, Loaded);
        }
        assert View() == ArchiveInserted(c, n, id, ChargingFor(backing, now, victims));
      }
      Hand(n, joined, a);
      loads := loads - {k};
      Performed(c, ArchiveDone(n, id, joined, ChargingFor(backing, now, victims)), wire, View());
    }

    method Hand(n: Name, joined: bool, a: Archive)
      modifies this
      ensures View() == if joined then Deliver(old(View()), n, a) else old(View())
    {
      var k := Key(DesignKind, n);
      if joined && k in loads {
        loads := loads[k := loads[k].(got := Some(a))];
      }
    }

    /** A load that found no such design forgets the state it announced. */
    method FinishNotFound(k: Key, ghost wire: Wire)
      requires k in loads
      modifies this
      ensures Performs(old(View()), NotFound(k), wire, View())
    {
      ghost var c := View();
      if loads[k].announces {
        EraseLoadState(k.name);
      }
      loads := loads - {k};
      Performed(c, NotFound(k), wire, View());
    }

    /** A load that threw records Failed, unless the cache was cleared meanwhile. */
    method FailLoad(k: Key, ghost wire: Wire)
      requires k in loads
      modifies this
      ensures Performs(old(View()), Fails(k), wire, View())
    {
      ghost var c := View();
      if loads[k].announces && epoch == loads[k].mark.epoch {
        TransitionLoadState(k.name, Failed);
      }
      loads := loads - {k};
      Performed(c, Fails(k), wire, View());
    }

    /** An exception outside the parse takes the load out at the given stage: the exit guard
        fails the promise and erases the in-flight entry, and does nothing else. */
    method ExitThroughGuard(
      k: Key, stage: Stage, id: nat, commit: nat, backing: Backing, now: int, order: seq<Name>, ghost wire: Wire)
      returns (victims: seq<Name>)
      requires k in loads && (!stage.Announced? ==> Parsed(View(), k) && !Stale(View(), k))
      requires stage.Scheduled? ==> k.kind.DesignKind? && commit !in commits
      requires forall m :: m in order <==> m == k.name || m in ledger.entries
      modifies this, responses, ledger
      ensures Performs(old(View()), GuardExit(k, stage, id, commit, ChargingFor(backing, now, victims)), wire, View())
    {
      ghost var c := View();
      victims := [];
      if stage.Inserted? {
        InsertObject(k, id);
      } else if stage.Charged? {
        victims := InsertAndChargeObject(k, id, backing, now, order);
      } else if stage.Scheduled? {
        var kept := if k.name in designs then designs[k.name] else Design(id, loads[k].got.value);
        var markEpoch := loads[k].mark.epoch;
        victims := InsertAndChargeObject(k, id, backing, now, order);
        ScheduleCommitOf(k.name, id, commit, kept, markEpoch, c);
      }
      assert View() == DoneBy(c, k, stage, id, commit, ChargingFor(backing, now, victims));
      loads := loads - {k};
      Performed(c, GuardExit(k, stage, id, commit, ChargingFor(backing, now, victims)), wire, View());
    }

    /** Put an archive in place of whatever the name had. */
    method Inject(n: Name, id: nat, backing: Backing, now: int, order: seq<Name>, ghost wire: Wire)
      returns (victims: seq<Name>)
      requires forall m :: m in order <==> m == n || m in ledger.entries
      modifies this, responses, ledger
      ensures Performs(old(View()), CacheModel.Inject(n, id, ChargingFor(backing, now, victims)), wire, View())
      ensures n in archives
    {
      ghost var c := View();
      ReplaceArchive(n, id);
      victims := InsertLruAndEvict(n, backing, now, order);
      TransitionLoadState(n, Loaded);
      Performed(c, CacheModel.Inject(n, id, ChargingFor(backing, now, victims)), wire, View());
      InjectedIsCached(c, n, id, ChargingFor(backing, now, victims));
    }

    /** The size estimate throws: the archive is in place, uncharged and unrecorded. */
    method InterruptedInjection(n: Name, id: nat, ghost wire: Wire)
      modifies this, responses, ledger
      ensures Performs(old(View()), InjectThrows(n, id), wire, View())
    {
      ghost var c := View();
      ReplaceArchive(n, id);
      Performed(c, InjectThrows(n, id), wire, View());
    }

    method ReplaceArchive(n: Name, id: nat)
      modifies this, responses, ledger
      ensures View() == InjectArchive(old(View()), n, id)
    {
      archives := archives[n := Archive(id, Stamp(epoch, S.Gen(responses.View(), n) + 1))];
      designs := designs - {n};
      InvalidateResponsePayloads(n);
    }

    /** The injection; with save, the archive is then fetched from the cache to be written
        to disk, and the name's charge re-estimated from the file, saved being what
        then backs the name. The two later operations are steps of their own. */
    method AddFileArchive(
      n: Name, id: nat, save: bool, backing: Backing, now: int, saved: Backing, savedAt: int, order: seq<Name>,
      ghost wire: Wire)
      returns (victims: seq<Name>, ghost injected: Cache, ghost touched: Cache)
      requires forall m :: m in order <==> m == n || m in ledger.entries
      modifies this, responses, ledger
      ensures Performs(old(View()), CacheModel.Inject(n, id, ChargingFor(backing, now, victims)), wire, injected)
      ensures save ==> n in injected.archives
      ensures save ==> Performs(injected, Touch(n, savedAt), wire, touched)
      ensures save ==> Performs(touched, Resync(n, BaseBytes(saved)), wire, View())
      ensures !save ==> View() == injected
    {
      victims := Inject(n, id, backing, now, order, wire);
      injected, touched := View(), View();
      if save {
        TouchLru(n, savedAt, wire);
        touched := View();
        ResyncLruEstimate(n, saved, wire);
      }
    }

    method TouchLru(n: Name, now: int, ghost wire: Wire)
      modifies ledger
      ensures Performs(old(View()), Touch(n, now), wire, View())
    {
      ghost var c := View();
      ledger.TouchLru(n, now);
      Performed(c, Touch(n, now), wire, View());
    }

    method ResyncLruEstimate(n: Name, backing: Backing, ghost wire: Wire)
      modifies ledger
      ensures Performs(old(View()), Resync(n, BaseBytes(backing)), wire, View())
    {
      ghost var c := View();
      var bytes := EstimateDesignBytes(n, backing);
      var stored := StoredWord(n);
      ledger.ResyncLruEstimate(n, bytes, stored);
      Performed(c, Resync(n, BaseBytes(backing)), wire, View());
    }

    method InvalidateDesign(n: Name, ghost wire: Wire)
      modifies this, responses, ledger
      ensures Performs(old(View()), Invalidate(n), wire, View())
    {
      ghost var c := View();
      archives := archives - {n};
      designs := designs - {n};
      InvalidateResponsePayloads(n);
      TransitionLoadState(n, Unloaded);
      Performed(c, Invalidate(n), wire, View());
    }

    method Clear(ghost wire: Wire)
      modifies this, responses, ledger
      ensures Performs(old(View()), CacheModel.Clear, wire, View())
    {
      ghost var c := View();
      archives := map[];
      designs := map[];
      ledger.Clear();
      responses.Clear();
      states := map[];
      epoch := epoch + 1;
      Performed(c, CacheModel.Clear, wire, View());
    }

    method SetCacheMaxBytes(maxBytes: L.U64, order: seq<Name>, ghost wire: Wire) returns (victims: seq<Name>)
      requires forall m :: m in order <==> m in ledger.entries
      modifies this, responses, ledger
      ensures Performs(old(View()), SetMax(maxBytes, victims), wire, View())
    {
      ghost var c := View();
      ledger.maxBytes := maxBytes;
      victims := ledger.EvictOverBudgetLocked("", LoadingNames(states), order);
      EvictCacheEntries(victims);
      Performed(c, SetMax(maxBytes, victims), wire, View());
    }

    /** The first half of a lazy serialization: the design, generation and epoch it is for. */
    method CaptureCommit(id: nat, n: Name, ghost wire: Wire)
      requires id !in commits && n in designs
      modifies this
      ensures Performs(old(View()), Capture(id, n), wire, View())
    {
      ghost var c := View();
      commits := commits[id := Commit(n, designs[n], epoch, S.Gen(responses.View(), n))];
      Performed(c, Capture(id, n), wire, View());
    }

    /** Validate a payload against design identity, LRU presence, epoch and generation,
        keep it, and charge it; then evict other names if over budget. */
    method StoreAndEvict(co: Commit, bytes: S.Bytes, order: seq<Name>, ghost wire: Wire) returns (victims: seq<Name>)
      requires bytes == wire(co.design)
      requires forall m :: m in order <==> m in ledger.entries
      modifies this, responses, ledger
      ensures CommitValid(old(View()), co, wire) ==> PassOk(StorePayload(old(View()), co, wire), victims, co.name)
      ensures View() == Committed(old(View()), co, victims, wire)
    {
      victims := [];
      if bytes == [] || co.name !in designs || designs[co.name] != co.design {
        return;
      }
      if co.name !in ledger.entries || epoch != co.epoch {
        return;
      }
      var stored, storedBytes := responses.TryStore(co.name, co.gen, S.Payload(bytes, [], []));
      if stored {
        ledger.ChargeSerialized(co.name, L.Wrap(storedBytes));
      }
      assert View() == StorePayload(old(View()), co, wire);
      victims := ledger.EvictOverBudgetLocked(co.name, LoadingNames(states), order);
      EvictCacheEntries(victims);
    }

    /** A scheduled or captured commit is carried out: wire serializes its design. */
    method CommitResponsePayloads(id: nat, order: seq<Name>, wire: Wire) returns (victims: seq<Name>)
      requires id in commits
      requires forall m :: m in order <==> m in ledger.entries
      modifies this, responses, ledger
      ensures Performs(old(View()), CommitPayload(id, victims), wire, View())
    {
      ghost var c := View();
      victims := StoreAndEvict(commits[id], wire(commits[id].design), order, wire);
      CommitsKept(c, c.commits[id], victims, wire);
      commits := commits - {id};
      Performed(c, CommitPayload(id, victims), wire, View());
    }
  }

  lemma InjectedIsCached(c: Cache, n: Name, id: nat, ch: Charging)
    requires PassOk(ChargeName(InjectArchive(c, n, id), n, ch.base, ch.now), ch.victims, n)
    ensures n in Injected(c, n, id, ch).archives
  {
    var d := ChargeName(InjectArchive(c, n, id), n, ch.base, ch.now);
    V.AtEvict(d, ch.victims, n, n);
    assert V.At(d, n).archive.Some?;
    assert V.At(Evict(d, ch.victims), n).archive.Some?;
  }

  lemma CommitsKept(c: Cache, co: Commit, vs: seq<Name>, wire: Wire)
    requires CommitValid(c, co, wire) ==> PassOk(StorePayload(c, co, wire), vs, co.name)
    ensures Committed(c, co, vs, wire).commits == c.commits
  {
    if CommitValid(c, co, wire) {
      V.AtEvict(StorePayload(c, co, wire), vs, co.name, co.name);
    }
  }
}
