/** The design cache at operation granularity: a load is a registration and a later
    completion, a payload commit is a later step of its own, and every other operation
    is one step. All shared fields of the cache appear as one value. */
module CacheModel {
  import opened Basics
  import opened CacheKeys
  import S = ResponseStore
  import L = LruLedger

  datatype LoadState = Unloaded | Loading | Loaded | Failed

  /** The cache epoch and a name's response generation: together they move whenever the
      name is invalidated. */
  datatype Stamp = Stamp(epoch: nat, gen: nat)

  /** born records the stamp under which the archive's load registered (or the injection
      that brought it); it is history, not something the program keeps. */
  datatype Archive = Archive(id: nat, born: Stamp)
  datatype Design = Design(id: nat, source: Archive)

  /** An in-flight load; got is the archive a design load has obtained so far. */
  datatype Load = Load(announces: bool, mark: Stamp, got: Option<Archive>)

  /** A scheduled payload commit and what it captured. */
  datatype Commit = Commit(name: Name, design: Design, epoch: nat, gen: nat)

  datatype Event = Event(name: Name, from: LoadState, to: LoadState)

  datatype Cache = Cache(
    archives: map<Name, Archive>,
    designs: map<Name, Design>,
    store: S.Store,
    lru: L.Ledger,
    states: map<Name, LoadState>,
    epoch: nat,
    loads: map<Key, Load>,
    commits: map<nat, Commit>,
    events: seq<Event>)

  function StateOf(c: Cache, n: Name): LoadState {
    if n in c.states then c.states[n] else Unloaded
  }

  function StampOf(c: Cache, n: Name): Stamp {
    Stamp(c.epoch, S.Gen(c.store, n))
  }

  function Stored(c: Cache, n: Name): L.U64 {
    L.Wrap(S.StoredBytes(c.store, n))
  }

  function LoadingNames(states: map<Name, LoadState>): set<Name> {
    set n | n in states && states[n] == Loading
  }

  // ---- building blocks ----

  function Transition(c: Cache, n: Name, to: LoadState): Cache {
    if StateOf(c, n) == to then c
    else c.(states := c.states[n := to], events := c.events + [Event(n, StateOf(c, n), to)])
  }

  function EraseState(c: Cache, n: Name): Cache {
    if n !in c.states then c
    else c.(states := c.states - {n},
            events := if StateOf(c, n) == Unloaded then c.events else c.events + [Event(n, StateOf(c, n), Unloaded)])
  }

  /** Drop the name's payloads, bump its generation and uncharge the bytes. */
  function DropPayloads(c: Cache, n: Name): Cache {
    var store := S.Drop(c.store, n);
    c.(store := store, lru := L.AdjustPayload(c.lru, n, L.Wrap(S.StoredBytes(store, n))))
  }

  function ChargeName(c: Cache, n: Name, base: nat, now: int): Cache {
    c.(lru := L.Charge(c.lru, n, L.Wrap(base + Stored(c, n)), Stored(c, n), now))
  }

  /** The clean-up of an evicted name, except for its state. */
  function Emptied(c: Cache, n: Name): Cache {
    c.(store := S.Drop(c.store, n), designs := c.designs - {n}, archives := c.archives - {n})
  }

  function EvictOne(c: Cache, n: Name): Cache {
    Transition(Emptied(c, n), n, Unloaded)
  }

  function EvictNames(c: Cache, vs: seq<Name>): Cache
    decreases |vs|
  {
    if vs == [] then c else EvictNames(EvictOne(c, vs[0]), vs[1..])
  }

  /** The eviction pass under the LRU mutex, then the clean-up of its victims. */
  function Evict(c: Cache, vs: seq<Name>): Cache {
    EvictNames(c.(lru := L.RemoveAll(c.lru, vs)), vs)
  }

  ghost predicate PassOk(c: Cache, vs: seq<Name>, protected: Name) {
    L.Pass(c.lru, vs, protected, LoadingNames(c.states))
  }

  // ---- operations ----

  /** base is the archive's size on disk (or the injected estimate) plus the overhead. */
  datatype Charging = Charging(base: nat, now: int, victims: seq<Name>)

  /** How far a load had come when an exception took it out through the loader-exit
      guard: announced only, its object inserted, also charged, its commit scheduled. */
  datatype Stage = Announced | Inserted | Charged | Scheduled

  datatype Label =
    | Register(key: Key, announces: bool)
    | Fetch(name: Name)
    | ArchiveDone(name: Name, id: nat, joined: bool, charging: Charging)
    | DesignDone(name: Name, id: nat, commit: nat, charging: Charging)
    | NotFound(key: Key)
    | Fails(key: Key)
    | GuardExit(key: Key, stage: Stage, id: nat, commit: nat, charging: Charging)
    | Inject(name: Name, id: nat, charging: Charging)
    | InjectThrows(name: Name, id: nat)     // the size estimate throws before the charge
    | Resync(name: Name, base: nat)
    | Invalidate(name: Name)
    | Clear
    | SetMax(maxBytes: L.U64, victims: seq<Name>)
    | Touch(name: Name, now: int)
    | Capture(commit: nat, name: Name)
    | CommitPayload(commit: nat, victims: seq<Name>)

  type Wire = Design -> S.Bytes

  function RemoveLoad(c: Cache, k: Key): Cache {
    c.(loads := c.loads - {k})
  }

  function RegisterLoad(c: Cache, k: Key, announces: bool): Cache {
    var d := c.(loads := c.loads[k := Load(announces, StampOf(c, k.name), None)]);
    if announces then Transition(d, k.name, Loading) else d
  }

  /** Hand an archive to the design load of the same name, if there is one. */
  function Deliver(c: Cache, n: Name, a: Archive): Cache {
    var k := Key(DesignKind, n);
    if k in c.loads then c.(loads := c.loads[k := c.loads[k].(got := Some(a))]) else c
  }

  /** The load's name was invalidated or the cache cleared since it registered. */
  predicate Stale(c: Cache, k: Key)
    requires k in c.loads
  {
    StampOf(c, k.name) != c.loads[k].mark
  }

  function KeptArchive(c: Cache, n: Name, id: nat): Archive
    requires Key(ArchiveKind, n) in c.loads
  {
    if n in c.archives then c.archives[n] else Archive(id, c.loads[Key(ArchiveKind, n)].mark)
  }

  function KeptDesign(c: Cache, n: Name, id: nat): Design
    requires Key(DesignKind, n) in c.loads && c.loads[Key(DesignKind, n)].got.Some?
  {
    if n in c.designs then c.designs[n] else Design(id, c.loads[Key(DesignKind, n)].got.value)
  }

  function InsertArchive(c: Cache, n: Name, id: nat): Cache
    requires Key(ArchiveKind, n) in c.loads
  {
    c.(archives := c.archives[n := KeptArchive(c, n, id)])
  }

  function InsertDesign(c: Cache, n: Name, id: nat): Cache
    requires Key(DesignKind, n) in c.loads && c.loads[Key(DesignKind, n)].got.Some?
  {
    c.(designs := c.designs[n := KeptDesign(c, n, id)])
  }

  /** The load has what it takes to insert an object. */
  predicate Parsed(c: Cache, k: Key) {
    k in c.loads && (k.kind.DesignKind? ==> c.loads[k].got.Some?)
  }

  function Insert(c: Cache, k: Key, id: nat): Cache
    requires Parsed(c, k)
  {
    match k
    case Key(ArchiveKind, n) => InsertArchive(c, n, id)
    case Key(DesignKind, n) => InsertDesign(c, n, id)
  }

  /** Insert the object, charge its name and evict others. */
  function InsertAndCharge(c: Cache, k: Key, id: nat, ch: Charging): Cache
    requires Parsed(c, k)
  {
    Evict(ChargeName(Insert(c, k, id), k.name, ch.base, ch.now), ch.victims)
  }

  /** A design that is charged has its payload commit scheduled. */
  function ScheduleCommit(c: Cache, d: Cache, n: Name, id: nat, commit: nat): Cache
    requires Parsed(c, Key(DesignKind, n))
  {
    var epoch := c.loads[Key(DesignKind, n)].mark.epoch;
    d.(commits := d.commits[commit := Commit(n, KeptDesign(c, n, id), epoch, S.Gen(d.store, n))])
  }

  function ArchiveInserted(c: Cache, n: Name, id: nat, ch: Charging): Cache
    requires Key(ArchiveKind, n) in c.loads
  {
    var d := InsertAndCharge(c, Key(ArchiveKind, n), id, ch);
    if c.loads[Key(ArchiveKind, n)].announces then Transition(d, n, Loaded) else d
  }

  function DesignInserted(c: Cache, n: Name, id: nat, commit: nat, ch: Charging): Cache
    requires Key(DesignKind, n) in c.loads && c.loads[Key(DesignKind, n)].got.Some?
  {
    Transition(ScheduleCommit(c, InsertAndCharge(c, Key(DesignKind, n), id, ch), n, id, commit), n, Loaded)
  }

  /** What a load that leaves through the exit guard has done: everything up to its stage,
      and no state transition after the announcement. */
  function DoneBy(c: Cache, k: Key, stage: Stage, id: nat, commit: nat, ch: Charging): Cache
    requires !stage.Announced? ==> Parsed(c, k)
    requires stage.Scheduled? ==> k.kind.DesignKind?
  {
    match stage
    case Announced => c
    case Inserted => Insert(c, k, id)
    case Charged => InsertAndCharge(c, k, id, ch)
    case Scheduled => ScheduleCommit(c, InsertAndCharge(c, k, id, ch), k.name, id, commit)
  }

  /** An archive load completes: abandoned if stale, inserted otherwise; either way the
      joined design load gets the object. */
  function ArchiveCompleted(c: Cache, n: Name, id: nat, joined: bool, ch: Charging): Cache
    requires Key(ArchiveKind, n) in c.loads
  {
    var k := Key(ArchiveKind, n);
    var a := if Stale(c, k) then Archive(id, c.loads[k].mark) else KeptArchive(c, n, id);
    var d := if Stale(c, k) then c else ArchiveInserted(c, n, id, ch);
    RemoveLoad(if joined then Deliver(d, n, a) else d, k)
  }

  function DesignCompleted(c: Cache, n: Name, id: nat, commit: nat, ch: Charging): Cache
    requires Key(DesignKind, n) in c.loads && c.loads[Key(DesignKind, n)].got.Some?
  {
    var k := Key(DesignKind, n);
    RemoveLoad(if Stale(c, k) then c else DesignInserted(c, n, id, commit, ch), k)
  }

  function DropName(c: Cache, n: Name): Cache {
    DropPayloads(c.(archives := c.archives - {n}, designs := c.designs - {n}), n)
  }

  function InjectArchive(c: Cache, n: Name, id: nat): Cache {
    var d := DropName(c, n);
    d.(archives := d.archives[n := Archive(id, StampOf(d, n))])
  }

  function Cleared(c: Cache): Cache {
    c.(archives := map[], designs := map[], lru := L.Reset(c.lru), store := S.Wipe(c.store),
       states := map[], epoch := c.epoch + 1)
  }

  function Injected(c: Cache, n: Name, id: nat, ch: Charging): Cache {
    Transition(Evict(ChargeName(InjectArchive(c, n, id), n, ch.base, ch.now), ch.victims), n, Loaded)
  }

  /** The checks a commit makes before it touches the store. */
  predicate CommitValid(c: Cache, co: Commit, wire: Wire) {
    && wire(co.design) != []
    && co.name in c.designs && c.designs[co.name] == co.design
    && co.name in c.lru.entries && c.epoch == co.epoch
  }

  function StorePayload(c: Cache, co: Commit, wire: Wire): Cache {
    var store := S.Put(c.store, co.name, co.gen, S.Payload(wire(co.design), [], []));
    if co.gen == S.Gen(c.store, co.name) && co.name in c.lru.entries
    then c.(store := store, lru := L.ChargePayload(c.lru, co.name, L.Wrap(S.StoredBytes(store, co.name))))
    else c
  }

  function Committed(c: Cache, co: Commit, vs: seq<Name>, wire: Wire): Cache {
    if CommitValid(c, co, wire) then Evict(StorePayload(c, co, wire), vs) else c
  }

  function RemoveCommit(c: Cache, id: nat): Cache {
    c.(commits := c.commits - {id})
  }

  ghost predicate Enabled(c: Cache, l: Label, wire: Wire) {
    match l
    case Register(k, announces) => k !in c.loads && (k.kind.DesignKind? ==> announces)
    case Fetch(n) => var k := Key(DesignKind, n); k in c.loads && c.loads[k].got.None? && n in c.archives
    case ArchiveDone(n, id, joined, ch) =>
      && Key(ArchiveKind, n) in c.loads
      && (joined ==> Key(DesignKind, n) in c.loads && c.loads[Key(DesignKind, n)].got.None?)
      && (!Stale(c, Key(ArchiveKind, n)) ==>
            PassOk(ChargeName(InsertArchive(c, n, id), n, ch.base, ch.now), ch.victims, n))
    case DesignDone(n, id, commit, ch) =>
      && Key(DesignKind, n) in c.loads && c.loads[Key(DesignKind, n)].got.Some? && commit !in c.commits
      && (!Stale(c, Key(DesignKind, n)) ==>
            PassOk(ChargeName(InsertDesign(c, n, id), n, ch.base, ch.now), ch.victims, n))
    case NotFound(k) => k in c.loads
    case Fails(k) => k in c.loads
    case GuardExit(k, stage, id, commit, ch) =>
      && k in c.loads
      && (!stage.Announced? ==> Parsed(c, k) && !Stale(c, k))
      && (stage.Charged? || stage.Scheduled? ==>
            PassOk(ChargeName(Insert(c, k, id), k.name, ch.base, ch.now), ch.victims, k.name))
      && (stage.Scheduled? ==> k.kind.DesignKind? && commit !in c.commits)
    case Inject(n, id, ch) => PassOk(ChargeName(InjectArchive(c, n, id), n, ch.base, ch.now), ch.victims, n)
    case InjectThrows(_, _) => true
    case Resync(_, _) => true
    case Invalidate(_) => true
    case Clear => true
    case SetMax(m, vs) => PassOk(c.(lru := c.lru.(maxBytes := m)), vs, "")
    case Touch(_, _) => true
    case Capture(id, n) => id !in c.commits && n in c.designs
    case CommitPayload(id, vs) =>
      && id in c.commits
      && (CommitValid(c, c.commits[id], wire) ==> PassOk(StorePayload(c, c.commits[id], wire), vs, c.commits[id].name))
  }

  function Apply(c: Cache, l: Label, wire: Wire): Cache
    requires l.ArchiveDone? ==> Key(ArchiveKind, l.name) in c.loads
    requires l.DesignDone? ==> Key(DesignKind, l.name) in c.loads && c.loads[Key(DesignKind, l.name)].got.Some?
    requires l.Fetch? ==> l.name in c.archives
    requires l.NotFound? || l.Fails? ==> l.key in c.loads
    requires l.GuardExit? && !l.stage.Announced? ==> Parsed(c, l.key) && (l.stage.Scheduled? ==> l.key.kind.DesignKind?)
    requires l.Capture? ==> l.name in c.designs
    requires l.CommitPayload? ==> l.commit in c.commits
  {
    match l
    case Register(k, announces) => RegisterLoad(c, k, announces)
    case Fetch(n) => Deliver(c, n, c.archives[n])
    case ArchiveDone(n, id, joined, ch) => ArchiveCompleted(c, n, id, joined, ch)
    case DesignDone(n, id, commit, ch) => DesignCompleted(c, n, id, commit, ch)
    case NotFound(k) => RemoveLoad(if c.loads[k].announces then EraseState(c, k.name) else c, k)
    case Fails(k) =>
      var records := c.loads[k].announces && c.epoch == c.loads[k].mark.epoch;
      RemoveLoad(if records then Transition(c, k.name, Failed) else c, k)
    case GuardExit(k, stage, id, commit, ch) => RemoveLoad(DoneBy(c, k, stage, id, commit, ch), k)
    case Inject(n, id, ch) => Injected(c, n, id, ch)
    case InjectThrows(n, id) => InjectArchive(c, n, id)
    case Resync(n, base) => c.(lru := L.Resync(c.lru, n, L.Wrap(base + Stored(c, n)), Stored(c, n)))
    case Invalidate(n) => Transition(DropName(c, n), n, Unloaded)
    case Clear => Cleared(c)
    case SetMax(m, vs) => Evict(c.(lru := c.lru.(maxBytes := m)), vs)
    case Touch(n, now) => c.(lru := L.Touch(c.lru, n, now))
    case Capture(id, n) =>
      c.(commits := c.commits[id := Commit(n, c.designs[n], c.epoch, S.Gen(c.store, n))])
    case CommitPayload(id, vs) =>
      RemoveCommit(Committed(c, c.commits[id], vs, wire), id)
  }

  predicate Init(c: Cache) {
    && c.archives == map[] && c.designs == map[] && c.store == S.EMPTY && c.lru.entries == map[] && c.lru.cached == 0
    && c.states == map[] && c.epoch == 0 && c.loads == map[] && c.commits == map[] && c.events == []
  }

  /** Step i of a run leads from its i-th state to the next one. */
  ghost predicate Leads(tr: seq<Cache>, ls: seq<Label>, wire: Wire, i: nat)
    requires i < |ls| && i + 1 < |tr|
  {
    Enabled(tr[i], ls[i], wire) && tr[i+1] == Apply(tr[i], ls[i], wire)
  }

  ghost predicate Run(tr: seq<Cache>, ls: seq<Label>, wire: Wire) {
    && |tr| == |ls| + 1
    && Init(tr[0])
    && forall i: nat {:trigger Leads(tr, ls, wire, i)} :: i < |ls| ==> Leads(tr, ls, wire, i)
  }
}
