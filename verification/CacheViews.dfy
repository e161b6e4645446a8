/** The cache seen through one name: what each operation does to that name. */
module CacheViews {
  import opened Basics
  import opened CacheKeys
  import opened CacheModel
  import S = ResponseStore
  import L = LruLedger

  /** state is the recorded load state, None when there is no entry; charge is the payload
      charge of the LRU entry, None when the name has no LRU entry. */
  datatype NameView = NameView(
    archive: Option<Archive>,
    design: Option<Design>,
    payload: Option<S.Payload>,
    stamp: Stamp,
    state: Option<LoadState>,
    charge: Option<L.U64>)

  function Look<T>(m: map<Name, T>, n: Name): Option<T> {
    if n in m then Some(m[n]) else None
  }

  function At(c: Cache, n: Name): NameView {
    NameView(Look(c.archives, n), Look(c.designs, n), Look(c.store.entries, n), StampOf(c, n), Look(c.states, n),
      if n in c.lru.entries then Some(c.lru.entries[n].serialized) else None)
  }

  predicate Before(a: Stamp, b: Stamp) {
    a.epoch < b.epoch || (a.epoch == b.epoch && a.gen < b.gen)
  }

  /** The name has just been invalidated and nothing of it is left. */
  predicate Evicted(v: NameView, w: NameView) {
    && w.archive.None? && w.design.None? && w.payload.None? && w.charge.None? && Before(v.stamp, w.stamp)
    && (w.state.None? || w.state == Some(Unloaded)) && (v.state.None? ==> w.state.None?)
  }

  /** A victim was charged and not Loading, and is gone now. */
  predicate WasEvicted(v: NameView, w: NameView) {
    v.charge.Some? && v.state != Some(Loading) && Evicted(v, w)
  }

  /** The load is in flight and nothing has invalidated its name since it registered. */
  predicate Current(c: Cache, k: Key) {
    k in c.loads && !Stale(c, k)
  }

  // ---- building blocks ----

  /** The name without objects and payloads, one generation on. */
  function Dropped(v: NameView): NameView {
    NameView(None, None, None, Stamp(v.stamp.epoch, v.stamp.gen + 1), v.state, Uncharged(v.charge))
  }

  function Moved(v: NameView, to: LoadState): NameView {
    if (if v.state.Some? then v.state.value else Unloaded) == to then v else v.(state := Some(to))
  }

  lemma AtTransition(c: Cache, m: Name, to: LoadState, n: Name)
    ensures At(Transition(c, m, to), n) == if n == m then Moved(At(c, n), to) else At(c, n)
  {
  }

  lemma AtEraseState(c: Cache, m: Name, n: Name)
    ensures At(EraseState(c, m), n) == if n == m then At(c, n).(state := None) else At(c, n)
  {
  }

  /** A charged name keeps its payload charge; a fresh entry starts with none. */
  function ChargeOf(v: NameView): L.U64 {
    if v.charge.Some? then v.charge.value else 0
  }

  function Uncharged(o: Option<L.U64>): Option<L.U64> {
    if o.Some? then Some(0) else None
  }

  lemma AtCharge(c: Cache, m: Name, base: nat, now: int, n: Name)
    ensures At(ChargeName(c, m, base, now), n) ==
            if n == m then At(c, n).(charge := Some(ChargeOf(At(c, n)))) else At(c, n)
  {
  }

  lemma AtDropName(c: Cache, m: Name, n: Name)
    ensures At(DropName(c, m), n) == if n == m then Dropped(At(c, n)) else At(c, n)
  {
  }

  lemma AtInject(c: Cache, m: Name, id: nat, n: Name)
    ensures var s := Stamp(c.epoch, S.Gen(c.store, n) + 1);
      At(InjectArchive(c, m, id), n) ==
      if n == m then NameView(Some(Archive(id, s)), None, None, s, At(c, n).state, Uncharged(At(c, n).charge))
      else At(c, n)
  {
    AtDropName(c, m, n);
  }

  lemma {:induction false} AtEvictNames(c: Cache, vs: seq<Name>, n: Name)
    ensures var t := EvictNames(c, vs);
      && t.lru == c.lru && t.loads == c.loads && t.commits == c.commits && t.epoch == c.epoch
      && t.store.serializations == c.store.serializations
    ensures n !in vs ==> At(EvictNames(c, vs), n) == At(c, n)
    ensures n in vs ==> Evicted(At(c, n).(charge := None), At(EvictNames(c, vs), n).(charge := None))
    decreases |vs|
  {
    if vs != [] {
      var d := EvictOne(c, vs[0]);
      AtTransition(Emptied(c, vs[0]), vs[0], Unloaded, n);
      AtEvictNames(d, vs[1..], n);
      assert n in vs <==> n == vs[0] || n in vs[1..];
    }
  }

  /** A complete eviction pass and its clean-up, seen through one name. */
  lemma AtEvict(c: Cache, vs: seq<Name>, protected: Name, n: Name)
    requires PassOk(c, vs, protected)
    ensures var t := Evict(c, vs);
      && t.loads == c.loads && t.commits == c.commits && t.epoch == c.epoch
      && t.store.serializations == c.store.serializations
    ensures n !in vs ==> At(Evict(c, vs), n) == At(c, n)
    ensures n in vs ==> n != protected && WasEvicted(At(c, n), At(Evict(c, vs), n))
  {
    L.PassRemoves(c.lru, vs, protected, LoadingNames(c.states));
    AtEvictNames(c.(lru := L.RemoveAll(c.lru, vs)), vs, n);
  }

  // ---- operations ----

  /** The victims whose clean-up the step performs. */
  function Victims(c: Cache, l: Label, wire: Wire): seq<Name> {
    match l
    case ArchiveDone(m, _, _, ch) => if Current(c, Key(ArchiveKind, m)) then ch.victims else []
    case DesignDone(m, _, _, ch) => if Current(c, Key(DesignKind, m)) then ch.victims else []
    case GuardExit(k, stage, _, _, ch) =>
      if (stage.Charged? || stage.Scheduled?) && Current(c, k) then ch.victims else []
    case Inject(_, _, ch) => ch.victims
    case SetMax(_, vs) => vs
    case CommitPayload(id, vs) => if id in c.commits && CommitValid(c, c.commits[id], wire) then vs else []
    case _ => []
  }

  /** A commit under a current generation: the first payload stays. */
  function WithPayload(v: NameView, gen: nat, p: S.Payload): NameView {
    if gen != v.stamp.gen then v
    else
      var q := if v.payload.Some? then v.payload.value else p;
      v.(payload := Some(q), charge := Some(L.Wrap(q.TotalBytes())))
  }

  /** The name with the object the load of k inserts. */
  function WithObject(c: Cache, v: NameView, k: Key, id: nat): NameView
    requires Parsed(c, k)
  {
    match k
    case Key(ArchiveKind, n) => v.(archive := Some(KeptArchive(c, n, id)))
    case Key(DesignKind, n) => v.(design := Some(KeptDesign(c, n, id)))
  }

  /** What the step does to name n when it is not one of its victims. */
  function Outcome(c: Cache, l: Label, wire: Wire, n: Name): NameView {
    var v := At(c, n);
    match l
    case Register(k, announces) => if announces && k.name == n then Moved(v, Loading) else v
    case ArchiveDone(m, id, _, _) =>
      var k := Key(ArchiveKind, m);
      if m != n || k !in c.loads || Stale(c, k) then v
      else
        var w := v.(archive := Some(KeptArchive(c, m, id)), charge := Some(ChargeOf(v)));
        if c.loads[k].announces then Moved(w, Loaded) else w
    case DesignDone(m, id, _, _) =>
      var k := Key(DesignKind, m);
      if m != n || k !in c.loads || c.loads[k].got.None? || Stale(c, k) then v
      else Moved(v.(design := Some(KeptDesign(c, m, id)), charge := Some(ChargeOf(v))), Loaded)
    case NotFound(k) => if k.name == n && k in c.loads && c.loads[k].announces then v.(state := None) else v
    case Fails(k) =>
      if k.name == n && k in c.loads && c.loads[k].announces && c.epoch == c.loads[k].mark.epoch
      then Moved(v, Failed) else v
    case GuardExit(k, stage, id, _, _) =>
      if k.name != n || stage.Announced? || !Parsed(c, k) || Stale(c, k) then v
      else if stage.Inserted? then WithObject(c, v, k, id)
      else var w := WithObject(c, v, k, id); w.(charge := Some(ChargeOf(v)))
    case Inject(m, id, _) =>
      if m != n then v else Moved(Replaced(v, id), Loaded)
    case InjectThrows(m, id) =>
      if m != n then v
      else
        var s := Stamp(v.stamp.epoch, v.stamp.gen + 1);
        NameView(Some(Archive(id, s)), None, None, s, v.state, Uncharged(v.charge))
    case Invalidate(m) =>
      if m != n then v else Moved(Dropped(v), Unloaded)
    case Clear => NameView(None, None, None, Stamp(v.stamp.epoch + 1, 0), None, None)
    case CommitPayload(id, _) =>
      if id !in c.commits || c.commits[id].name != n || !CommitValid(c, c.commits[id], wire) then v
      else WithPayload(v, c.commits[id].gen, S.Payload(wire(c.commits[id].design), [], []))
    case _ => v
  }

  ghost predicate StepAt(c: Cache, l: Label, wire: Wire, n: Name, t: Cache) {
    if n in Victims(c, l, wire)
    then WasEvicted(At(c, n), At(t, n))
    else At(t, n) == Outcome(c, l, wire, n)
  }

  lemma AtInsert(c: Cache, k: Key, id: nat, n: Name)
    requires Parsed(c, k)
    ensures At(Insert(c, k, id), n) == if n == k.name then WithObject(c, At(c, n), k, id) else At(c, n)
  {
  }

  /** Insertion, charge and eviction seen through one name. */
  ghost predicate ChargedAt(c: Cache, k: Key, id: nat, vs: seq<Name>, n: Name, t: Cache)
    requires Parsed(c, k)
  {
    if n in vs then n != k.name && WasEvicted(At(c, n), At(t, n))
    else if n != k.name then At(t, n) == At(c, n)
    else At(t, n) == WithObject(c, At(c, n), k, id).(charge := Some(ChargeOf(At(c, n))))
  }

  lemma AtInsertAndCharge(c: Cache, k: Key, id: nat, ch: Charging, n: Name)
    requires Parsed(c, k) && PassOk(ChargeName(Insert(c, k, id), k.name, ch.base, ch.now), ch.victims, k.name)
    ensures ChargedAt(c, k, id, ch.victims, n, InsertAndCharge(c, k, id, ch))
  {
    var i := Insert(c, k, id);
    AtInsert(c, k, id, n);
    AtCharge(i, k.name, ch.base, ch.now, n);
    AtEvict(ChargeName(i, k.name, ch.base, ch.now), ch.victims, k.name, n);
  }

  lemma ArchiveInsertedAt(c: Cache, m: Name, id: nat, ch: Charging, n: Name)
    requires Key(ArchiveKind, m) in c.loads
    requires PassOk(ChargeName(InsertArchive(c, m, id), m, ch.base, ch.now), ch.victims, m)
    ensures var t := ArchiveInserted(c, m, id, ch);
      if n in ch.victims then n != m && WasEvicted(At(c, n), At(t, n))
      else if n != m then At(t, n) == At(c, n)
      else
        var w := At(c, n).(archive := Some(KeptArchive(c, m, id)), charge := Some(ChargeOf(At(c, n))));
        At(t, n) == if c.loads[Key(ArchiveKind, m)].announces then Moved(w, Loaded) else w
  {
    AtInsertAndCharge(c, Key(ArchiveKind, m), id, ch, n);
    AtTransition(InsertAndCharge(c, Key(ArchiveKind, m), id, ch), m, Loaded, n);
  }

  lemma ArchiveStepAt(c: Cache, l: Label, wire: Wire, n: Name)
    requires l.ArchiveDone? && Enabled(c, l, wire)
    ensures StepAt(c, l, wire, n, ArchiveCompleted(c, l.name, l.id, l.joined, l.charging))
  {
    var t := ArchiveCompleted(c, l.name, l.id, l.joined, l.charging);
    if Stale(c, Key(ArchiveKind, l.name)) {
      assert At(t, n) == At(c, n);
    } else {
      ArchiveInsertedAt(c, l.name, l.id, l.charging, n);
      assert At(t, n) == At(ArchiveInserted(c, l.name, l.id, l.charging), n);
    }
  }

  lemma DesignInsertedAt(c: Cache, m: Name, id: nat, commit: nat, ch: Charging, n: Name)
    requires Key(DesignKind, m) in c.loads && c.loads[Key(DesignKind, m)].got.Some?
    requires PassOk(ChargeName(InsertDesign(c, m, id), m, ch.base, ch.now), ch.victims, m)
    ensures var t := DesignInserted(c, m, id, commit, ch);
      if n in ch.victims then n != m && WasEvicted(At(c, n), At(t, n))
      else if n != m then At(t, n) == At(c, n)
      else
        var w := At(c, n).(design := Some(KeptDesign(c, m, id)), charge := Some(ChargeOf(At(c, n))));
        At(t, n) == Moved(w, Loaded)
  {
    var k := Key(DesignKind, m);
    var d := InsertAndCharge(c, k, id, ch);
    AtInsertAndCharge(c, k, id, ch, n);
    assert At(ScheduleCommit(c, d, m, id, commit), n) == At(d, n);
    AtTransition(ScheduleCommit(c, d, m, id, commit), m, Loaded, n);
  }

  lemma DesignStepAt(c: Cache, l: Label, wire: Wire, n: Name)
    requires l.DesignDone? && Enabled(c, l, wire)
    ensures StepAt(c, l, wire, n, DesignCompleted(c, l.name, l.id, l.commit, l.charging))
  {
    var t := DesignCompleted(c, l.name, l.id, l.commit, l.charging);
    if Stale(c, Key(DesignKind, l.name)) {
      assert At(t, n) == At(c, n);
    } else {
      DesignInsertedAt(c, l.name, l.id, l.commit, l.charging, n);
      assert At(t, n) == At(DesignInserted(c, l.name, l.id, l.commit, l.charging), n);
    }
  }

  lemma AtInjectAndCharge(c: Cache, m: Name, id: nat, ch: Charging, n: Name)
    ensures At(ChargeName(InjectArchive(c, m, id), m, ch.base, ch.now), n) ==
            if n == m then Replaced(At(c, n), id) else At(c, n)
  {
    AtInject(c, m, id, n);
    AtCharge(InjectArchive(c, m, id), m, ch.base, ch.now, n);
  }

  /** The view of a name that has just got an archive in place of whatever it had. */
  function Replaced(v: NameView, id: nat): NameView {
    var s := Stamp(v.stamp.epoch, v.stamp.gen + 1);
    NameView(Some(Archive(id, s)), None, None, s, v.state, Some(0))
  }

  lemma AtInjected(c: Cache, m: Name, id: nat, ch: Charging, n: Name)
    requires PassOk(ChargeName(InjectArchive(c, m, id), m, ch.base, ch.now), ch.victims, m)
    ensures var v, w := At(c, n), At(Injected(c, m, id, ch), n);
      if n in ch.victims then WasEvicted(v, w)
      else w == if n == m then Moved(Replaced(v, id), Loaded) else v
  {
    var d := ChargeName(InjectArchive(c, m, id), m, ch.base, ch.now);
    AtInjectAndCharge(c, m, id, ch, n);
    AtEvict(d, ch.victims, m, n);
    AtTransition(Evict(d, ch.victims), m, Loaded, n);
  }

  lemma InjectStepAt(c: Cache, l: Label, wire: Wire, n: Name)
    requires l.Inject? && Enabled(c, l, wire)
    ensures StepAt(c, l, wire, n, Injected(c, l.name, l.id, l.charging))
  {
    AtInjected(c, l.name, l.id, l.charging, n);
  }

  lemma GuardStepAt(c: Cache, l: Label, wire: Wire, n: Name)
    requires l.GuardExit? && Enabled(c, l, wire)
    ensures StepAt(c, l, wire, n, RemoveLoad(DoneBy(c, l.key, l.stage, l.id, l.commit, l.charging), l.key))
  {
    var k, ch := l.key, l.charging;
    var d := DoneBy(c, k, l.stage, l.id, l.commit, ch);
    assert At(RemoveLoad(d, k), n) == At(d, n);
    if l.stage.Inserted? {
      AtInsert(c, k, l.id, n);
    } else if !l.stage.Announced? {
      AtInsertAndCharge(c, k, l.id, ch, n);
      assert At(d, n) == At(InsertAndCharge(c, k, l.id, ch), n);
    }
  }

  lemma AtStorePayload(c: Cache, co: Commit, wire: Wire, n: Name)
    requires co.name in c.lru.entries
    ensures At(StorePayload(c, co, wire), n) ==
      if n == co.name then WithPayload(At(c, n), co.gen, S.Payload(wire(co.design), [], [])) else At(c, n)
  {
  }

  lemma CommitStepAt(c: Cache, l: Label, wire: Wire, n: Name)
    requires l.CommitPayload? && Enabled(c, l, wire)
    ensures StepAt(c, l, wire, n, RemoveCommit(Committed(c, c.commits[l.commit], l.victims, wire), l.commit))
  {
    var co := c.commits[l.commit];
    var d := Committed(c, co, l.victims, wire);
    assert At(RemoveCommit(d, l.commit), n) == At(d, n);
    if CommitValid(c, co, wire) {
      AtStorePayload(c, co, wire, n);
      AtEvict(StorePayload(c, co, wire), l.victims, co.name, n);
    }
  }

  lemma RegisterStepAt(c: Cache, k: Key, announces: bool, n: Name)
    ensures At(RegisterLoad(c, k, announces), n) ==
            if announces && k.name == n then Moved(At(c, n), Loading) else At(c, n)
  {
    var d := c.(loads := c.loads[k := Load(announces, StampOf(c, k.name), None)]);
    assert At(d, n) == At(c, n);
    AtTransition(d, k.name, Loading, n);
  }

  lemma PlainStepAt(c: Cache, l: Label, wire: Wire, n: Name)
    requires Enabled(c, l, wire) && (l.Fetch? || l.Resync? || l.Touch? || l.Capture? || l.Clear?)
    ensures StepAt(c, l, wire, n, Apply(c, l, wire))
  {
  }

  lemma NotFoundStepAt(c: Cache, k: Key, wire: Wire, n: Name)
    requires k in c.loads
    ensures StepAt(c, NotFound(k), wire, n, Apply(c, NotFound(k), wire))
  {
    var d := if c.loads[k].announces then EraseState(c, k.name) else c;
    AtEraseState(c, k.name, n);
    assert At(RemoveLoad(d, k), n) == At(d, n);
  }

  lemma FailsStepAt(c: Cache, k: Key, wire: Wire, n: Name)
    requires k in c.loads
    ensures StepAt(c, Fails(k), wire, n, Apply(c, Fails(k), wire))
  {
    var d := if c.loads[k].announces && c.epoch == c.loads[k].mark.epoch then Transition(c, k.name, Failed) else c;
    AtTransition(c, k.name, Failed, n);
    assert At(RemoveLoad(d, k), n) == At(d, n);
  }

  predicate OfALoad(l: Label) {
    l.Register? || l.ArchiveDone? || l.DesignDone? || l.NotFound? || l.Fails? || l.GuardExit?
  }

  lemma LoadStepSeenAt(c: Cache, l: Label, wire: Wire, n: Name)
    requires Enabled(c, l, wire) && OfALoad(l)
    ensures StepAt(c, l, wire, n, Apply(c, l, wire))
  {
    match l
    case Register(k, announces) => RegisterStepAt(c, k, announces, n);
    case ArchiveDone(_, _, _, _) => ArchiveStepAt(c, l, wire, n);
    case DesignDone(_, _, _, _) => DesignStepAt(c, l, wire, n);
    case NotFound(k) => NotFoundStepAt(c, k, wire, n);
    case Fails(k) => FailsStepAt(c, k, wire, n);
    case GuardExit(_, _, _, _, _) => GuardStepAt(c, l, wire, n);
  }

  lemma SetMaxStepAt(c: Cache, l: Label, wire: Wire, n: Name)
    requires Enabled(c, l, wire) && l.SetMax?
    ensures StepAt(c, l, wire, n, Apply(c, l, wire))
  {
    var d := c.(lru := c.lru.(maxBytes := l.maxBytes));
    assert At(d, n) == At(c, n);
    AtEvict(d, l.victims, "", n);
  }

  lemma InvalidateStepAt(c: Cache, l: Label, wire: Wire, n: Name)
    requires l.Invalidate?
    ensures StepAt(c, l, wire, n, Apply(c, l, wire))
  {
    AtDropName(c, l.name, n);
    AtTransition(DropName(c, l.name), l.name, Unloaded, n);
  }

  /** What each operation does to each name. */
  lemma StepSeenAt(c: Cache, l: Label, wire: Wire, n: Name)
    requires Enabled(c, l, wire)
    ensures StepAt(c, l, wire, n, Apply(c, l, wire))
  {
    if OfALoad(l) {
      LoadStepSeenAt(c, l, wire, n);
    } else if l.Inject? {
      InjectStepAt(c, l, wire, n);
    } else if l.InjectThrows? {
      AtInject(c, l.name, l.id, n);
    } else if l.CommitPayload? {
      CommitStepAt(c, l, wire, n);
    } else if l.Invalidate? {
      InvalidateStepAt(c, l, wire, n);
    } else if l.SetMax? {
      SetMaxStepAt(c, l, wire, n);
    } else {
      PlainStepAt(c, l, wire, n);
    }
  }
}
