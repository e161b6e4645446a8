/** Staleness and load states over whole runs of the cache. */
module CacheRuns {
  import opened Basics
  import opened CacheKeys
  import opened CacheModel
  import opened CacheViews
  import opened CacheSoundness
  import S = ResponseStore
  import L = LruLedger

  // ---- stamps ----

  /** The names a step invalidates: replaced, invalidated, evicted or cleared. */
  predicate Invalidates(c: Cache, l: Label, wire: Wire, n: Name) {
    n in Victims(c, l, wire) || l.Clear? || ((l.Inject? || l.InjectThrows? || l.Invalidate?) && l.name == n)
  }

  /** A name's stamp advances exactly when the name is invalidated. */
  ghost predicate StampMoves(c: Cache, l: Label, wire: Wire, n: Name, t: Cache) {
    if Invalidates(c, l, wire, n) then Before(StampOf(c, n), StampOf(t, n)) else StampOf(t, n) == StampOf(c, n)
  }

  /** An operation that ends a load or commits a payload leaves its own name's stamp. */
  lemma LoadOutcomeStamp(c: Cache, l: Label, wire: Wire, n: Name)
    requires l.ArchiveDone? || l.DesignDone? || l.GuardExit? || l.CommitPayload?
    ensures Outcome(c, l, wire, n).stamp == StampOf(c, n)
  {
  }

  lemma OutcomeStamp(c: Cache, l: Label, wire: Wire, n: Name)
    requires n !in Victims(c, l, wire)
    ensures var s := Outcome(c, l, wire, n).stamp;
      if Invalidates(c, l, wire, n) then Before(StampOf(c, n), s) else s == StampOf(c, n)
  {
    if l.ArchiveDone? || l.DesignDone? || l.GuardExit? || l.CommitPayload? {
      LoadOutcomeStamp(c, l, wire, n);
    }
  }

  lemma StampSeen(c: Cache, l: Label, wire: Wire, n: Name, t: Cache)
    requires StepAt(c, l, wire, n, t)
    ensures StampMoves(c, l, wire, n, t)
  {
    assert At(c, n).stamp == StampOf(c, n) && At(t, n).stamp == StampOf(t, n);
    if n !in Victims(c, l, wire) {
      OutcomeStamp(c, l, wire, n);
    }
  }

  lemma StampStep(c: Cache, l: Label, wire: Wire, n: Name)
    requires Enabled(c, l, wire)
    ensures StampMoves(c, l, wire, n, Apply(c, l, wire))
  {
    StepSeenAt(c, l, wire, n);
    StampSeen(c, l, wire, n, Apply(c, l, wire));
  }

  /** Step m of the run invalidates the name. */
  ghost predicate HitsAt(tr: seq<Cache>, ls: seq<Label>, wire: Wire, n: Name, m: nat) {
    m < |ls| && m < |tr| && Invalidates(tr[m], ls[m], wire, n)
  }

  /** Some step in [i, j) invalidates the name. */
  ghost predicate InvalidatedIn(tr: seq<Cache>, ls: seq<Label>, wire: Wire, n: Name, i: nat, j: nat) {
    exists m: nat :: i <= m < j && HitsAt(tr, ls, wire, n, m)
  }

  lemma InvalidatedGrows(tr: seq<Cache>, ls: seq<Label>, wire: Wire, n: Name, i: nat, j: nat)
    requires i < j
    ensures InvalidatedIn(tr, ls, wire, n, i, j) <==>
            InvalidatedIn(tr, ls, wire, n, i, j - 1) || HitsAt(tr, ls, wire, n, j - 1)
  {
  }

  lemma StampMovesAt(tr: seq<Cache>, ls: seq<Label>, wire: Wire, n: Name, m: nat)
    requires Run(tr, ls, wire) && m < |ls|
    ensures if HitsAt(tr, ls, wire, n, m) then Before(StampOf(tr[m], n), StampOf(tr[m+1], n))
            else StampOf(tr[m+1], n) == StampOf(tr[m], n)
  {
    assert Leads(tr, ls, wire, m);
    StampStep(tr[m], ls[m], wire, n);
  }

  /** Stamps only advance, so an unchanged stamp means no invalidation, and conversely. */
  lemma {:induction false} StampsTell(tr: seq<Cache>, ls: seq<Label>, wire: Wire, n: Name, i: nat, j: nat)
    requires Run(tr, ls, wire) && i <= j < |tr|
    ensures if InvalidatedIn(tr, ls, wire, n, i, j) then Before(StampOf(tr[i], n), StampOf(tr[j], n))
            else StampOf(tr[i], n) == StampOf(tr[j], n)
    decreases j
  {
    if i < j {
      StampsTell(tr, ls, wire, n, i, j - 1);
      StampMovesAt(tr, ls, wire, n, j - 1);
      InvalidatedGrows(tr, ls, wire, n, i, j);
    }
  }

  // ---- loads ----

  /** The step ends the load of the key. */
  predicate Ends(l: Label, k: Key) {
    || (l.ArchiveDone? && k == Key(ArchiveKind, l.name))
    || (l.DesignDone? && k == Key(DesignKind, l.name))
    || ((l.NotFound? || l.Fails? || l.GuardExit?) && l.key == k)
  }

  lemma EvictFrame(c: Cache, vs: seq<Name>)
    ensures Evict(c, vs).loads == c.loads && Evict(c, vs).commits == c.commits
  {
    AtEvictNames(c.(lru := L.RemoveAll(c.lru, vs)), vs, "");
  }

  lemma ChargedFrame(c: Cache, k: Key, id: nat, ch: Charging)
    requires Parsed(c, k)
    ensures var t := InsertAndCharge(c, k, id, ch); t.loads == c.loads && t.commits == c.commits
  {
    EvictFrame(ChargeName(Insert(c, k, id), k.name, ch.base, ch.now), ch.victims);
  }

  lemma ArchiveInsertedFrame(c: Cache, n: Name, id: nat, ch: Charging)
    requires Key(ArchiveKind, n) in c.loads
    ensures var t := ArchiveInserted(c, n, id, ch); t.loads == c.loads && t.commits == c.commits
  {
    ChargedFrame(c, Key(ArchiveKind, n), id, ch);
  }

  lemma DesignInsertedFrame(c: Cache, n: Name, id: nat, commit: nat, ch: Charging)
    requires Key(DesignKind, n) in c.loads && c.loads[Key(DesignKind, n)].got.Some?
    ensures var t := DesignInserted(c, n, id, commit, ch);
      && t.loads == c.loads
      && var epoch := c.loads[Key(DesignKind, n)].mark.epoch;
         t.commits == c.commits[commit := Commit(n, KeptDesign(c, n, id), epoch, S.Gen(t.store, n))]
  {
    ChargedFrame(c, Key(DesignKind, n), id, ch);
  }

  lemma GuardLoads(c: Cache, l: Label, wire: Wire)
    requires l.GuardExit? && Enabled(c, l, wire)
    ensures DoneBy(c, l.key, l.stage, l.id, l.commit, l.charging).loads == c.loads
  {
    if l.stage.Charged? || l.stage.Scheduled? {
      ChargedFrame(c, l.key, l.id, l.charging);
    }
  }

  lemma GuardCommits(c: Cache, l: Label, wire: Wire)
    requires l.GuardExit? && Enabled(c, l, wire)
    ensures var t := DoneBy(c, l.key, l.stage, l.id, l.commit, l.charging); t.commits == CommitsAfter(c, l, t)
  {
    if l.stage.Charged? || l.stage.Scheduled? {
      ChargedFrame(c, l.key, l.id, l.charging);
    }
  }

  /** The in-flight table after a step. */
  function LoadsAfter(c: Cache, l: Label): map<Key, Load> {
    match l
    case Register(k, announces) => c.loads[k := Load(announces, StampOf(c, k.name), None)]
    case Fetch(n) => if n in c.archives then Deliver(c, n, c.archives[n]).loads else c.loads
    case ArchiveDone(n, id, joined, _) =>
      var k := Key(ArchiveKind, n);
      if k !in c.loads || !joined then c.loads - {k}
      else Deliver(c, n, if Stale(c, k) then Archive(id, c.loads[k].mark) else KeptArchive(c, n, id)).loads - {k}
    case DesignDone(n, _, _, _) => c.loads - {Key(DesignKind, n)}
    case NotFound(k) => c.loads - {k}
    case Fails(k) => c.loads - {k}
    case GuardExit(k, _, _, _, _) => c.loads - {k}
    case _ => c.loads
  }

  lemma ArchiveLoads(c: Cache, l: Label, wire: Wire)
    requires l.ArchiveDone? && Enabled(c, l, wire)
    ensures ArchiveCompleted(c, l.name, l.id, l.joined, l.charging).loads == LoadsAfter(c, l)
  {
    if !Stale(c, Key(ArchiveKind, l.name)) {
      ArchiveInsertedFrame(c, l.name, l.id, l.charging);
    }
  }

  lemma DesignLoads(c: Cache, l: Label, wire: Wire)
    requires l.DesignDone? && Enabled(c, l, wire)
    ensures DesignCompleted(c, l.name, l.id, l.commit, l.charging).loads == LoadsAfter(c, l)
  {
    if !Stale(c, Key(DesignKind, l.name)) {
      DesignInsertedFrame(c, l.name, l.id, l.commit, l.charging);
    }
  }

  /** The operations that evict without ending a load keep both tables. */
  lemma EvictingTables(c: Cache, l: Label, wire: Wire)
    requires Enabled(c, l, wire) && (l.Inject? || l.SetMax? || l.CommitPayload?)
    ensures var t := Apply(c, l, wire);
      t.loads == c.loads && t.commits == if l.CommitPayload? then c.commits - {l.commit} else c.commits
  {
    if l.Inject? {
      var ch := l.charging;
      EvictFrame(ChargeName(InjectArchive(c, l.name, l.id), l.name, ch.base, ch.now), ch.victims);
    } else if l.SetMax? {
      EvictFrame(c.(lru := c.lru.(maxBytes := l.maxBytes)), l.victims);
    } else {
      EvictFrame(StorePayload(c, c.commits[l.commit], wire), l.victims);
    }
  }

  lemma LoadsStep(c: Cache, l: Label, wire: Wire)
    requires Enabled(c, l, wire)
    ensures Apply(c, l, wire).loads == LoadsAfter(c, l)
  {
    if l.ArchiveDone? {
      ArchiveLoads(c, l, wire);
    } else if l.DesignDone? {
      DesignLoads(c, l, wire);
    } else if l.GuardExit? {
      GuardLoads(c, l, wire);
    } else if l.Inject? || l.SetMax? || l.CommitPayload? {
      EvictingTables(c, l, wire);
    }
  }

  /** Step i registers load k, and no step in (i, j) ends it. */
  ghost predicate InFlightFrom(ls: seq<Label>, k: Key, i: nat, j: nat) {
    && i < j <= |ls| && ls[i].Register? && ls[i].key == k
    && forall m :: i < m < j ==> !Ends(ls[m], k)
  }

  /** A load in flight keeps the stamp it captured when it registered. */
  lemma {:induction false} MarkKept(tr: seq<Cache>, ls: seq<Label>, wire: Wire, k: Key, i: nat, j: nat)
    requires Run(tr, ls, wire) && InFlightFrom(ls, k, i, j)
    ensures k in tr[j].loads && tr[j].loads[k].mark == StampOf(tr[i], k.name)
    ensures tr[j].loads[k].announces == ls[i].announces
    decreases j
  {
    assert Leads(tr, ls, wire, j - 1);
    LoadsStep(tr[j-1], ls[j-1], wire);
    if i + 1 < j {
      MarkKept(tr, ls, wire, k, i, j - 1);
    }
  }

  /** Nothing but the in-flight table moved. */
  ghost predicate OnlyLoads(c: Cache, t: Cache) {
    t == c.(loads := t.loads)
  }

  lemma StaleIsAbandoned(c: Cache, l: Label, wire: Wire, k: Key)
    requires Enabled(c, l, wire) && (l.ArchiveDone? || l.DesignDone?) && Ends(l, k) && Stale(c, k)
    ensures OnlyLoads(c, Apply(c, l, wire))
  {
  }

  /** After the completion the key's object is cached: the one already there, else the
      one this load produced. */
  ghost predicate Published(c: Cache, l: Label, t: Cache)
    requires l.ArchiveDone? ==> Key(ArchiveKind, l.name) in c.loads
    requires l.DesignDone? ==> Key(DesignKind, l.name) in c.loads && c.loads[Key(DesignKind, l.name)].got.Some?
  {
    && (l.ArchiveDone? ==>
          && l.name in t.archives
          && t.archives[l.name] ==
             (if l.name in c.archives then c.archives[l.name]
              else Archive(l.id, c.loads[Key(ArchiveKind, l.name)].mark)))
    && (l.DesignDone? ==>
          && l.name in t.designs
          && t.designs[l.name] ==
             (if l.name in c.designs then c.designs[l.name]
              else Design(l.id, c.loads[Key(DesignKind, l.name)].got.value)))
  }

  lemma FreshIsInserted(c: Cache, l: Label, wire: Wire, k: Key)
    requires Enabled(c, l, wire) && (l.ArchiveDone? || l.DesignDone?) && Ends(l, k) && !Stale(c, k)
    ensures Published(c, l, Apply(c, l, wire))
  {
    StepSeenAt(c, l, wire, k.name);
    if l.ArchiveDone? {
      ArchiveInsertedAt(c, l.name, l.id, l.charging, l.name);
    } else {
      DesignInsertedAt(c, l.name, l.id, l.commit, l.charging, l.name);
    }
  }

  /** No stale resurrection: a load that registered at step i and completes at step j
      publishes exactly when its name was not invalidated, evicted or cleared in between;
      otherwise its completion touches nothing but the in-flight table. */
  lemma LoadPublishesIffNotInvalidated(tr: seq<Cache>, ls: seq<Label>, wire: Wire, k: Key, i: nat, j: nat)
    requires Run(tr, ls, wire) && InFlightFrom(ls, k, i, j) && j < |ls|
    requires (ls[j].ArchiveDone? || ls[j].DesignDone?) && Ends(ls[j], k)
    ensures InvalidatedIn(tr, ls, wire, k.name, i, j) ==> OnlyLoads(tr[j], tr[j+1])
    ensures Leads(tr, ls, wire, j)
    ensures !InvalidatedIn(tr, ls, wire, k.name, i, j) ==> Published(tr[j], ls[j], tr[j+1])
  {
    MarkKept(tr, ls, wire, k, i, j);
    StampsTell(tr, ls, wire, k.name, i, j);
    assert Leads(tr, ls, wire, j);
    if InvalidatedIn(tr, ls, wire, k.name, i, j) {
      StaleIsAbandoned(tr[j], ls[j], wire, k);
    } else {
      FreshIsInserted(tr[j], ls[j], wire, k);
    }
  }

  // ---- commits ----

  /** The commits waiting after a step. */
  function CommitsAfter(c: Cache, l: Label, t: Cache): map<nat, Commit> {
    match l
    case DesignDone(n, id, commit, _) =>
      var k := Key(DesignKind, n);
      if k !in c.loads || c.loads[k].got.None? || Stale(c, k) then c.commits
      else c.commits[commit := Commit(n, KeptDesign(c, n, id), c.loads[k].mark.epoch, S.Gen(t.store, n))]
    case GuardExit(k, stage, id, commit, _) =>
      if !stage.Scheduled? || k.kind.ArchiveKind? || !Parsed(c, k) then c.commits
      else c.commits[commit := Commit(k.name, KeptDesign(c, k.name, id), c.loads[k].mark.epoch, S.Gen(t.store, k.name))]
    case Capture(id, n) =>
      if n in c.designs then c.commits[id := Commit(n, c.designs[n], c.epoch, S.Gen(c.store, n))] else c.commits
    case CommitPayload(id, _) => c.commits - {id}
    case _ => c.commits
  }

  lemma ArchiveCommits(c: Cache, l: Label, wire: Wire)
    requires l.ArchiveDone? && Enabled(c, l, wire)
    ensures ArchiveCompleted(c, l.name, l.id, l.joined, l.charging).commits == c.commits
  {
    if !Stale(c, Key(ArchiveKind, l.name)) {
      ArchiveInsertedFrame(c, l.name, l.id, l.charging);
    }
  }

  lemma DesignCommits(c: Cache, l: Label, wire: Wire)
    requires l.DesignDone? && Enabled(c, l, wire)
    ensures var t := DesignCompleted(c, l.name, l.id, l.commit, l.charging); t.commits == CommitsAfter(c, l, t)
  {
    if !Stale(c, Key(DesignKind, l.name)) {
      DesignInsertedFrame(c, l.name, l.id, l.commit, l.charging);
    }
  }

  lemma CommitsStep(c: Cache, l: Label, wire: Wire)
    requires Enabled(c, l, wire)
    ensures Apply(c, l, wire).commits == CommitsAfter(c, l, Apply(c, l, wire))
  {
    if l.ArchiveDone? {
      ArchiveCommits(c, l, wire);
    } else if l.DesignDone? {
      DesignCommits(c, l, wire);
    } else if l.GuardExit? {
      GuardCommits(c, l, wire);
    } else if l.Inject? || l.SetMax? || l.CommitPayload? {
      EvictingTables(c, l, wire);
    }
  }

  /** The steps that leave a commit behind. */
  predicate Creates(l: Label) {
    l.Capture? || l.DesignDone? || (l.GuardExit? && l.stage.Scheduled?)
  }

  /** Step i schedules or captures commit id, and no step in (i, j) performs it. */
  ghost predicate WaitingFrom(tr: seq<Cache>, ls: seq<Label>, id: nat, i: nat, j: nat) {
    && i < j <= |ls| && i + 1 < |tr|
    && Creates(ls[i]) && ls[i].commit == id && id in tr[i+1].commits
    && forall m :: i < m < j ==> !(ls[m].CommitPayload? && ls[m].commit == id)
  }

  /** A waiting commit is about the design cached when it was created, under the stamp
      its name had then. */
  ghost predicate Describes(co: Commit, c: Cache) {
    co.name in c.designs && c.designs[co.name] == co.design && StampOf(c, co.name) == Stamp(co.epoch, co.gen)
  }

  lemma DesignCommitCreated(c: Cache, l: Label, wire: Wire, t: Cache)
    requires Enabled(c, l, wire) && t == Apply(c, l, wire) && l.DesignDone? && l.commit in t.commits
    ensures Describes(t.commits[l.commit], t)
  {
    CommitsStep(c, l, wire);
    StepSeenAt(c, l, wire, l.name);
    StampSeen(c, l, wire, l.name, t);
    DesignInsertedAt(c, l.name, l.id, l.commit, l.charging, l.name);
    assert At(t, l.name).design == Some(KeptDesign(c, l.name, l.id));
  }

  lemma GuardCommitCreated(c: Cache, l: Label, wire: Wire, t: Cache)
    requires Enabled(c, l, wire) && t == Apply(c, l, wire) && l.GuardExit? && l.stage.Scheduled?
    ensures l.commit in t.commits && Describes(t.commits[l.commit], t)
  {
    var n := l.key.name;
    CommitsStep(c, l, wire);
    StepSeenAt(c, l, wire, n);
    StampSeen(c, l, wire, n, t);
    AtInsertAndCharge(c, l.key, l.id, l.charging, n);
    assert At(t, n).design == Some(KeptDesign(c, n, l.id));
  }

  lemma CommitCreated(c: Cache, l: Label, wire: Wire)
    requires Enabled(c, l, wire) && Creates(l) && l.commit in Apply(c, l, wire).commits
    ensures Describes(Apply(c, l, wire).commits[l.commit], Apply(c, l, wire))
  {
    if l.DesignDone? {
      DesignCommitCreated(c, l, wire, Apply(c, l, wire));
    } else if l.GuardExit? {
      GuardCommitCreated(c, l, wire, Apply(c, l, wire));
    }
  }

  lemma {:induction false} CommitKept(tr: seq<Cache>, ls: seq<Label>, wire: Wire, id: nat, i: nat, j: nat)
    requires Run(tr, ls, wire) && WaitingFrom(tr, ls, id, i, j)
    ensures id in tr[j].commits && tr[j].commits[id] == tr[i+1].commits[id]
    decreases j
  {
    if i + 1 < j {
      CommitKept(tr, ls, wire, id, i, j - 1);
      assert Leads(tr, ls, wire, j - 1);
      CommitsStep(tr[j-1], ls[j-1], wire);
    }
  }

  /** An uninvalidated name keeps its cached design. */
  lemma DesignStays(c: Cache, l: Label, wire: Wire, n: Name)
    requires Enabled(c, l, wire) && n in c.designs && !Invalidates(c, l, wire, n)
    ensures var t := Apply(c, l, wire); n in t.designs && t.designs[n] == c.designs[n]
  {
    StepSeenAt(c, l, wire, n);
    OutcomeKeepsDesign(c, l, wire, n, Apply(c, l, wire));
  }

  lemma OutcomeKeepsDesign(c: Cache, l: Label, wire: Wire, n: Name, t: Cache)
    requires n in c.designs && !Invalidates(c, l, wire, n) && StepAt(c, l, wire, n, t)
    ensures n in t.designs && t.designs[n] == c.designs[n]
  {
    assert At(t, n) == Outcome(c, l, wire, n);
    assert At(t, n).design == At(c, n).design;
  }

  lemma {:induction false} DesignKept(tr: seq<Cache>, ls: seq<Label>, wire: Wire, n: Name, i: nat, j: nat)
    requires Run(tr, ls, wire) && i <= j < |tr| && n in tr[i].designs && !InvalidatedIn(tr, ls, wire, n, i, j)
    ensures n in tr[j].designs && tr[j].designs[n] == tr[i].designs[n]
    decreases j
  {
    if i < j {
      forall m: nat | i <= m < j - 1
        ensures !HitsAt(tr, ls, wire, n, m)
      {
        assert i <= m < j;
      }
      DesignKept(tr, ls, wire, n, i, j - 1);
      assert Leads(tr, ls, wire, j - 1);
      assert !HitsAt(tr, ls, wire, n, j - 1);
      DesignStays(tr[j-1], ls[j-1], wire, n);
    }
  }

  /** A commit created at step i and performed at step j publishes exactly when its name
      was not invalidated, evicted or cleared in between (and there is something to
      publish, under a name that has an LRU entry): then the store holds the payload of the cached design; otherwise the
      name's payload is left as it was. */
  lemma CommitPublishesIffNotInvalidated(tr: seq<Cache>, ls: seq<Label>, wire: Wire, id: nat, i: nat, j: nat)
    requires Run(tr, ls, wire) && WaitingFrom(tr, ls, id, i, j) && j < |ls|
    requires ls[j].CommitPayload? && ls[j].commit == id
    ensures id in tr[j].commits
    ensures var co := tr[j].commits[id]; var n := co.name;
      if !InvalidatedIn(tr, ls, wire, n, i + 1, j) && wire(co.design) != [] && n in tr[j].lru.entries
      then n in tr[j+1].store.entries && tr[j+1].store.entries[n] == S.Payload(wire(co.design), [], [])
           && n in tr[j+1].designs && tr[j+1].designs[n] == co.design
      else Look(tr[j+1].store.entries, n) == Look(tr[j].store.entries, n)
  {
    CommitKept(tr, ls, wire, id, i, j);
    assert Leads(tr, ls, wire, i);
    CommitCreated(tr[i], ls[i], wire);
    var co := tr[j].commits[id];
    var n := co.name;
    StampsTell(tr, ls, wire, n, i + 1, j);
    SoundAlways(tr, ls, wire, j);
    assert NameOk(At(tr[j], n), wire);
    if !InvalidatedIn(tr, ls, wire, n, i + 1, j) {
      DesignKept(tr, ls, wire, n, i + 1, j);
    }
    assert Leads(tr, ls, wire, j);
    StepSeenAt(tr[j], ls[j], wire, n);
    CommitOutcome(tr[j], ls[j].victims, id, wire, tr[j+1]);
  }

  /** The effect of one commit on its own name. */
  lemma CommitOutcome(c: Cache, vs: seq<Name>, id: nat, wire: Wire, t: Cache)
    requires Enabled(c, CommitPayload(id, vs), wire) && NameOk(At(c, c.commits[id].name), wire)
    requires StepAt(c, CommitPayload(id, vs), wire, c.commits[id].name, t)
    ensures var co := c.commits[id]; var n := co.name;
      if Describes(co, c) && wire(co.design) != [] && n in c.lru.entries
      then n in t.store.entries && t.store.entries[n] == S.Payload(wire(co.design), [], [])
           && n in t.designs && t.designs[n] == co.design
      else (StampOf(c, n) != Stamp(co.epoch, co.gen) || wire(co.design) == [] || n !in c.lru.entries ==>
              Look(t.store.entries, n) == Look(c.store.entries, n))
  {
    var co := c.commits[id];
    var n := co.name;
    if CommitValid(c, co, wire) {
      L.PassRemoves(StorePayload(c, co, wire).lru, vs, n, LoadingNames(c.states));
      assert n !in vs;
    }
    assert At(t, n) == Outcome(c, CommitPayload(id, vs), wire, n);
  }

  // ---- building runs ----

  lemma LeadsStill(tr: seq<Cache>, ls: seq<Label>, tr': seq<Cache>, ls': seq<Label>, wire: Wire, i: nat)
    requires i < |ls| && i + 1 < |tr| && tr <= tr' && ls <= ls' && Leads(tr, ls, wire, i)
    ensures Leads(tr', ls', wire, i)
  {
    assert tr'[i] == tr[i] && tr'[i+1] == tr[i+1] && ls'[i] == ls[i];
  }

  lemma Extend(tr: seq<Cache>, ls: seq<Label>, wire: Wire, l: Label) returns (tr': seq<Cache>, ls': seq<Label>)
    requires Run(tr, ls, wire) && Enabled(tr[|ls|], l, wire)
    ensures Run(tr', ls', wire) && |ls'| == |ls| + 1 && tr'[|ls'|] == Apply(tr[|ls|], l, wire)
    ensures tr <= tr' && ls <= ls' && ls'[|ls|] == l
  {
    var t := Apply(tr[|ls|], l, wire);
    tr', ls' := tr + [t], ls + [l];
    forall i: nat | i < |ls'|
      ensures Leads(tr', ls', wire, i)
    {
      if i < |ls| {
        assert Leads(tr, ls, wire, i);
        LeadsStill(tr, ls, tr', ls', wire, i);
      }
    }
  }
}
