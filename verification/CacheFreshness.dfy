/** Is a cached design built from contents no older than the last invalidation? The load's
    own overlap is always caught, but the archive it joined may be older. */
module CacheFreshness {
  import opened Basics
  import opened CacheKeys
  import opened CacheModel
  import opened CacheViews
  import opened CacheSoundness
  import opened CacheRuns
  import S = ResponseStore
  import L = LruLedger

  /** The design cached for the name was built from an archive whose load registered (or
      which was injected) after the last invalidation of the name. */
  ghost predicate Fresh(c: Cache, n: Name) {
    n in c.designs ==> c.designs[n].source.born == StampOf(c, n)
  }

  /** An archive load registered before the name's last invalidation is still running. */
  predicate OldArchiveInFlight(c: Cache, n: Name) {
    Key(ArchiveKind, n) in c.loads && Stale(c, Key(ArchiveKind, n))
  }

  /** The step inserts the design that the name's load has built. */
  predicate InsertsOwn(c: Cache, l: Label, n: Name) {
    && (|| (l.DesignDone? && l.name == n)
        || (l.GuardExit? && l.key == Key(DesignKind, n) && !l.stage.Announced?))
    && Parsed(c, Key(DesignKind, n)) && !Stale(c, Key(DesignKind, n)) && n !in c.designs
  }

  /** What is inserted is as old as the archive the load obtained. */
  lemma InsertedDesign(c: Cache, l: Label, wire: Wire, n: Name, t: Cache)
    requires Enabled(c, l, wire) && t == Apply(c, l, wire) && InsertsOwn(c, l, n)
    ensures n in t.designs && t.designs[n].source == c.loads[Key(DesignKind, n)].got.value
    ensures StampOf(t, n) == c.loads[Key(DesignKind, n)].mark
  {
    var k := Key(DesignKind, n);
    StepSeenAt(c, l, wire, n);
    OwnNameIsNoVictim(c, l, wire, n);
    StampSeen(c, l, wire, n, t);
    assert At(t, n).design == Some(KeptDesign(c, n, l.id));
  }

  lemma OwnNameIsNoVictim(c: Cache, l: Label, wire: Wire, n: Name)
    requires Enabled(c, l, wire) && InsertsOwn(c, l, n)
    ensures n !in Victims(c, l, wire)
  {
    var ch := l.charging;
    if l.DesignDone? || l.stage.Charged? || l.stage.Scheduled? {
      var charged := ChargeName(InsertDesign(c, n, l.id), n, ch.base, ch.now);
      L.PassRemoves(charged.lru, ch.victims, n, LoadingNames(c.states));
    }
  }

  // ---- a load that starts beside an old archive load can go stale ----

  /** Whenever a design load registers while an old archive load is still running, it can
      join that load and cache a design built from the replaced contents, whatever the
      byte budget. */
  lemma OldArchiveMakesStaleDesign(c: Cache, wire: Wire, n: Name, id: nat, commit: nat) returns (vs: seq<Name>)
    requires OldArchiveInFlight(c, n) && Key(DesignKind, n) !in c.loads && n !in c.designs && commit !in c.commits
    ensures var k := Key(DesignKind, n);
      && Enabled(c, Register(k, true), wire)
      && var c1 := Apply(c, Register(k, true), wire);
         && Enabled(c1, ArchiveDone(n, id, true, Charging(0, 0, [])), wire)
         && var c2 := Apply(c1, ArchiveDone(n, id, true, Charging(0, 0, [])), wire);
            && Enabled(c2, DesignDone(n, id, commit, Charging(0, 0, vs)), wire)
            && InsertsOwn(c2, DesignDone(n, id, commit, Charging(0, 0, vs)), n)
            && !Fresh(Apply(c2, DesignDone(n, id, commit, Charging(0, 0, vs)), wire), n)
  {
    var k := Key(DesignKind, n);
    var c1 := RegisterLoad(c, k, true);
    assert c1.loads == c.loads[k := Load(true, StampOf(c, n), None)] && c1.commits == c.commits;
    var mark := c.loads[Key(ArchiveKind, n)].mark;
    assert Stale(c1, Key(ArchiveKind, n));
    var c2 := ArchiveCompleted(c1, n, id, true, Charging(0, 0, []));
    assert c2 == c1.(loads := c2.loads);
    assert c2.loads[k] == Load(true, StampOf(c, n), Some(Archive(id, mark)));
    vs := L.PassExists(ChargeName(InsertDesign(c2, n, id), n, 0, 0).lru, n, LoadingNames(c2.states));
    var l := DesignDone(n, id, commit, Charging(0, 0, vs));
    InsertedDesign(c2, l, wire, n, Apply(c2, l, wire));
  }

  /** Step j inserts the design of the load of n that step i registered. */
  ghost predicate OwnInsert(tr: seq<Cache>, ls: seq<Label>, n: Name, i: nat, j: nat) {
    InFlightFrom(ls, Key(DesignKind, n), i, j) && j < |ls| && j < |tr| && InsertsOwn(tr[j], ls[j], n)
  }

  ghost predicate Continues(tr: seq<Cache>, ls: seq<Label>, tr': seq<Cache>, ls': seq<Label>) {
    tr <= tr' && ls <= ls'
  }

  /** However the run goes on after its last state, if a design load of n registers next
      and inserts what it built, the cached design is fresh. */
  ghost predicate AlwaysFresh(tr: seq<Cache>, ls: seq<Label>, wire: Wire, n: Name) {
    forall tr', ls', j: nat {:trigger OwnInsert(tr', ls', n, |ls|, j), Run(tr', ls', wire)} ::
      Run(tr', ls', wire) && Continues(tr, ls, tr', ls') && OwnInsert(tr', ls', n, |ls|, j) ==> Fresh(tr'[j+1], n)
  }

  /** The run that goes wrong, continued from any state with an old archive load. */
  lemma StaleContinuation(tr: seq<Cache>, ls: seq<Label>, wire: Wire, n: Name)
    requires Run(tr, ls, wire) && Key(DesignKind, n) !in tr[|ls|].loads
    requires OldArchiveInFlight(tr[|ls|], n) && n !in tr[|ls|].designs
    ensures !AlwaysFresh(tr, ls, wire, n)
  {
    var c := tr[|ls|];
    var commit := Unused(c.commits.Keys);
    var vs := OldArchiveMakesStaleDesign(c, wire, n, 1, commit);
    var tr1, ls1 := Extend(tr, ls, wire, Register(Key(DesignKind, n), true));
    var tr2, ls2 := Extend(tr1, ls1, wire, ArchiveDone(n, 1, true, Charging(0, 0, [])));
    var tr3, ls3 := Extend(tr2, ls2, wire, DesignDone(n, 1, commit, Charging(0, 0, vs)));
    assert Continues(tr, ls, tr3, ls3);
    assert OwnInsert(tr3, ls3, n, |ls|, |ls| + 2);
  }

  /** A load of the archive starts and the name is invalidated. */
  lemma OldArchiveIsReachable(wire: Wire, n: Name) returns (tr: seq<Cache>, ls: seq<Label>)
    ensures Run(tr, ls, wire) && |ls| == 2
    ensures var c := tr[2];
      OldArchiveInFlight(c, n) && Key(DesignKind, n) !in c.loads && n !in c.designs && c.commits == map[]
  {
    var c0 := Cache(map[], map[], S.EMPTY, L.Ledger(map[], 0, 0), map[], 0, map[], map[], []);
    var a := Key(ArchiveKind, n);
    tr, ls := [c0], [];
    tr, ls := Extend(tr, ls, wire, Register(a, true));
    var c1 := tr[1];
    assert c1 == RegisterLoad(c0, a, true);
    assert c1.loads == map[a := Load(true, Stamp(0, 0), None)];
    tr, ls := Extend(tr, ls, wire, Invalidate(n));
    assert tr[2] == Transition(DropName(c1, n), n, Unloaded);
  }

  /** The smallest run that ends with a stale cached design. */
  lemma StaleDesignIsReachable(wire: Wire, n: Name) returns (tr: seq<Cache>, ls: seq<Label>)
    ensures Run(tr, ls, wire) && |ls| == 5 && !Fresh(tr[5], n)
  {
    tr, ls := OldArchiveIsReachable(wire, n);
    var vs := OldArchiveMakesStaleDesign(tr[2], wire, n, 1, 0);
    tr, ls := Extend(tr, ls, wire, Register(Key(DesignKind, n), true));
    tr, ls := Extend(tr, ls, wire, ArchiveDone(n, 1, true, Charging(0, 0, [])));
    tr, ls := Extend(tr, ls, wire, DesignDone(n, 1, 0, Charging(0, 0, vs)));
  }

  // ---- and no other load can ----

  /** While a design load is current, every archive it can obtain is current too. */
  ghost predicate LoadGuard(c: Cache, n: Name) {
    var k := Key(DesignKind, n);
    k in c.loads && !Stale(c, k) ==>
      !OldArchiveInFlight(c, n) && (c.loads[k].got.Some? ==> c.loads[k].got.value.born == c.loads[k].mark)
  }

  lemma LoadGuardStep(c: Cache, l: Label, n: Name, t: Cache)
    requires LoadGuard(c, n) && t.loads == LoadsAfter(c, l) && StampOf(t, n) == StampOf(c, n)
    requires n in c.archives ==> c.archives[n].born == StampOf(c, n)
    requires l.Register? ==> l.key != Key(DesignKind, n)
    ensures LoadGuard(t, n)
  {
  }

  lemma GuardStarts(c: Cache, l: Label, n: Name, t: Cache)
    requires l == Register(Key(DesignKind, n), true) && t.loads == LoadsAfter(c, l) && StampOf(t, n) == StampOf(c, n)
    requires !OldArchiveInFlight(c, n)
    ensures LoadGuard(t, n)
  {
  }

  lemma NotInvalidatedBefore(tr: seq<Cache>, ls: seq<Label>, wire: Wire, n: Name, i: nat, j: nat, m: nat)
    requires !InvalidatedIn(tr, ls, wire, n, i, j) && m <= j
    ensures !InvalidatedIn(tr, ls, wire, n, i, m)
  {
    forall p: nat | i <= p < m
      ensures !HitsAt(tr, ls, wire, n, p)
    {
      assert i <= p < j;
    }
  }

  /** While a load that started without an old archive load beside it stays current, so
      does every archive it can obtain. */
  lemma {:induction false} GuardHolds(tr: seq<Cache>, ls: seq<Label>, wire: Wire, n: Name, i: nat, j: nat)
    requires Run(tr, ls, wire) && InFlightFrom(ls, Key(DesignKind, n), i, j) && j < |tr|
    requires !OldArchiveInFlight(tr[i], n) && !InvalidatedIn(tr, ls, wire, n, i, j)
    ensures LoadGuard(tr[j], n)
    decreases j
  {
    var c, l := tr[j-1], ls[j-1];
    assert Leads(tr, ls, wire, j - 1);
    LoadsStep(c, l, wire);
    StampStep(c, l, wire, n);
    assert !HitsAt(tr, ls, wire, n, j - 1);
    if i + 1 == j {
      GuardStarts(c, l, n, tr[j]);
    } else {
      NotInvalidatedBefore(tr, ls, wire, n, i, j, j - 1);
      GuardHolds(tr, ls, wire, n, i, j - 1);
      MarkKept(tr, ls, wire, Key(DesignKind, n), i, j - 1);
      SoundAlways(tr, ls, wire, j - 1);
      assert NameOk(At(c, n), wire);
      assert n in c.archives ==> At(c, n).archive == Some(c.archives[n]);
      LoadGuardStep(c, l, n, tr[j]);
    }
  }

  /** A load that inserts what it built was not invalidated since it registered. */
  lemma OwnInsertIsCurrent(tr: seq<Cache>, ls: seq<Label>, wire: Wire, n: Name, i: nat, j: nat)
    requires Run(tr, ls, wire) && OwnInsert(tr, ls, n, i, j)
    ensures !InvalidatedIn(tr, ls, wire, n, i, j)
  {
    MarkKept(tr, ls, wire, Key(DesignKind, n), i, j);
    StampsTell(tr, ls, wire, n, i, j);
  }

  /** One load at a time: a design load that registers with no old archive load beside it
      only ever inserts a fresh design, whatever other loads do. */
  lemma LoadWithoutOldArchiveIsFresh(tr: seq<Cache>, ls: seq<Label>, wire: Wire, n: Name, i: nat, j: nat)
    requires Run(tr, ls, wire) && OwnInsert(tr, ls, n, i, j) && !OldArchiveInFlight(tr[i], n)
    ensures Fresh(tr[j+1], n)
  {
    OwnInsertIsCurrent(tr, ls, wire, n, i, j);
    GuardHolds(tr, ls, wire, n, i, j);
    assert Leads(tr, ls, wire, j);
    InsertedDesign(tr[j], ls[j], wire, n, tr[j+1]);
  }

  /** The exact condition. At any reachable state in which a design load of n can register,
      everything that load may insert later is fresh if and only if no archive load older
      than the last invalidation of n is running then (or a design is cached already, so
      that the load inserts nothing of its own). */
  lemma FreshIffNoOldArchive(tr: seq<Cache>, ls: seq<Label>, wire: Wire, n: Name)
    requires Run(tr, ls, wire) && Key(DesignKind, n) !in tr[|ls|].loads
    ensures AlwaysFresh(tr, ls, wire, n) <==> !OldArchiveInFlight(tr[|ls|], n) || n in tr[|ls|].designs
  {
    var i := |ls|;
    if OldArchiveInFlight(tr[i], n) && n !in tr[i].designs {
      StaleContinuation(tr, ls, wire, n);
    } else {
      forall tr', ls', j: nat | Run(tr', ls', wire) && Continues(tr, ls, tr', ls') && OwnInsert(tr', ls', n, i, j)
        ensures Fresh(tr'[j+1], n)
      {
        assert tr'[i] == tr[i];
        if n in tr[i].designs {
          OwnInsertIsCurrent(tr', ls', wire, n, i, j);
          DesignKept(tr', ls', wire, n, i, j);
          assert false;
        }
        LoadWithoutOldArchiveIsFresh(tr', ls', wire, n, i, j);
      }
    }
  }
}
