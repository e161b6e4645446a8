/** The load-state machine over whole runs: capture, registration and announcement of a
    load are one step here. */
module CacheStates {
  import opened Basics
  import opened CacheKeys
  import opened CacheModel
  import opened CacheViews
  import opened CacheRuns
  import opened Histories
  import S = ResponseStore
  import L = LruLedger

  // ---- the load states a step leaves behind ----

  /** An announced load whose captured epoch and generation are still the current ones. */
  ghost predicate CurrentLoad(c: Cache, k: Key) {
    k in c.loads && c.loads[k].announces && !Stale(c, k)
  }

  ghost predicate BeingLoaded(c: Cache, n: Name) {
    CurrentLoad(c, Key(DesignKind, n)) || CurrentLoad(c, Key(ArchiveKind, n))
  }

  /** The name is recorded as Loading although no current load of it is in flight. */
  ghost predicate Stuck(c: Cache, n: Name) {
    StateOf(c, n) == Loading && !BeingLoaded(c, n)
  }

  function Other(k: Key): Key {
    Key(if k.kind.DesignKind? then ArchiveKind else DesignKind, k.name)
  }

  /** An exception takes a Loading name's only current load out through the exit guard, or
      interrupts an injection that has just made its loads stale: neither touches the
      load states. */
  ghost predicate Strands(c: Cache, l: Label, n: Name) {
    && StateOf(c, n) == Loading
    && (|| (l.GuardExit? && l.key.name == n && CurrentLoad(c, l.key) && !CurrentLoad(c, Other(l.key)))
        || (l.InjectThrows? && l.name == n))
  }

  /** The step ends a load of the name and records how it ended. */
  predicate Records(c: Cache, l: Label, n: Name) {
    match l
    case ArchiveDone(m, _, _, _) =>
      var k := Key(ArchiveKind, m);
      m == n && k in c.loads && !Stale(c, k) && c.loads[k].announces
    case DesignDone(m, _, _, _) => m == n && Parsed(c, Key(DesignKind, m)) && !Stale(c, Key(DesignKind, m))
    case NotFound(k) => k.name == n && k in c.loads && c.loads[k].announces
    case Fails(k) => k.name == n && k in c.loads && c.loads[k].announces && c.epoch == c.loads[k].mark.epoch
    case _ => false
  }

  predicate Announces(l: Label, n: Name) {
    l.Register? && l.announces && l.key.name == n
  }

  /** The step gives the name another state, or a new load that will. */
  predicate Frees(c: Cache, l: Label, wire: Wire, n: Name) {
    (Invalidates(c, l, wire, n) && !l.InjectThrows?) || Records(c, l, n) || Announces(l, n)
  }

  /** No load of the name has captured a stamp that is still to come. */
  ghost predicate MarksPast(c: Cache, n: Name) {
    forall k :: k in c.loads && k.name == n ==> !Before(StampOf(c, n), c.loads[k].mark)
  }

  lemma LoadKeepsMark(c: Cache, l: Label, wire: Wire, k: Key)
    requires Enabled(c, l, wire) && k in LoadsAfter(c, l)
    ensures if l.Register? && l.key == k then LoadsAfter(c, l)[k].mark == StampOf(c, k.name)
            else k in c.loads && LoadsAfter(c, l)[k].mark == c.loads[k].mark
  {
  }

  lemma MarksPastStep(c: Cache, l: Label, wire: Wire, n: Name, t: Cache)
    requires Enabled(c, l, wire) && MarksPast(c, n) && StampMoves(c, l, wire, n, t) && t.loads == LoadsAfter(c, l)
    ensures MarksPast(t, n)
  {
    forall k | k in t.loads && k.name == n
      ensures !Before(StampOf(t, n), t.loads[k].mark)
    {
      LoadKeepsMark(c, l, wire, k);
    }
  }

  lemma StateIsViewed(c: Cache, n: Name)
    ensures StateOf(c, n) == Loading <==> At(c, n).state == Some(Loading)
    ensures n in c.states <==> At(c, n).state.Some?
  {
  }

  lemma InvalidatedState(c: Cache, l: Label, wire: Wire, n: Name, t: Cache)
    requires StepAt(c, l, wire, n, t) && Invalidates(c, l, wire, n) && !l.InjectThrows?
    ensures StateOf(t, n) != Loading
    ensures n in Victims(c, l, wire) ==> StateOf(c, n) != Loading
  {
    StateIsViewed(c, n);
    StateIsViewed(t, n);
  }

  lemma RecordedState(c: Cache, l: Label, wire: Wire, n: Name)
    requires Records(c, l, n)
    ensures Outcome(c, l, wire, n).state != Some(Loading)
  {
  }

  /** A step that neither invalidates nor records nor announces leaves the state alone. */
  lemma KeptState(c: Cache, l: Label, wire: Wire, n: Name)
    requires !Frees(c, l, wire, n)
    ensures Outcome(c, l, wire, n).state == At(c, n).state
  {
  }

  /** Such a step ends no current load, unless the guard does. */
  lemma KeptLoad(c: Cache, l: Label, wire: Wire, k: Key, t: Cache)
    requires Enabled(c, l, wire) && !Frees(c, l, wire, k.name) && !Invalidates(c, l, wire, k.name)
    requires StampOf(t, k.name) == StampOf(c, k.name) && t.loads == LoadsAfter(c, l)
    ensures CurrentLoad(t, k) <==> CurrentLoad(c, k) && !(l.GuardExit? && l.key == k)
  {
  }

  lemma AnnouncedIsLoaded(c: Cache, l: Label, n: Name, t: Cache)
    requires Announces(l, n) && t.loads == LoadsAfter(c, l) && StampOf(t, n) == StampOf(c, n)
    ensures BeingLoaded(t, n)
  {
    assert CurrentLoad(t, l.key);
    OfEitherKind(l.key);
  }

  lemma KeptLoads(c: Cache, l: Label, wire: Wire, n: Name, t: Cache)
    requires Enabled(c, l, wire) && !Frees(c, l, wire, n) && !Invalidates(c, l, wire, n)
    requires StampOf(t, n) == StampOf(c, n) && t.loads == LoadsAfter(c, l)
    ensures StateOf(c, n) == Loading ==> (!BeingLoaded(t, n) <==> Strands(c, l, n) || !BeingLoaded(c, n))
  {
    KeptLoad(c, l, wire, Key(DesignKind, n), t);
    KeptLoad(c, l, wire, Key(ArchiveKind, n), t);
    if l.GuardExit? && l.key.name == n {
      OfEitherKind(l.key);
    }
  }

  lemma OfEitherKind(k: Key)
    ensures k == Key(DesignKind, k.name) || k == Key(ArchiveKind, k.name)
  {
    match k.kind
    case DesignKind => assert k == Key(DesignKind, k.name);
    case ArchiveKind => assert k == Key(ArchiveKind, k.name);
  }

  /** The interrupted injection keeps the state and makes every load of the name stale,
      since no load was ahead of the name's stamp. */
  lemma InterruptedInjection(c: Cache, l: Label, wire: Wire, n: Name, t: Cache)
    requires l.InjectThrows? && l.name == n && StepAt(c, l, wire, n, t)
    requires StampMoves(c, l, wire, n, t) && t.loads == LoadsAfter(c, l)
    requires MarksPast(c, n)
    ensures StateOf(t, n) == Loading <==> StateOf(c, n) == Loading
    ensures !BeingLoaded(t, n)
  {
    StateIsViewed(c, n);
    StateIsViewed(t, n);
  }

  lemma FreedStep(c: Cache, l: Label, wire: Wire, n: Name, t: Cache)
    requires Frees(c, l, wire, n) && StepAt(c, l, wire, n, t)
    requires StampMoves(c, l, wire, n, t) && t.loads == LoadsAfter(c, l)
    ensures !Stuck(t, n) && !Strands(c, l, n)
  {
    StateIsViewed(c, n);
    StateIsViewed(t, n);
    if Invalidates(c, l, wire, n) && !l.InjectThrows? {
      InvalidatedState(c, l, wire, n, t);
    } else if Records(c, l, n) {
      RecordedState(c, l, wire, n);
    } else {
      AnnouncedIsLoaded(c, l, n, t);
    }
  }

  lemma QuietStep(c: Cache, l: Label, wire: Wire, n: Name, t: Cache)
    requires Enabled(c, l, wire) && !Frees(c, l, wire, n) && !Invalidates(c, l, wire, n)
    requires StepAt(c, l, wire, n, t) && StampOf(t, n) == StampOf(c, n) && t.loads == LoadsAfter(c, l)
    ensures Stuck(t, n) <==> Strands(c, l, n) || Stuck(c, n)
  {
    StateIsViewed(c, n);
    StateIsViewed(t, n);
    KeptState(c, l, wire, n);
    KeptLoads(c, l, wire, n, t);
  }

  lemma StuckStep(c: Cache, l: Label, wire: Wire, n: Name, t: Cache)
    requires Enabled(c, l, wire) && StepAt(c, l, wire, n, t)
    requires StampMoves(c, l, wire, n, t) && t.loads == LoadsAfter(c, l)
    requires MarksPast(c, n)
    ensures Stuck(t, n) <==> Strands(c, l, n) || (Stuck(c, n) && !Frees(c, l, wire, n))
  {
    if l.InjectThrows? && l.name == n {
      InterruptedInjection(c, l, wire, n, t);
    } else if Frees(c, l, wire, n) {
      FreedStep(c, l, wire, n, t);
    } else {
      QuietStep(c, l, wire, n, t);
    }
  }

  ghost function Strandings(tr: seq<Cache>, ls: seq<Label>, n: Name): seq<bool>
    requires |tr| == |ls| + 1
  {
    seq(|ls|, j requires 0 <= j < |ls| => Strands(tr[j], ls[j], n))
  }

  ghost function Freeings(tr: seq<Cache>, ls: seq<Label>, wire: Wire, n: Name): seq<bool>
    requires |tr| == |ls| + 1
  {
    seq(|ls|, j requires 0 <= j < |ls| => Frees(tr[j], ls[j], wire, n))
  }

  /** In every reachable state a name recorded as Loading has an announced load in flight
      whose captured epoch and generation are current, exactly unless its last current
      load left through the exit guard, or an injection was interrupted while it was
      Loading, and nothing has freed the name since. */
  lemma {:induction false} LoadingMeansInFlightUnlessStranded(
    tr: seq<Cache>, ls: seq<Label>, wire: Wire, n: Name, i: nat)
    requires Run(tr, ls, wire) && i < |tr|
    ensures (StateOf(tr[i], n) == Loading ==> BeingLoaded(tr[i], n)) <==>
            !Since(Strandings(tr, ls, n), Freeings(tr, ls, wire, n), i)
    ensures MarksPast(tr[i], n)
  {
    if i > 0 {
      LoadingMeansInFlightUnlessStranded(tr, ls, wire, n, i - 1);
      var c, l := tr[i-1], ls[i-1];
      assert Leads(tr, ls, wire, i - 1);
      StepSeenAt(c, l, wire, n);
      StampStep(c, l, wire, n);
      LoadsStep(c, l, wire);
      StuckStep(c, l, wire, n, tr[i]);
      MarksPastStep(c, l, wire, n, tr[i]);
      SinceStep(Strandings(tr, ls, n), Freeings(tr, ls, wire, n), i);
    }
  }

  // ---- names without an archive ----

  /** In this run the name is never injected, and no load of it finds anything or throws
      while it looks. */
  ghost predicate NeverFound(ls: seq<Label>, n: Name) {
    forall i :: 0 <= i < |ls| ==> !Finds(ls[i], n)
  }

  predicate Finds(l: Label, n: Name) {
    || ((l.ArchiveDone? || l.DesignDone? || l.Inject? || l.InjectThrows?) && l.name == n)
    || (l.Fails? && l.key.name == n)
    || (l.GuardExit? && l.key.name == n && !l.stage.Announced?)
  }

  /** Nothing of the name is cached or charged. */
  ghost predicate Absent(c: Cache, n: Name) {
    n !in c.archives && n !in c.designs && n !in c.lru.entries
  }

  lemma AbsentStep(c: Cache, l: Label, wire: Wire, n: Name, t: Cache)
    requires Absent(c, n) && !Finds(l, n) && StepAt(c, l, wire, n, t)
    ensures Absent(t, n) && n !in Victims(c, l, wire)
  {
    assert At(c, n).charge.None?;
    assert At(t, n) == Outcome(c, l, wire, n);
    assert At(t, n).archive.None? && At(t, n).design.None? && At(t, n).charge.None?;
  }

  ghost predicate AnnouncedLoad(c: Cache, k: Key) {
    k in c.loads && c.loads[k].announces
  }

  /** A state entry that no load in flight will ever clean up. */
  ghost predicate Leftover(c: Cache, n: Name) {
    n in c.states && !AnnouncedLoad(c, Key(DesignKind, n)) && !AnnouncedLoad(c, Key(ArchiveKind, n))
  }

  ghost predicate LeavesOver(c: Cache, l: Label, n: Name) {
    l.GuardExit? && l.key.name == n && n in c.states && AnnouncedLoad(c, l.key) && !AnnouncedLoad(c, Other(l.key))
  }

  /** The step removes every state entry, or starts a load that will remove this one. */
  predicate Tidies(l: Label, n: Name) {
    l.Clear? || Announces(l, n)
  }

  lemma EntryStep(c: Cache, l: Label, wire: Wire, n: Name)
    requires Enabled(c, l, wire) && !Finds(l, n)
    ensures Outcome(c, l, wire, n).state.Some? <==>
            !l.Clear? &&
            (Announces(l, n) || (n in c.states && !(l.NotFound? && l.key.name == n && c.loads[l.key].announces)))
  {
  }

  lemma AnnouncedStep(c: Cache, l: Label, wire: Wire, k: Key, t: Cache)
    requires Enabled(c, l, wire) && !Finds(l, k.name) && t.loads == LoadsAfter(c, l)
    ensures AnnouncedLoad(t, k) <==>
            (l.Register? && l.key == k && l.announces) ||
            (AnnouncedLoad(c, k) && !((l.GuardExit? || l.NotFound?) && l.key == k))
  {
  }

  lemma LeftoverStep(c: Cache, l: Label, wire: Wire, n: Name, t: Cache)
    requires Enabled(c, l, wire) && !Finds(l, n) && n !in Victims(c, l, wire)
    requires StepAt(c, l, wire, n, t) && t.loads == LoadsAfter(c, l)
    ensures Leftover(t, n) <==> LeavesOver(c, l, n) || (Leftover(c, n) && !Tidies(l, n))
  {
    StateIsViewed(t, n);
    EntryStep(c, l, wire, n);
    AnnouncedStep(c, l, wire, Key(DesignKind, n), t);
    AnnouncedStep(c, l, wire, Key(ArchiveKind, n), t);
    if (l.Register? || l.GuardExit? || l.NotFound?) && l.key.name == n {
      OfEitherKind(l.key);
    }
  }

  ghost function Leavings(tr: seq<Cache>, ls: seq<Label>, n: Name): seq<bool>
    requires |tr| == |ls| + 1
  {
    seq(|ls|, j requires 0 <= j < |ls| => LeavesOver(tr[j], ls[j], n))
  }

  ghost function Tidyings(ls: seq<Label>, n: Name): seq<bool> {
    seq(|ls|, j requires 0 <= j < |ls| => Tidies(ls[j], n))
  }

  /** A name that maps to no archive is never cached or charged, and has a state entry
      with no announced load in flight exactly if a load of it left through the exit guard
      and neither Clear nor another announcement has come since: so only exceptions in
      the announcement itself can make such names accumulate. */
  lemma {:induction false} MissingNamesLeaveNoState(tr: seq<Cache>, ls: seq<Label>, wire: Wire, n: Name, i: nat)
    requires Run(tr, ls, wire) && NeverFound(ls, n) && i < |tr|
    ensures Absent(tr[i], n)
    ensures Leftover(tr[i], n) <==> Since(Leavings(tr, ls, n), Tidyings(ls, n), i)
  {
    if i > 0 {
      MissingNamesLeaveNoState(tr, ls, wire, n, i - 1);
      var c, l := tr[i-1], ls[i-1];
      assert Leads(tr, ls, wire, i - 1);
      StepSeenAt(c, l, wire, n);
      LoadsStep(c, l, wire);
      AbsentStep(c, l, wire, n, tr[i]);
      LeftoverStep(c, l, wire, n, tr[i]);
      SinceStep(Leavings(tr, ls, n), Tidyings(ls, n), i);
    }
  }

  // ---- what is cached is charged, unless ----

  ghost predicate CachedUncharged(c: Cache, n: Name) {
    (n in c.archives || n in c.designs) && n !in c.lru.entries
  }

  /** A load or an injection of the name inserts its object and leaves before charging it. */
  predicate SkipsCharge(c: Cache, l: Label, n: Name) {
    && n !in c.lru.entries
    && ((l.GuardExit? && l.stage.Inserted? && l.key.name == n) || (l.InjectThrows? && l.name == n))
  }

  /** The step drops the name's objects, or charges it. */
  predicate Settles(c: Cache, l: Label, wire: Wire, n: Name) {
    || Invalidates(c, l, wire, n)
    || (l.ArchiveDone? && l.name == n && Parsed(c, Key(ArchiveKind, n)) && !Stale(c, Key(ArchiveKind, n)))
    || (l.DesignDone? && l.name == n && Parsed(c, Key(DesignKind, n)) && !Stale(c, Key(DesignKind, n)))
    || (l.GuardExit? && l.key.name == n && (l.stage.Charged? || l.stage.Scheduled?))
  }

  predicate ViewUncharged(v: NameView) {
    (v.archive.Some? || v.design.Some?) && v.charge.None?
  }

  lemma LoadUncharged(c: Cache, l: Label, wire: Wire, n: Name)
    requires Enabled(c, l, wire) && (l.ArchiveDone? || l.DesignDone? || l.GuardExit?) && n !in Victims(c, l, wire)
    ensures ViewUncharged(Outcome(c, l, wire, n)) <==>
            SkipsCharge(c, l, n) || (ViewUncharged(At(c, n)) && !Settles(c, l, wire, n))
  {
  }

  lemma OtherUncharged(c: Cache, l: Label, wire: Wire, n: Name)
    requires Enabled(c, l, wire) && !l.ArchiveDone? && !l.DesignDone? && !l.GuardExit? && n !in Victims(c, l, wire)
    ensures ViewUncharged(Outcome(c, l, wire, n)) <==>
            SkipsCharge(c, l, n) || (ViewUncharged(At(c, n)) && !Settles(c, l, wire, n))
  {
  }

  lemma UnchargedStep(c: Cache, l: Label, wire: Wire, n: Name, t: Cache)
    requires Enabled(c, l, wire) && StepAt(c, l, wire, n, t)
    ensures CachedUncharged(t, n) <==> SkipsCharge(c, l, n) || (CachedUncharged(c, n) && !Settles(c, l, wire, n))
  {
    assert CachedUncharged(c, n) == ViewUncharged(At(c, n)) && CachedUncharged(t, n) == ViewUncharged(At(t, n));
    if n !in Victims(c, l, wire) {
      if l.ArchiveDone? || l.DesignDone? || l.GuardExit? {
        LoadUncharged(c, l, wire, n);
      } else {
        OtherUncharged(c, l, wire, n);
      }
    }
  }

  ghost function Skippings(tr: seq<Cache>, ls: seq<Label>, n: Name): seq<bool>
    requires |tr| == |ls| + 1
  {
    seq(|ls|, j requires 0 <= j < |ls| => SkipsCharge(tr[j], ls[j], n))
  }

  ghost function Settlings(tr: seq<Cache>, ls: seq<Label>, wire: Wire, n: Name): seq<bool>
    requires |tr| == |ls| + 1
  {
    seq(|ls|, j requires 0 <= j < |ls| => Settles(tr[j], ls[j], wire, n))
  }

  /** Whatever is cached has an LRU entry, exactly unless an exception came between the
      insertion and the charge of an uncharged name, and the name has neither been
      charged nor dropped since. */
  lemma {:induction false} CachedIsChargedUnlessSkipped(tr: seq<Cache>, ls: seq<Label>, wire: Wire, n: Name, i: nat)
    requires Run(tr, ls, wire) && i < |tr|
    ensures (n in tr[i].archives || n in tr[i].designs ==> n in tr[i].lru.entries) <==>
            !Since(Skippings(tr, ls, n), Settlings(tr, ls, wire, n), i)
  {
    if i > 0 {
      CachedIsChargedUnlessSkipped(tr, ls, wire, n, i - 1);
      assert Leads(tr, ls, wire, i - 1);
      StepSeenAt(tr[i-1], ls[i-1], wire, n);
      UnchargedStep(tr[i-1], ls[i-1], wire, n, tr[i]);
      SinceStep(Skippings(tr, ls, n), Settlings(tr, ls, wire, n), i);
    }
  }

  /** The shortest such run: an archive load registers, parses, inserts, and cannot
      estimate its charge. Its name stays Loading with no load in flight, and its archive
      stays cached outside the byte budget. */
  lemma GuardExitLeavesTheNameStuck(wire: Wire, n: Name, id: nat) returns (tr: seq<Cache>, ls: seq<Label>)
    ensures Run(tr, ls, wire) && |ls| == 2
    ensures Stuck(tr[2], n) && tr[2].loads == map[] && n in tr[2].archives && CachedUncharged(tr[2], n)
  {
    var c0 := Cache(map[], map[], S.EMPTY, L.Ledger(map[], 0, 0), map[], 0, map[], map[], []);
    var k := Key(ArchiveKind, n);
    tr, ls := [c0], [];
    tr, ls := Extend(tr, ls, wire, Register(k, true));
    var c1 := tr[1];
    assert c1.loads == map[k := Load(true, Stamp(0, 0), None)] && c1.states == map[n := Loading];
    tr, ls := Extend(tr, ls, wire, GuardExit(k, Inserted, id, 0, Charging(0, 0, [])));
    assert tr[2] == RemoveLoad(InsertArchive(c1, n, id), k);
  }

  // ---- recorded transitions form a walk ----

  /** Where the recorded events leave the name. */
  function Last(es: seq<Event>, n: Name): LoadState {
    if es == [] then Unloaded
    else if es[|es|-1].name == n then es[|es|-1].to
    else Last(es[..|es|-1], n)
  }

  /** Each event of the name starts where the previous one ended, and really moves. */
  ghost predicate Walk(es: seq<Event>, n: Name) {
    es == [] ||
    var e, front := es[|es|-1], es[..|es|-1];
    Walk(front, n) && (e.name == n ==> e.from == Last(front, n) && e.from != e.to)
  }

  ghost predicate WalkOk(c: Cache, n: Name) {
    Walk(c.events, n) && Last(c.events, n) == StateOf(c, n)
  }

  lemma Appended(es: seq<Event>, e: Event, n: Name)
    requires Walk(es, n) && (e.name == n ==> e.from == Last(es, n) && e.from != e.to)
    ensures Walk(es + [e], n) && Last(es + [e], n) == if e.name == n then e.to else Last(es, n)
  {
    assert (es + [e])[..|es|] == es;
  }

  lemma WalkTransition(c: Cache, m: Name, to: LoadState, n: Name)
    requires WalkOk(c, n)
    ensures WalkOk(Transition(c, m, to), n)
  {
    if StateOf(c, m) != to {
      Appended(c.events, Event(m, StateOf(c, m), to), n);
    }
  }

  lemma WalkErase(c: Cache, m: Name, n: Name)
    requires WalkOk(c, n)
    ensures WalkOk(EraseState(c, m), n)
  {
    if StateOf(c, m) != Unloaded {
      Appended(c.events, Event(m, StateOf(c, m), Unloaded), n);
    }
  }

  lemma {:induction false} WalkEvictNames(c: Cache, vs: seq<Name>, n: Name)
    requires WalkOk(c, n)
    ensures WalkOk(EvictNames(c, vs), n)
    decreases |vs|
  {
    if vs != [] {
      WalkTransition(Emptied(c, vs[0]), vs[0], Unloaded, n);
      WalkEvictNames(EvictOne(c, vs[0]), vs[1..], n);
    }
  }

  lemma WalkEvict(c: Cache, vs: seq<Name>, n: Name)
    requires WalkOk(c, n)
    ensures WalkOk(Evict(c, vs), n)
  {
    WalkEvictNames(c.(lru := L.RemoveAll(c.lru, vs)), vs, n);
  }

  lemma WalkCharge(c: Cache, k: Key, id: nat, ch: Charging, n: Name)
    requires WalkOk(c, n) && Parsed(c, k)
    ensures WalkOk(InsertAndCharge(c, k, id, ch), n)
  {
    WalkEvict(ChargeName(Insert(c, k, id), k.name, ch.base, ch.now), ch.victims, n);
  }

  lemma WalkArchive(c: Cache, m: Name, id: nat, ch: Charging, n: Name)
    requires WalkOk(c, n) && Key(ArchiveKind, m) in c.loads
    ensures WalkOk(ArchiveInserted(c, m, id, ch), n)
  {
    var k := Key(ArchiveKind, m);
    WalkCharge(c, k, id, ch, n);
    WalkTransition(InsertAndCharge(c, k, id, ch), m, Loaded, n);
  }

  lemma WalkDesign(c: Cache, m: Name, id: nat, commit: nat, ch: Charging, n: Name)
    requires WalkOk(c, n) && Key(DesignKind, m) in c.loads && c.loads[Key(DesignKind, m)].got.Some?
    ensures WalkOk(DesignInserted(c, m, id, commit, ch), n)
  {
    var k := Key(DesignKind, m);
    WalkCharge(c, k, id, ch, n);
    WalkTransition(ScheduleCommit(c, InsertAndCharge(c, k, id, ch), m, id, commit), m, Loaded, n);
  }

  lemma WalkGuard(c: Cache, l: Label, wire: Wire, n: Name)
    requires WalkOk(c, n) && Enabled(c, l, wire) && l.GuardExit?
    ensures WalkOk(Apply(c, l, wire), n)
  {
    if !l.stage.Announced? {
      WalkCharge(c, l.key, l.id, l.charging, n);
    }
  }

  lemma WalkCompletion(c: Cache, l: Label, wire: Wire, n: Name)
    requires WalkOk(c, n) && Enabled(c, l, wire) && (l.ArchiveDone? || l.DesignDone?)
    ensures WalkOk(Apply(c, l, wire), n)
  {
    if l.ArchiveDone? {
      WalkArchive(c, l.name, l.id, l.charging, n);
    } else {
      WalkDesign(c, l.name, l.id, l.commit, l.charging, n);
    }
  }

  lemma WalkStep(c: Cache, l: Label, wire: Wire, n: Name)
    requires WalkOk(c, n) && Enabled(c, l, wire) && !l.Clear?
    ensures WalkOk(Apply(c, l, wire), n)
  {
    match l
    case ArchiveDone(_, _, _, _) => WalkCompletion(c, l, wire, n);
    case DesignDone(_, _, _, _) => WalkCompletion(c, l, wire, n);
    case Register(k, announces) =>
      WalkTransition(c.(loads := c.loads[k := Load(announces, StampOf(c, k.name), None)]), k.name, Loading, n);
    case NotFound(k) => WalkErase(c, k.name, n);
    case Fails(k) => WalkTransition(c, k.name, Failed, n);
    case GuardExit(_, _, _, _, _) => WalkGuard(c, l, wire, n);
    case Inject(m, id, ch) =>
      var d := ChargeName(InjectArchive(c, m, id), m, ch.base, ch.now);
      WalkEvict(d, ch.victims, n);
      WalkTransition(Evict(d, ch.victims), m, Loaded, n);
    case Invalidate(m) => WalkTransition(DropName(c, m), m, Unloaded, n);
    case SetMax(m, vs) => WalkEvict(c.(lru := c.lru.(maxBytes := m)), vs, n);
    case CommitPayload(id, vs) => WalkEvict(StorePayload(c, c.commits[id], wire), vs, n);
    case _ =>
  }

  /** In a run without Clear, each name's recorded transitions form a connected walk from
      Unloaded that ends in its current state. */
  lemma {:induction false} TransitionsFormAWalk(tr: seq<Cache>, ls: seq<Label>, wire: Wire, n: Name, i: nat)
    requires Run(tr, ls, wire) && i < |tr| && forall j :: 0 <= j < |ls| ==> !ls[j].Clear?
    ensures Walk(tr[i].events, n) && Last(tr[i].events, n) == StateOf(tr[i], n)
  {
    if i > 0 {
      TransitionsFormAWalk(tr, ls, wire, n, i - 1);
      assert Leads(tr, ls, wire, i - 1);
      WalkStep(tr[i-1], ls[i-1], wire, n);
    }
  }
}
