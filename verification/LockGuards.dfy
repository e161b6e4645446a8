/** The tables that several threads share are each guarded by one mutex: whatever a step writes
    to a table, or learns from it, it does in a script that takes the table's mutex. What a step
    writes and learns is read off its effect on the state, not off the script. */
module LockGuards {
  import opened Basics
  import opened CacheKeys
  import opened LockScripts
  import F = SingleFlight
  import B = BackgroundSlots

  predicate Takes(ops: seq<LockOp>, m: Mutex) {
    Acquire(m) in ops
  }

  lemma SoloTakes(m: Mutex)
    ensures Takes(Solo(m), m)
  {
    assert Solo(m)[0] == Acquire(m);
  }

  lemma SolosTake(m: Mutex, n: nat)
    requires n > 0
    ensures Takes(Solos(m, n), m)
  {
    SoloTakes(m);
    assert Solos(m, n) == Solo(m) + Solos(m, n - 1);
  }

  // ---- loads ----

  predicate MayStep(s: F.State, c: F.CallId, x: F.Choice) {
    c in s.calls && F.CanStep(s, c, x)
  }

  /** A step of a load writes the caches only under the cache mutex and the in-flight map only
      under the load-state mutex. */
  lemma LoadWritesAreGuarded(s: F.State, c: F.CallId, x: F.Choice, p: Path)
    requires MayStep(s, c, x)
    ensures var t, script := F.Advance(s, c, x), CallScript(s.calls[c].pc, p);
            && (t.cache != s.cache ==> Takes(script, CacheMutex))
            && (t.inFlight != s.inFlight ==> Takes(script, StateMutex))
            && t.gens == s.gens && t.epoch == s.epoch
  {
    if x == F.Go {
      if F.IsLoader(s.calls[c].pc) {
        F.WhereLoadersWrite(s, c);
      } else {
        F.WhereCallersWrite(s, c);
      }
    }
    SoloTakes(CacheMutex);
    SoloTakes(StateMutex);
  }

  lemma SameMove(s: F.State, t: F.State, c: F.CallId, pc: F.Pc)
    requires c in s.calls && t.calls == s.calls
    ensures F.Goto(s, c, pc).calls == F.Goto(t, c, pc).calls
  {
  }

  lemma PlainStepReads(pc: F.Pc, gen: nat, epoch: nat, gen': nat, epoch': nat)
    requires pc.Compare? ==> gen == gen'
    requires pc.Decide? ==> epoch == epoch'
    ensures F.NextPc(pc, gen, epoch) == F.NextPc(pc, gen', epoch')
  {
  }

  predicate Plain(pc: F.Pc) {
    F.IsLoader(pc) && !pc.AwaitArchive? && !pc.Insert? && !pc.Settle? && !pc.Erase?
  }

  lemma PlainStep(s: F.State, c: F.CallId)
    requires MayStep(s, c, F.Go) && Plain(s.calls[c].pc)
    ensures F.Work(s, c) == F.Goto(s, c, F.NextPc(s.calls[c].pc, F.Gen(s, s.calls[c].key.name), s.epoch))
  {
  }

  lemma InsertReads(s: F.State, t: F.State, c: F.CallId)
    requires MayStep(s, c, F.Go) && t.calls == s.calls && s.calls[c].pc.Insert? && s.cache == t.cache
    ensures F.Work(s, c).calls == F.Work(t, c).calls
  {
    var key, v := s.calls[c].key, s.calls[c].pc.parsed;
    SameMove(s, t, c, F.Charge(if key in s.cache then s.cache[key] else v));
  }

  lemma LastStepsRead(s: F.State, t: F.State, c: F.CallId)
    requires MayStep(s, c, F.Go) && t.calls == s.calls && t.promises == s.promises
    requires s.calls[c].pc.AwaitArchive? || s.calls[c].pc.Settle? || s.calls[c].pc.Erase?
    ensures F.Work(s, c).calls == F.Work(t, c).calls
  {
  }

  lemma LoadersReadNothingElse(s: F.State, t: F.State, c: F.CallId)
    requires MayStep(s, c, F.Go) && t.calls == s.calls && t.promises == s.promises && F.IsLoader(s.calls[c].pc)
    requires s.calls[c].pc.Insert? ==> s.cache == t.cache
    requires s.calls[c].pc.Compare? ==> s.gens == t.gens
    requires s.calls[c].pc.Decide? ==> s.epoch == t.epoch
    ensures F.Work(s, c).calls == F.Work(t, c).calls
  {
    var n, pc := s.calls[c].key.name, s.calls[c].pc;
    if Plain(pc) {
      PlainStep(s, c);
      PlainStep(t, c);
      PlainStepReads(pc, F.Gen(s, n), s.epoch, F.Gen(t, n), t.epoch);
      SameMove(s, t, c, F.NextPc(pc, F.Gen(s, n), s.epoch));
    } else if pc.Insert? {
      InsertReads(s, t, c);
    } else {
      LastStepsRead(s, t, c);
    }
  }

  lemma CallersReadNothingElse(s: F.State, t: F.State, c: F.CallId)
    requires MayStep(s, c, F.Go) && t.calls == s.calls && t.promises == s.promises && !F.IsLoader(s.calls[c].pc)
    requires s.calls[c].pc.Lookup? ==> s.cache == t.cache
    requires s.calls[c].pc.Capture? ==> s.gens == t.gens
    requires s.calls[c].pc.Enroll? ==> s.epoch == t.epoch && s.inFlight == t.inFlight
    ensures F.Ask(s, c).calls == F.Ask(t, c).calls
  {
    if s.calls[c].pc.Enroll? {
      assert F.Ask(s, c).calls == F.Ask(t, c).calls;
    } else if s.calls[c].pc.Capture? {
      SameMove(s, t, c, F.Enroll(F.Gen(s, s.calls[c].key.name)));
    }
  }

  predicate Matters(pc: F.Pc, s: F.State, t: F.State) {
    || ((pc.Lookup? || pc.Insert?) && s.cache != t.cache)
    || ((pc.Capture? || pc.Compare?) && s.gens != t.gens)
    || ((pc.Decide? || pc.Enroll?) && s.epoch != t.epoch)
    || (pc.Enroll? && s.inFlight != t.inFlight)
  }

  lemma GoReads(s: F.State, t: F.State, c: F.CallId)
    requires MayStep(s, c, F.Go) && t.calls == s.calls && t.promises == s.promises
    requires F.Advance(s, c, F.Go).calls != F.Advance(t, c, F.Go).calls
    ensures Matters(s.calls[c].pc, s, t)
  {
    if !Matters(s.calls[c].pc, s, t) {
      if F.IsLoader(s.calls[c].pc) {
        LoadersReadNothingElse(s, t, c);
      } else {
        CallersReadNothingElse(s, t, c);
      }
    }
  }

  lemma OthersReadNothing(s: F.State, t: F.State, c: F.CallId, x: F.Choice)
    requires MayStep(s, c, x) && t.calls == s.calls && t.promises == s.promises && x != F.Go
    ensures F.Advance(s, c, x).calls == F.Advance(t, c, x).calls
  {
  }

  /** If it matters to a step of a load what a table holds, the step takes the table's mutex. */
  lemma LoadReadsAreGuarded(s: F.State, t: F.State, c: F.CallId, x: F.Choice, p: Path)
    requires MayStep(s, c, x) && t.calls == s.calls && t.promises == s.promises
    requires F.Advance(s, c, x).calls != F.Advance(t, c, x).calls
    ensures var script := CallScript(s.calls[c].pc, p);
            || (s.cache != t.cache && Takes(script, CacheMutex))
            || (s.gens != t.gens && Takes(script, StoreMutex))
            || ((s.epoch != t.epoch || s.inFlight != t.inFlight) && Takes(script, StateMutex))
  {
    if x == F.Go {
      GoReads(s, t, c);
    } else {
      OthersReadNothing(s, t, c, x);
    }
    SoloTakes(CacheMutex);
    SoloTakes(StoreMutex);
    SoloTakes(StateMutex);
  }

  // ---- the background semaphore ----

  /** A step of a worker writes the counters only under the background mutex, and the pending
      names only under the load-state mutex; it never writes the cap. The clean-up after a
      failed spawn is the section of the Counted step that runs at all only then. */
  lemma WorkerWritesAreGuarded(s: B.State, l: B.Label, i: B.Id, p: Path)
    requires B.Enabled(s, l) && WorkerStep(l) == Some(i) && i in s.workers && (l.SpawnFails? ==> p.repeats > 0)
    ensures var t, script := B.Apply(s, l), WorkerScript(s.workers[i], p);
            && t.cap == s.cap
            && (t.active != s.active || t.outstanding != s.outstanding ==> Takes(script, BackgroundMutex))
            && (t.pending != s.pending ==> Takes(script, StateMutex))
  {
    SoloTakes(BackgroundMutex);
    SoloTakes(StateMutex);
    if p.repeats > 0 {
      SolosTake(BackgroundMutex, p.repeats);
    }
    assert forall m :: Takes(CommitScript(p) + Solo(m), m) by {
      forall m
        ensures Takes(CommitScript(p) + Solo(m), m)
      {
        SoloTakes(m);
      }
    }
  }

  /** The worker whose own step it is. */
  function WorkerStep(l: B.Label): (i: Option<B.Id>) {
    match l
    case Count(i) => Some(i)
    case Spawn(i) => Some(i)
    case SpawnFails(i) => Some(i)
    case TrySlot(i) => Some(i)
    case Release(i) => Some(i)
    case NotifyOne(i, _) => Some(i)
    case NotifyNobody(i) => Some(i)
    case Unmark(i) => Some(i)
    case Leave(i) => Some(i)
    case Signal(i) => Some(i)
    case _ => None
  }

  /** A worker that looks for a slot, or a destructor that looks for the last worker, and would
      decide otherwise with other counters, looks under the background mutex. */
  lemma CountersAreReadUnderTheirMutex(s: B.State, t: B.State, l: B.Label, p: Path)
    requires B.Enabled(s, l) && B.Enabled(t, l)
    requires t == s.(cap := t.cap, active := t.active, outstanding := t.outstanding)
    requires B.Apply(s, l).workers != B.Apply(t, l).workers || B.Apply(s, l).drain != B.Apply(t, l).drain
    ensures match l
            case TrySlot(j) => Takes(WorkerScript(s.workers[j], p), BackgroundMutex)
            case DrainCheck => Takes(DrainScript(), BackgroundMutex)
            case _ => false
  {
    SoloTakes(BackgroundMutex);
  }

  /** Client operations write the cap under the background mutex and mark names as pending
      under the load-state mutex. */
  lemma ClientWritesAreGuarded(s: B.State, k: B.Id, n: Name, cap: nat, p: Path)
    ensures Takes(ClientScript(SetMaxLoads(cap), p), BackgroundMutex) && B.Apply(s, B.SetMax(cap)).cap == cap
    ensures B.Enabled(s, B.Kick(k, n)) ==>
              n in B.Apply(s, B.Kick(k, n)).pending && Takes(ClientScript(KickLoad(k, n), p), StateMutex)
  {
    SoloTakes(BackgroundMutex);
    SoloTakes(StateMutex);
  }
}
