/** What every run of the single-flight protocol guarantees. */
module SingleFlightResults {
  import opened Basics
  import opened CacheKeys
  import opened SingleFlight

  // ---- one load at a time, one fulfilment per promise ----

  ghost predicate LoaderOf(s: State, c: CallId, k: Key) {
    CallFor(s, c, k) && IsLoader(s.calls[c].pc)
  }

  /** In every reachable state a key is in flight exactly when a call lies between
      registering it and erasing it, and then that call is the only one. */
  lemma OneLoaderPerFlight(tr: seq<State>, ls: seq<Label>, i: nat, k: Key)
    requires Run(tr, ls) && i < |tr|
    ensures k in tr[i].inFlight <==> exists c :: LoaderOf(tr[i], c, k)
    ensures forall c :: LoaderOf(tr[i], c, k) ==> k in tr[i].inFlight && tr[i].inFlight[k] == c
  {
    InvAlways(tr, ls, i);
    var s := tr[i];
    if k in s.inFlight {
      assert FlightOk(s, k);
      assert LoaderOf(s, s.inFlight[k], k);
    }
    forall c | LoaderOf(s, c, k)
      ensures k in s.inFlight && s.inFlight[k] == c
    {
      assert CallOk(s, c);
    }
  }

  lemma {:induction false} ExtendsAlways(tr: seq<State>, ls: seq<Label>, i: nat, j: nat)
    requires Run(tr, ls) && i <= j < |tr|
    ensures Extends(tr[i], tr[j])
    decreases j
  {
    if i < j {
      ExtendsAlways(tr, ls, i, j - 1);
      InvAlways(tr, ls, j - 1);
      assert Leads(tr, ls, j - 1);
      ApplyKeepsInv(tr[j-1], ls[j-1]);
    }
  }

  /** Step i of the run sets the promise of call c. */
  ghost predicate Sets(tr: seq<State>, ls: seq<Label>, i: nat, c: CallId) {
    i < |ls| && i < |tr| && ls[i] == Step(c, Go) && c in tr[i].calls && tr[i].calls[c].pc.Settle?
  }

  /** No promise is set twice: the second set_value or set_exception, which would
      throw, does not exist in any run. */
  lemma PromiseSetAtMostOnce(tr: seq<State>, ls: seq<Label>, i: nat, j: nat, c: CallId)
    requires Run(tr, ls) && Sets(tr, ls, i, c) && Sets(tr, ls, j, c)
    ensures i == j
  {
    if i < j {
      SetOnceBefore(tr, ls, i, j, c);
    } else if j < i {
      SetOnceBefore(tr, ls, j, i, c);
    }
  }

  lemma SetOnceBefore(tr: seq<State>, ls: seq<Label>, i: nat, j: nat, c: CallId)
    requires Run(tr, ls) && i < j && Sets(tr, ls, i, c)
    ensures !Sets(tr, ls, j, c)
  {
    if Sets(tr, ls, j, c) {
      assert Leads(tr, ls, i);
      assert SlotOf(tr[i+1], c).Some? && SlotOf(tr[i+1], c).value.Satisfied?;
      ExtendsAlways(tr, ls, i + 1, j);
      InvAlways(tr, ls, j);
      FulfilKeepsInv(tr[j], c, tr[j].calls[c].pc.out, tr[j].calls[c].pc.exit);
    }
  }

  /** A call that waits on a future waits on a live loader of its own key or on a
      satisfied promise: no caller ever joins a dead future. */
  lemma NoDeadFuture(tr: seq<State>, ls: seq<Label>, i: nat, c: CallId)
    requires Run(tr, ls) && i < |tr| && c in tr[i].calls && tr[i].calls[c].pc.Join?
    ensures var s := tr[i]; var l := s.calls[c].pc.loader; var k := s.calls[c].key;
      && l in s.promises
      && (s.promises[l].Pending? ==>
            LoaderOf(s, l, k) && k in s.inFlight && s.inFlight[k] == l && StageOf(s.calls[l].pc).Open?)
  {
    var s := tr[i];
    InvAlways(tr, ls, i);
    assert CallOk(s, c) && CallOk(s, s.calls[c].pc.loader);
  }

  /** Every joiner leaves with the outcome of the loader it joined, and every loader
      that left has satisfied its promise with the outcome it returned itself. */
  lemma JoinersGetTheLoadersOutcome(tr: seq<State>, ls: seq<Label>, i: nat, c: CallId)
    requires Run(tr, ls) && i < |tr| && c in tr[i].calls && tr[i].calls[c].pc.Returned?
    ensures var s := tr[i]; var pc := s.calls[c].pc;
      && (pc.via == Ran ==> c in s.promises && s.promises[c] == Satisfied(pc.out))
      && (pc.via.Joined? ==>
            var l := pc.via.loader;
            && CallFor(s, l, s.calls[c].key)
            && l in s.promises && s.promises[l] == Satisfied(pc.out)
            && (s.calls[l].pc.Returned? ==> s.calls[l].pc == Returned(pc.out, Ran)))
  {
    var s := tr[i];
    InvAlways(tr, ls, i);
    assert CallOk(s, c);
    if s.calls[c].pc.via.Joined? {
      assert CallOk(s, s.calls[c].pc.via.loader);
    }
  }

  // ---- agreement ----

  function CachedAt(s: State, k: Key): Option<Obj> {
    if k in s.cache then Some(s.cache[k]) else None
  }

  /** The run never evicts, invalidates, injects or clears the key. Other names may
      be interfered with freely. */
  ghost predicate QuietFor(tr: seq<State>, ls: seq<Label>, k: Key)
    requires |tr| == |ls| + 1
  {
    forall i {:trigger ls[i]} :: 0 <= i < |ls| && ls[i].Interfere? ==> Undisturbed(tr[i], tr[i+1], k)
  }

  ghost predicate Undisturbed(s: State, t: State, k: Key) {
    CachedAt(s, k) == CachedAt(t, k) && Gen(s, k.name) == Gen(t, k.name) && s.epoch == t.epoch
  }

  /** The object a call for the key has committed to, if any. */
  function Committed(pc: Pc): Option<Obj> {
    match pc
    case Serve(v) => Some(v)
    case Charge(v) => Some(v)
    case Schedule(v) => Some(v)
    case RecordLoaded(v) => Some(v)
    case Settle(o, _) => OfOutcome(o)
    case Bookkeep(o) => OfOutcome(o)
    case Erase(o) => OfOutcome(o)
    case TouchJoined(_, o) => OfOutcome(o)
    case Returned(o, _) => OfOutcome(o)
    case _ => None
  }

  function OfOutcome(o: Outcome): Option<Obj> {
    if o.Value? then Some(o.obj) else None
  }

  /** With nothing disturbing the key, a loader's captured mark stays current. */
  ghost predicate MarkOk(pc: Pc, gen: nat, epoch: nat) {
    match pc
    case Enroll(g) => g == gen
    case Announce(m) => m == Mark(gen, epoch)
    case Parse(m) => m == Mark(gen, epoch)
    case AwaitArchive(m, _) => m == Mark(gen, epoch)
    case Assemble(m, _) => m == Mark(gen, epoch)
    case Compare(m, _) => m == Mark(gen, epoch)
    case Decide(m, _, bumped) => m == Mark(gen, epoch) && !bumped
    case _ => true
  }

  ghost predicate AgreeOk(s: State, k: Key, pc: Pc) {
    && MarkOk(pc, Gen(s, k.name), s.epoch)
    && (Committed(pc).Some? ==> CachedAt(s, k) == Committed(pc))
  }

  ghost predicate Agree(s: State, k: Key) {
    forall c {:trigger s.calls[c]} :: c in s.calls && s.calls[c].key == k ==> AgreeOk(s, k, s.calls[c].pc)
  }

  /** What a step of call c may do to the other calls' view of key k. */
  ghost predicate Frame(s: State, t: State, c: CallId, k: Key)
    requires c in s.calls
  {
    && t.gens == s.gens && t.epoch == s.epoch
    && (CachedAt(s, k).Some? ==> CachedAt(t, k) == CachedAt(s, k))
    && (forall d :: d in s.calls && d != c ==> d in t.calls && t.calls[d] == s.calls[d])
    && (forall d :: d in t.calls && d !in s.calls ==> t.calls[d].pc == Lookup)
    && c in t.calls && t.calls[c].key == s.calls[c].key
  }

  lemma AskFrame(s: State, c: CallId, k: Key)
    requires c in s.calls && CanStep(s, c, Go) && !IsLoader(s.calls[c].pc)
    ensures Frame(s, Ask(s, c), c, k)
  {
  }

  lemma InsertFrame(s: State, c: CallId, k: Key)
    requires c in s.calls && s.calls[c].pc.Insert?
    ensures Frame(s, Work(s, c), c, k)
  {
  }

  lemma WorkFrame(s: State, c: CallId, k: Key)
    requires c in s.calls && CanStep(s, c, Go) && IsLoader(s.calls[c].pc)
    ensures Frame(s, Work(s, c), c, k)
  {
    if s.calls[c].pc.Insert? {
      InsertFrame(s, c, k);
    } else {
      assert Work(s, c).cache == s.cache;
    }
  }

  lemma StepFrame(s: State, c: CallId, x: Choice, k: Key)
    requires c in s.calls && CanStep(s, c, x)
    ensures Frame(s, Advance(s, c, x), c, k)
  {
    if x.Go? {
      if IsLoader(s.calls[c].pc) {
        WorkFrame(s, c, k);
      } else {
        AskFrame(s, c, k);
      }
    }
  }

  lemma JoinAgrees(s: State, c: CallId, k: Key)
    requires Inv(s) && Agree(s, k) && c in s.calls && s.calls[c].key == k && CanStep(s, c, Go) && s.calls[c].pc.Join?
    ensures var t := Ask(s, c); c in t.calls && AgreeOk(t, k, t.calls[c].pc)
  {
    assert CallOk(s, c);
    assert CallOk(s, s.calls[c].pc.loader);
  }

  lemma LookupAgrees(s: State, c: CallId, k: Key)
    requires c in s.calls && s.calls[c].key == k && (s.calls[c].pc.Lookup? || s.calls[c].pc.Capture?)
    ensures var t := Ask(s, c); c in t.calls && AgreeOk(t, k, t.calls[c].pc)
  {
  }

  lemma EnrollAgrees(s: State, c: CallId, k: Key)
    requires c in s.calls && s.calls[c].key == k && s.calls[c].pc.Enroll? && AgreeOk(s, k, s.calls[c].pc)
    ensures var t := Ask(s, c); c in t.calls && AgreeOk(t, k, t.calls[c].pc)
  {
  }

  lemma HandBackAgrees(s: State, c: CallId, k: Key)
    requires c in s.calls && s.calls[c].key == k && (s.calls[c].pc.Serve? || s.calls[c].pc.TouchJoined?)
    requires AgreeOk(s, k, s.calls[c].pc)
    ensures var t := Ask(s, c); c in t.calls && AgreeOk(t, k, t.calls[c].pc)
  {
  }

  lemma AskAgrees(s: State, c: CallId, k: Key)
    requires Inv(s) && Agree(s, k) && c in s.calls && s.calls[c].key == k
    requires CanStep(s, c, Go) && !IsLoader(s.calls[c].pc)
    ensures var t := Ask(s, c); c in t.calls && AgreeOk(t, k, t.calls[c].pc)
  {
    var pc := s.calls[c].pc;
    assert AgreeOk(s, k, pc);
    if pc.Join? {
      JoinAgrees(s, c, k);
    } else if pc.Enroll? {
      EnrollAgrees(s, c, k);
    } else if pc.Serve? || pc.TouchJoined? {
      HandBackAgrees(s, c, k);
    } else {
      LookupAgrees(s, c, k);
    }
  }

  lemma NextPcAgrees(pc: Pc, gen: nat, epoch: nat)
    requires MarkOk(pc, gen, epoch)
    ensures var q := NextPc(pc, gen, epoch); MarkOk(q, gen, epoch) && Committed(q) == Committed(pc)
  {
  }

  lemma InsertAgrees(s: State, c: CallId, k: Key)
    requires c in s.calls && s.calls[c].key == k && s.calls[c].pc.Insert?
    ensures var t := Work(s, c); c in t.calls && AgreeOk(t, k, t.calls[c].pc)
  {
    var kept := if k in s.cache then s.cache[k] else s.calls[c].pc.parsed;
    assert Work(s, c) == Goto(s, c, Charge(kept)).(cache := s.cache[k := kept]);
  }

  lemma PublishAgrees(s: State, c: CallId, k: Key)
    requires c in s.calls && s.calls[c].key == k && (s.calls[c].pc.Settle? || s.calls[c].pc.Erase?)
    requires AgreeOk(s, k, s.calls[c].pc)
    ensures var t := Work(s, c); c in t.calls && AgreeOk(t, k, t.calls[c].pc)
  {
  }

  lemma AwaitAgrees(s: State, c: CallId, k: Key)
    requires c in s.calls && s.calls[c].key == k && s.calls[c].pc.AwaitArchive? && CanStep(s, c, Go)
    requires AgreeOk(s, k, s.calls[c].pc)
    ensures var t := Work(s, c); c in t.calls && AgreeOk(t, k, t.calls[c].pc)
  {
  }

  predicate Private(pc: Pc) {
    IsLoader(pc) && !pc.Settle? && !pc.Erase? && !pc.Insert? && !pc.AwaitArchive?
  }

  lemma PrivateWorkAgrees(s: State, c: CallId, k: Key)
    requires c in s.calls && s.calls[c].key == k && CanStep(s, c, Go) && Private(s.calls[c].pc)
    requires AgreeOk(s, k, s.calls[c].pc)
    ensures var t := Work(s, c); c in t.calls && AgreeOk(t, k, t.calls[c].pc)
  {
    var pc := s.calls[c].pc;
    var t := Work(s, c);
    NextPcAgrees(pc, Gen(s, k.name), s.epoch);
    assert t == Goto(s, c, NextPc(pc, Gen(s, k.name), s.epoch));
  }

  lemma WorkAgrees(s: State, c: CallId, k: Key)
    requires c in s.calls && s.calls[c].key == k && CanStep(s, c, Go) && IsLoader(s.calls[c].pc)
    requires AgreeOk(s, k, s.calls[c].pc)
    ensures var t := Work(s, c); c in t.calls && AgreeOk(t, k, t.calls[c].pc)
  {
    var pc := s.calls[c].pc;
    if pc.Insert? {
      InsertAgrees(s, c, k);
    } else if pc.AwaitArchive? {
      AwaitAgrees(s, c, k);
    } else if pc.Settle? || pc.Erase? {
      PublishAgrees(s, c, k);
    } else {
      PrivateWorkAgrees(s, c, k);
    }
  }

  lemma OwnStepAgrees(s: State, c: CallId, x: Choice, k: Key)
    requires Inv(s) && Agree(s, k) && c in s.calls && CanStep(s, c, x) && s.calls[c].key == k
    ensures var t := Advance(s, c, x); c in t.calls && AgreeOk(t, k, t.calls[c].pc)
  {
    assert AgreeOk(s, k, s.calls[c].pc);
    if x.Go? {
      if IsLoader(s.calls[c].pc) {
        WorkAgrees(s, c, k);
      } else {
        AskAgrees(s, c, k);
      }
    }
  }

  lemma OthersAgree(s: State, t: State, c: CallId, k: Key)
    requires Agree(s, k) && c in s.calls && Frame(s, t, c, k)
    requires s.calls[c].key == k ==> AgreeOk(t, k, t.calls[c].pc)
    ensures Agree(t, k)
  {
    forall d | d in t.calls && t.calls[d].key == k
      ensures AgreeOk(t, k, t.calls[d].pc)
    {
      if d != c && d in s.calls {
        assert AgreeOk(s, k, s.calls[d].pc);
      }
    }
  }

  lemma StepAgrees(s: State, c: CallId, x: Choice, k: Key)
    requires Inv(s) && Agree(s, k) && c in s.calls && CanStep(s, c, x)
    ensures Agree(Advance(s, c, x), k)
  {
    StepFrame(s, c, x, k);
    if s.calls[c].key == k {
      OwnStepAgrees(s, c, x, k);
    }
    OthersAgree(s, Advance(s, c, x), c, k);
  }

  lemma {:induction false} AgreeAlways(tr: seq<State>, ls: seq<Label>, k: Key, i: nat)
    requires Run(tr, ls) && QuietFor(tr, ls, k) && i < |tr|
    ensures Agree(tr[i], k)
  {
    if i > 0 {
      AgreeAlways(tr, ls, k, i - 1);
      InvAlways(tr, ls, i - 1);
      var s, t := tr[i-1], tr[i];
      assert Leads(tr, ls, i - 1);
      match ls[i-1]
      case Step(c, x) => StepAgrees(s, c, x, k);
      case Start(_, _) =>
        assert forall d :: d in s.calls && s.calls[d].key == k ==> AgreeOk(s, k, s.calls[d].pc);
      case Interfere(_, _, _) =>
        assert Undisturbed(s, t, k);
    }
  }

  lemma ReturnedStep(s: State, l: Label, c: CallId)
    requires Enabled(s, l) && c in s.calls && s.calls[c].pc.Returned?
    ensures var t := Apply(s, l); c in t.calls && t.calls[c] == s.calls[c]
  {
    if l.Step? {
      assert l.c != c;
      StepFrame(s, l.c, l.x, s.calls[c].key);
    }
  }

  lemma {:induction false} ReturnedStays(tr: seq<State>, ls: seq<Label>, i: nat, j: nat, c: CallId)
    requires Run(tr, ls) && i <= j < |tr| && c in tr[i].calls && tr[i].calls[c].pc.Returned?
    ensures c in tr[j].calls && tr[j].calls[c] == tr[i].calls[c]
    decreases j
  {
    if i < j {
      ReturnedStays(tr, ls, i, j - 1, c);
      assert Leads(tr, ls, j - 1);
      ReturnedStep(tr[j-1], ls[j-1], c);
    }
  }

  /** Agreement: as long as nothing removes or replaces the key, every non-null result
      of every call for it, at whatever time it is returned, is the same object, even
      if several calls parsed it. */
  lemma ResultsAgree(tr: seq<State>, ls: seq<Label>, k: Key, i: nat, c: CallId, j: nat, d: CallId)
    requires Run(tr, ls) && QuietFor(tr, ls, k) && i < |tr| && j < |tr|
    requires CallFor(tr[i], c, k) && tr[i].calls[c].pc.Returned? && tr[i].calls[c].pc.out.Value?
    requires CallFor(tr[j], d, k) && tr[j].calls[d].pc.Returned? && tr[j].calls[d].pc.out.Value?
    ensures tr[i].calls[c].pc.out == tr[j].calls[d].pc.out
  {
    var n := |tr| - 1;
    ReturnedStays(tr, ls, i, n, c);
    ReturnedStays(tr, ls, j, n, d);
    AgreeAlways(tr, ls, k, n);
    assert AgreeOk(tr[n], k, tr[n].calls[c].pc) && AgreeOk(tr[n], k, tr[n].calls[d].pc);
  }

  // ---- every call is short ----

  /** How many steps a call can still take. */
  function StepsLeft(pc: Pc): nat {
    match pc
    case Lookup => 16
    case Capture => 15
    case Enroll(_) => 14
    case Announce(_) => 13
    case Parse(_) => 12
    case AwaitArchive(_, _) => 11
    case Assemble(_, _) => 10
    case Compare(_, _) => 9
    case Decide(_, _, _) => 8
    case Insert(_) => 7
    case Charge(_) => 6
    case Schedule(_) => 5
    case RecordLoaded(_) => 4
    case Settle(_, _) => 3
    case Bookkeep(_) => 2
    case Join(_) => 2
    case Erase(_) => 1
    case Serve(_) => 1
    case TouchJoined(_, _) => 1
    case Returned(_, _) => 0
  }

  ghost predicate Shorter(s: State, t: State, c: CallId)
    requires c in s.calls
  {
    c in t.calls && StepsLeft(t.calls[c].pc) < StepsLeft(s.calls[c].pc)
  }

  lemma NextPcShortens(pc: Pc, gen: nat, epoch: nat)
    requires Private(pc) && !pc.Parse? && !pc.Assemble?
    ensures StepsLeft(NextPc(pc, gen, epoch)) < StepsLeft(pc)
  {
  }

  lemma SharedWorkShortens(s: State, c: CallId)
    requires c in s.calls && CanStep(s, c, Go) && (s.calls[c].pc.Insert? || s.calls[c].pc.AwaitArchive?)
    ensures Shorter(s, Work(s, c), c)
  {
  }

  lemma PublishShortens(s: State, c: CallId)
    requires c in s.calls && (s.calls[c].pc.Settle? || s.calls[c].pc.Erase?)
    ensures Shorter(s, Work(s, c), c)
  {
  }

  lemma WorkShortens(s: State, c: CallId)
    requires c in s.calls && CanStep(s, c, Go) && IsLoader(s.calls[c].pc)
    ensures Shorter(s, Work(s, c), c)
  {
    var pc := s.calls[c].pc;
    if pc.Insert? || pc.AwaitArchive? {
      SharedWorkShortens(s, c);
    } else if pc.Settle? || pc.Erase? {
      PublishShortens(s, c);
    } else {
      var gen := Gen(s, s.calls[c].key.name);
      NextPcShortens(pc, gen, s.epoch);
      assert Work(s, c) == Goto(s, c, NextPc(pc, gen, s.epoch));
    }
  }

  lemma EnrollShortens(s: State, c: CallId)
    requires c in s.calls && s.calls[c].pc.Enroll?
    ensures Shorter(s, Ask(s, c), c)
  {
  }

  lemma JoinShortens(s: State, c: CallId)
    requires c in s.calls && CanStep(s, c, Go) && s.calls[c].pc.Join?
    ensures Shorter(s, Ask(s, c), c)
  {
  }

  lemma LookupShortens(s: State, c: CallId)
    requires c in s.calls && (s.calls[c].pc.Lookup? || s.calls[c].pc.Capture?)
    ensures Shorter(s, Ask(s, c), c)
  {
  }

  lemma HandBackShortens(s: State, c: CallId)
    requires c in s.calls && (s.calls[c].pc.Serve? || s.calls[c].pc.TouchJoined?)
    ensures Shorter(s, Ask(s, c), c)
  {
  }

  lemma AskShortens(s: State, c: CallId)
    requires c in s.calls && CanStep(s, c, Go) && !IsLoader(s.calls[c].pc)
    ensures Shorter(s, Ask(s, c), c)
  {
    var pc := s.calls[c].pc;
    if pc.Enroll? {
      EnrollShortens(s, c);
    } else if pc.Join? {
      JoinShortens(s, c);
    } else if pc.Serve? || pc.TouchJoined? {
      HandBackShortens(s, c);
    } else {
      LookupShortens(s, c);
    }
  }

  lemma OwnStepShortens(s: State, c: CallId, x: Choice)
    requires c in s.calls && CanStep(s, c, x)
    ensures Shorter(s, Advance(s, c, x), c)
  {
    if x.Go? {
      if IsLoader(s.calls[c].pc) {
        WorkShortens(s, c);
      } else {
        AskShortens(s, c);
      }
    }
  }

  /** The number of steps that call c takes among the first i of the run. */
  function OwnSteps(ls: seq<Label>, c: CallId, i: nat): nat
    requires i <= |ls|
  {
    if i == 0 then 0 else OwnSteps(ls, c, i - 1) + if ls[i-1].Step? && ls[i-1].c == c then 1 else 0
  }

  /** No call loops or retries: it takes at most sixteen steps, and each brings it nearer
      to its return. */
  lemma {:induction false} CallsAreShort(tr: seq<State>, ls: seq<Label>, c: CallId, i: nat)
    requires Run(tr, ls) && i < |tr|
    ensures OwnSteps(ls, c, i) <= 16
    ensures c in tr[i].calls ==> OwnSteps(ls, c, i) + StepsLeft(tr[i].calls[c].pc) <= 16
    ensures c !in tr[i].calls ==> OwnSteps(ls, c, i) == 0
  {
    if i > 0 {
      CallsAreShort(tr, ls, c, i - 1);
      var s, l := tr[i-1], ls[i-1];
      assert Leads(tr, ls, i - 1);
      if l.Step? {
        if l.c == c {
          OwnStepShortens(s, c, l.x);
        } else {
          StepFrame(s, l.c, l.x, s.calls[l.c].key);
        }
      }
    }
  }
}
