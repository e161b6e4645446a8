/** The single-flight load path of the design cache at lock-region granularity.
    One step is one locked region (or one unlocked call such as a parse), and a
    run is any interleaving of the steps of any number of concurrent calls. */
module SingleFlight {
  import opened Basics
  import opened CacheKeys

  type Obj = nat        // identity of a shared FileArchive or Design object
  type CallId = nat

  /** What one call hands back: an object, "no such design", or an exception. */
  datatype Outcome = Value(obj: Obj) | Null | Thrown(error: nat)

  datatype Promise = Pending | Satisfied(outcome: Outcome)

  /** The response generation and cache epoch a loader captured when it registered. */
  datatype Mark = Mark(gen: nat, epoch: nat)

  datatype Exit = Failed | NotFound | Abandoned | Loaded | Guarded

  datatype Via = Hit | Joined(loader: CallId) | Ran | Early

  /** Where a call is. The states from Announce to Erase belong to a loader. */
  datatype Pc =
    | Lookup
    | Serve(found: Obj)
    | Capture
    | Enroll(gen: nat)
    | Join(loader: CallId)
    | TouchJoined(loader: CallId, got: Outcome)
    | Announce(mark: Mark)
    | Parse(mark: Mark)
    | AwaitArchive(mark: Mark, child: CallId)
    | Assemble(mark: Mark, archive: Obj)
    | Compare(mark: Mark, parsed: Obj)
    | Decide(mark: Mark, parsed: Obj, bumped: bool)
    | Insert(parsed: Obj)
    | Charge(kept: Obj)
    | Schedule(kept: Obj)
    | RecordLoaded(kept: Obj)
    | Settle(out: Outcome, exit: Exit)
    | Bookkeep(out: Outcome)
    | Erase(out: Outcome)
    | Returned(out: Outcome, via: Via)

  datatype Call = Call(key: Key, pc: Pc)

  /** A call's promise is identified with the call: it is a local of that call. */
  datatype State = State(
    cache: map<Key, Obj>,
    gens: map<Name, nat>,
    epoch: nat,
    inFlight: map<Key, CallId>,
    promises: map<CallId, Promise>,
    calls: map<CallId, Call>)

  datatype Choice = Go | Raise(error: nat) | Found(obj: Obj) | Missing | Child(id: CallId)

  /** Interfere stands for everything else that touches the maps: eviction,
      invalidation, injection and Clear. It may change them arbitrarily. */
  datatype Label =
    | Start(c: CallId, key: Key)
    | Step(c: CallId, x: Choice)
    | Interfere(cache: map<Key, Obj>, gens: map<Name, nat>, epoch: nat)

  function Gen(s: State, n: Name): nat {
    if n in s.gens then s.gens[n] else 0
  }

  function Goto(s: State, c: CallId, pc: Pc): State
    requires c in s.calls
  {
    s.(calls := s.calls[c := s.calls[c].(pc := pc)])
  }

  predicate Init(s: State) {
    s.inFlight == map[] && s.promises == map[] && s.calls == map[]
  }

  /** The steps an escaping exception can interrupt before the promise is fulfilled:
      everything between registration and fulfilment that is outside the parse. */
  predicate Unprotected(pc: Pc) {
    pc.Announce? || pc.Compare? || pc.Decide? || pc.Insert? || pc.Charge? || pc.Schedule? || pc.RecordLoaded?
  }

  predicate CanStep(s: State, c: CallId, x: Choice)
    requires c in s.calls
  {
    var call := s.calls[c];
    match x
    case Raise(_) =>
      || Unprotected(call.pc) || call.pc.Lookup? || call.pc.Capture? || call.pc.Enroll?
      || call.pc.Parse? || call.pc.Assemble?
    case Found(_) => (call.pc.Parse? && call.key.kind.ArchiveKind?) || call.pc.Assemble?
    case Missing => call.pc.Parse? || call.pc.Assemble?
    case Child(id) => call.pc.Parse? && call.key.kind.DesignKind? && id !in s.calls
    case Go =>
      match call.pc
      case Parse(_) => false
      case Assemble(_, _) => false
      case Returned(_, _) => false
      case Join(l) => l in s.promises && s.promises[l].Satisfied?
      case AwaitArchive(_, ch) => ch in s.calls && s.calls[ch].pc.Returned?
      case _ => true
  }

  predicate Enabled(s: State, l: Label) {
    match l
    case Start(c, _) => c !in s.calls
    case Step(c, x) => c in s.calls && CanStep(s, c, x)
    case Interfere(_, _, _) => true
  }

  function Apply(s: State, l: Label): State
    requires Enabled(s, l)
  {
    match l
    case Start(c, key) => s.(calls := s.calls[c := Call(key, Lookup)])
    case Step(c, x) => Advance(s, c, x)
    case Interfere(cache, gens, epoch) => s.(cache := cache, gens := gens, epoch := epoch)
  }

  function Advance(s: State, c: CallId, x: Choice): State
    requires c in s.calls && CanStep(s, c, x)
  {
    var pc := s.calls[c].pc;
    match x
    case Raise(e) => Goto(s, c, AfterException(pc, e))
    case Found(o) => Goto(s, c, Compare(pc.mark, o))
    case Missing => Goto(s, c, Settle(Null, NotFound))
    case Child(id) =>
      var t := Goto(s, c, AwaitArchive(pc.mark, id));
      t.(calls := t.calls[id := Call(Key(ArchiveKind, s.calls[c].key.name), Lookup)])
    case Go =>
      if IsLoader(pc) then Work(s, c) else Ask(s, c)
  }

  /** An exception: caught by the parse handler, by the loader-exit guard, or,
      before registration, simply leaving the call. */
  function AfterException(pc: Pc, e: nat): Pc {
    if Unprotected(pc) then Settle(Thrown(e), Guarded)
    else if pc.Parse? || pc.Assemble? then Settle(Thrown(e), Failed)
    else Returned(Thrown(e), Early)
  }

  function AfterArchive(m: Mark, o: Outcome): Pc {
    match o
    case Value(a) => Assemble(m, a)
    case Null => Settle(Null, NotFound)
    case Thrown(e) => Settle(Thrown(e), Failed)
  }

  /** The steps of a call that has not registered: hit, or miss and join or register. */
  function Ask(s: State, c: CallId): State
    requires c in s.calls && CanStep(s, c, Go)
  {
    var key := s.calls[c].key;
    match s.calls[c].pc
    case Lookup => Goto(s, c, if key in s.cache then Serve(s.cache[key]) else Capture)
    case Serve(v) => Goto(s, c, Returned(Value(v), Hit))
    case Capture => Goto(s, c, Enroll(Gen(s, key.name)))
    case Enroll(g) => if key in s.inFlight then Goto(s, c, Join(s.inFlight[key])) else Register(s, c, g)
    case Join(l) =>
      var o := s.promises[l].outcome;
      Goto(s, c, if o.Thrown? then Returned(o, Joined(l)) else TouchJoined(l, o))
    case TouchJoined(l, o) => Goto(s, c, Returned(o, Joined(l)))
    case _ => s
  }

  /** The steps of a registered loader. */
  function Work(s: State, c: CallId): State
    requires c in s.calls && CanStep(s, c, Go)
  {
    var key := s.calls[c].key;
    match s.calls[c].pc
    case AwaitArchive(m, ch) => Goto(s, c, AfterArchive(m, s.calls[ch].pc.out))
    case Insert(v) =>
      if key in s.cache then Goto(s, c, Charge(s.cache[key]))
      else Goto(s, c, Charge(v)).(cache := s.cache[key := v])
    case Settle(o, exit) => Fulfil(s, c, o, exit)
    case Erase(o) => Leave(s, c, o)
    case pc => Goto(s, c, NextPc(pc, Gen(s, key.name), s.epoch))
  }

  /** Where a loader goes from a step that changes no shared map of this model;
      gen and epoch are the current ones. */
  function NextPc(pc: Pc, gen: nat, epoch: nat): Pc {
    match pc
    case Announce(m) => Parse(m)
    case Compare(m, v) => Decide(m, v, gen != m.gen)
    case Decide(m, v, bumped) => if bumped || epoch != m.epoch then Settle(Value(v), Abandoned) else Insert(v)
    case Charge(v) => Schedule(v)
    case Schedule(v) => RecordLoaded(v)
    case RecordLoaded(v) => Settle(Value(v), Loaded)
    case Bookkeep(o) => Erase(o)
    case _ => pc
  }

  /** The caller becomes the only runner for its key. */
  function Register(s: State, c: CallId, g: nat): State
    requires c in s.calls
  {
    s.(calls := s.calls[c := s.calls[c].(pc := Announce(Mark(g, s.epoch)))],
       inFlight := s.inFlight[s.calls[c].key := c],
       promises := s.promises[c := Pending])
  }

  function Fulfil(s: State, c: CallId, o: Outcome, exit: Exit): State
    requires c in s.calls
  {
    s.(calls := s.calls[c := s.calls[c].(pc := if exit.Failed? || exit.NotFound? then Bookkeep(o) else Erase(o))],
       promises := s.promises[c := Satisfied(o)])
  }

  function Leave(s: State, c: CallId, o: Outcome): State
    requires c in s.calls
  {
    s.(calls := s.calls[c := s.calls[c].(pc := Returned(o, Ran))], inFlight := s.inFlight - {s.calls[c].key})
  }

  // ---- which tables a step of a call can change ----

  lemma WhereLoadersWrite(s: State, c: CallId)
    requires c in s.calls && CanStep(s, c, Go) && IsLoader(s.calls[c].pc)
    ensures Work(s, c).cache != s.cache ==> s.calls[c].pc.Insert?
    ensures Work(s, c).inFlight != s.inFlight ==> s.calls[c].pc.Erase?
    ensures Work(s, c).gens == s.gens && Work(s, c).epoch == s.epoch
  {
    match s.calls[c].pc
    case Insert(_) =>
    case Settle(_, _) =>
    case Erase(_) =>
    case _ =>
  }

  lemma EnrollWrites(s: State, c: CallId)
    requires c in s.calls && CanStep(s, c, Go) && s.calls[c].pc.Enroll?
    ensures Ask(s, c).cache == s.cache && Ask(s, c).gens == s.gens && Ask(s, c).epoch == s.epoch
  {
  }

  lemma MoveWrites(s: State, c: CallId, pc: Pc)
    requires c in s.calls
    ensures var t := Goto(s, c, pc);
            t.cache == s.cache && t.gens == s.gens && t.epoch == s.epoch && t.inFlight == s.inFlight
  {
  }

  /** Whatever else a caller does before it registers only moves it. */
  lemma CallerMoves(s: State, c: CallId) returns (pc: Pc)
    requires c in s.calls && CanStep(s, c, Go) && !IsLoader(s.calls[c].pc) && !s.calls[c].pc.Enroll?
    ensures Ask(s, c) == Goto(s, c, pc)
  {
    var key := s.calls[c].key;
    match s.calls[c].pc
    case Lookup => pc := if key in s.cache then Serve(s.cache[key]) else Capture;
    case Serve(v) => pc := Returned(Value(v), Hit);
    case Capture => pc := Enroll(Gen(s, key.name));
    case Join(l) =>
      var o := s.promises[l].outcome;
      pc := if o.Thrown? then Returned(o, Joined(l)) else TouchJoined(l, o);
    case TouchJoined(l, o) => pc := Returned(o, Joined(l));
    case _ =>
  }

  lemma WhereCallersWrite(s: State, c: CallId)
    requires c in s.calls && CanStep(s, c, Go) && !IsLoader(s.calls[c].pc)
    ensures Ask(s, c).inFlight != s.inFlight ==> s.calls[c].pc.Enroll?
    ensures Ask(s, c).cache == s.cache && Ask(s, c).gens == s.gens && Ask(s, c).epoch == s.epoch
  {
    if s.calls[c].pc.Enroll? {
      EnrollWrites(s, c);
    } else {
      var pc := CallerMoves(s, c);
      MoveWrites(s, c, pc);
    }
  }

  // ---- runs ----

  ghost predicate Leads(tr: seq<State>, ls: seq<Label>, i: nat) {
    i < |ls| && i + 1 < |tr| && Enabled(tr[i], ls[i]) && tr[i+1] == Apply(tr[i], ls[i])
  }

  /** tr is the sequence of states visited and ls the labels taken between them. */
  ghost predicate Run(tr: seq<State>, ls: seq<Label>) {
    && |tr| == |ls| + 1
    && Init(tr[0])
    && forall i: nat {:trigger Leads(tr, ls, i)} :: i < |ls| ==> Leads(tr, ls, i)
  }

  // ---- the invariant ----

  datatype Stage = Outside | Open | Done(out: Outcome)

  /** Open: registered with the promise pending. Done: registered, promise satisfied. */
  function StageOf(pc: Pc): Stage {
    match pc
    case Bookkeep(o) => Done(o)
    case Erase(o) => Done(o)
    case Lookup => Outside
    case Serve(_) => Outside
    case Capture => Outside
    case Enroll(_) => Outside
    case Join(_) => Outside
    case TouchJoined(_, _) => Outside
    case Returned(_, _) => Outside
    case _ => Open
  }

  predicate IsLoader(pc: Pc) {
    !StageOf(pc).Outside?
  }

  function SlotOf(s: State, c: CallId): Option<Promise> {
    if c in s.promises then Some(s.promises[c]) else None
  }

  /** A call's promise agrees with where the call is. */
  ghost predicate PromiseOk(pc: Pc, p: Option<Promise>) {
    match StageOf(pc)
    case Open => p == Some(Pending)
    case Done(o) => p == Some(Satisfied(o))
    case Outside =>
      if pc.Returned? && pc.via == Ran then p == Some(Satisfied(pc.out)) else p == None
  }

  /** l is a call for the key. */
  ghost predicate CallFor(s: State, l: CallId, key: Key) {
    l in s.calls && s.calls[l].key == key
  }

  /** The loader l of the key has delivered o. */
  ghost predicate Delivered(s: State, key: Key, l: CallId, o: Outcome) {
    CallFor(s, l, key) && SlotOf(s, l) == Some(Satisfied(o))
  }

  /** What a call knows about the other calls it depends on. */
  ghost predicate LinkOk(s: State, key: Key, pc: Pc) {
    match pc
    case Join(l) => CallFor(s, l, key) && SlotOf(s, l).Some?
    case TouchJoined(l, o) => Delivered(s, key, l, o)
    case Returned(o, Joined(l)) => Delivered(s, key, l, o)
    case AwaitArchive(_, ch) => key.kind.DesignKind? && CallFor(s, ch, Key(ArchiveKind, key.name))
    case _ => true
  }

  ghost predicate CallOk(s: State, c: CallId)
    requires c in s.calls
  {
    var call := s.calls[c];
    && PromiseOk(call.pc, SlotOf(s, c))
    && LinkOk(s, call.key, call.pc)
    && (IsLoader(call.pc) ==> call.key in s.inFlight && s.inFlight[call.key] == c)
  }

  ghost predicate FlightOk(s: State, k: Key)
    requires k in s.inFlight
  {
    CallFor(s, s.inFlight[k], k) && IsLoader(s.calls[s.inFlight[k]].pc)
  }

  ghost predicate Inv(s: State) {
    && s.promises.Keys <= s.calls.Keys
    && (forall k {:trigger FlightOk(s, k)} :: k in s.inFlight ==> FlightOk(s, k))
    && (forall c {:trigger CallOk(s, c)} :: c in s.calls ==> CallOk(s, c))
  }

  /** No call disappears or changes key, and no satisfied promise is touched. */
  ghost predicate Extends(s: State, t: State) {
    && (forall l :: l in s.calls ==> CallFor(t, l, s.calls[l].key))
    && (forall l :: SlotOf(s, l).Some? ==>
          SlotOf(t, l).Some? && (SlotOf(s, l).value.Satisfied? ==> SlotOf(t, l) == SlotOf(s, l)))
  }

  // ---- preservation ----

  lemma LinkStable(s: State, t: State, key: Key, pc: Pc)
    requires Extends(s, t) && LinkOk(s, key, pc)
    ensures LinkOk(t, key, pc)
  {
  }

  /** If only call c, its promise and the flight entry of its key changed, and they
      changed consistently, the invariant survives. */
  lemma LocalChange(s: State, t: State, c: CallId)
    requires Inv(s) && c in s.calls && Extends(s, t)
    requires t.calls.Keys == s.calls.Keys && t.promises.Keys <= t.calls.Keys
    requires forall d :: d in s.calls && d != c ==> t.calls[d] == s.calls[d] && SlotOf(t, d) == SlotOf(s, d)
    requires t.calls[c].key == s.calls[c].key
    requires forall k :: k != s.calls[c].key ==>
               (k in s.inFlight <==> k in t.inFlight) && (k in t.inFlight ==> t.inFlight[k] == s.inFlight[k])
    requires CallOk(t, c)
    requires var k := s.calls[c].key;
      if IsLoader(t.calls[c].pc) then k !in s.inFlight || s.inFlight[k] == c
      else if IsLoader(s.calls[c].pc) then k !in t.inFlight
      else (k in s.inFlight <==> k in t.inFlight) && (k in s.inFlight ==> t.inFlight[k] == s.inFlight[k])
    ensures Inv(t)
  {
    var key := s.calls[c].key;
    assert CallOk(s, c);
    forall d | d in t.calls
      ensures CallOk(t, d)
    {
      if d != c {
        assert CallOk(s, d);
        LinkStable(s, t, s.calls[d].key, s.calls[d].pc);
      }
    }
    forall k | k in t.inFlight
      ensures FlightOk(t, k)
    {
      assert k in s.inFlight ==> FlightOk(s, k);
    }
  }

  /** A move that leaves the call's registration and promise alone. */
  lemma MoveKeepsInv(s: State, c: CallId, pc: Pc, cache: map<Key, Obj>)
    requires Inv(s) && c in s.calls
    requires IsLoader(pc) == IsLoader(s.calls[c].pc)
    requires PromiseOk(pc, SlotOf(s, c)) && LinkOk(s, s.calls[c].key, pc)
    ensures var t := Goto(s, c, pc).(cache := cache); Inv(t) && Extends(s, t)
  {
    var t := Goto(s, c, pc).(cache := cache);
    assert CallOk(s, c);
    assert forall l :: SlotOf(t, l) == SlotOf(s, l);
    assert Extends(s, t);
    LinkStable(s, t, s.calls[c].key, pc);
    LocalChange(s, t, c);
  }

  lemma RegisterKeepsInv(s: State, c: CallId, g: nat)
    requires Inv(s) && c in s.calls && s.calls[c].pc == Enroll(g) && s.calls[c].key !in s.inFlight
    ensures Inv(Register(s, c, g)) && Extends(s, Register(s, c, g))
  {
    var t := Register(s, c, g);
    assert CallOk(s, c);
    assert forall l :: l != c ==> SlotOf(t, l) == SlotOf(s, l);
    assert Extends(s, t);
    LocalChange(s, t, c);
  }

  lemma FulfilIsLocal(s: State, c: CallId, o: Outcome, exit: Exit, t: State)
    requires c in s.calls && CallOk(s, c) && s.calls[c].pc == Settle(o, exit) && t == Fulfil(s, c, o, exit)
    ensures SlotOf(s, c) == Some(Pending) && c in t.calls && CallOk(t, c)
    ensures t.calls[c].key == s.calls[c].key && IsLoader(t.calls[c].pc) && t.inFlight == s.inFlight
    ensures t.calls.Keys == s.calls.Keys && t.promises.Keys == s.promises.Keys + {c}
    ensures forall d :: d in s.calls && d != c ==> t.calls[d] == s.calls[d]
    ensures forall l :: l != c ==> SlotOf(t, l) == SlotOf(s, l)
  {
  }

  lemma FulfilKeepsInv(s: State, c: CallId, o: Outcome, exit: Exit)
    requires Inv(s) && c in s.calls && s.calls[c].pc == Settle(o, exit)
    ensures SlotOf(s, c) == Some(Pending)
    ensures Inv(Fulfil(s, c, o, exit)) && Extends(s, Fulfil(s, c, o, exit))
  {
    var t := Fulfil(s, c, o, exit);
    assert CallOk(s, c);
    FulfilIsLocal(s, c, o, exit, t);
    assert Extends(s, t);
    LocalChange(s, t, c);
  }

  lemma LeaveKeepsInv(s: State, c: CallId, o: Outcome)
    requires Inv(s) && c in s.calls && s.calls[c].pc == Erase(o)
    ensures Inv(Leave(s, c, o)) && Extends(s, Leave(s, c, o))
  {
    var t := Leave(s, c, o);
    assert CallOk(s, c);
    assert forall l :: SlotOf(t, l) == SlotOf(s, l);
    assert Extends(s, t);
    LocalChange(s, t, c);
  }

  /** t is s with only the place of c (and the cached objects) changed, consistently. */
  ghost predicate Moved(s: State, t: State, c: CallId)
    requires c in s.calls
  {
    && c in t.calls
    && t == Goto(s, c, t.calls[c].pc).(cache := t.cache)
    && IsLoader(t.calls[c].pc) == IsLoader(s.calls[c].pc)
    && PromiseOk(t.calls[c].pc, SlotOf(s, c)) && LinkOk(s, s.calls[c].key, t.calls[c].pc)
  }

  lemma AskMoves(s: State, c: CallId)
    requires c in s.calls && CallOk(s, c) && CanStep(s, c, Go) && !IsLoader(s.calls[c].pc)
    requires s.calls[c].pc.Enroll? ==>
               var k := s.calls[c].key; k in s.inFlight && LinkOk(s, k, Join(s.inFlight[k]))
    ensures Moved(s, Ask(s, c), c)
  {
  }

  lemma NextPcStage(pc: Pc, gen: nat, epoch: nat)
    requires IsLoader(pc) && !pc.AwaitArchive?
    ensures StageOf(NextPc(pc, gen, epoch)) == StageOf(pc)
    ensures var q := NextPc(pc, gen, epoch); !q.AwaitArchive?
  {
  }

  lemma WorkMoves(s: State, c: CallId)
    requires c in s.calls && CallOk(s, c) && CanStep(s, c, Go) && IsLoader(s.calls[c].pc)
    requires var pc := s.calls[c].pc; !pc.Settle? && !pc.Erase?
    ensures Moved(s, Work(s, c), c)
  {
    var pc := s.calls[c].pc;
    if !pc.AwaitArchive? && !pc.Insert? {
      NextPcStage(pc, Gen(s, s.calls[c].key.name), s.epoch);
    }
  }

  lemma OtherMoves(s: State, c: CallId, x: Choice)
    requires c in s.calls && CallOk(s, c) && CanStep(s, c, x) && !x.Child? && !x.Go?
    ensures Moved(s, Advance(s, c, x), c)
  {
    var pc := s.calls[c].pc;
    if x.Raise? {
      assert IsLoader(AfterException(pc, x.error)) == IsLoader(pc);
    }
  }

  lemma StepKeepsInv(s: State, c: CallId, x: Choice)
    requires Inv(s) && c in s.calls && CanStep(s, c, x)
    ensures Inv(Advance(s, c, x)) && Extends(s, Advance(s, c, x))
  {
    var pc := s.calls[c].pc;
    if x.Child? {
      ChildKeepsInv(s, c, x.id);
    } else if pc.Settle? {
      FulfilKeepsInv(s, c, pc.out, pc.exit);
    } else if pc.Erase? {
      LeaveKeepsInv(s, c, pc.out);
    } else if pc.Enroll? && x.Go? && s.calls[c].key !in s.inFlight {
      RegisterKeepsInv(s, c, pc.gen);
    } else {
      assert CallOk(s, c);
      if pc.Enroll? && x.Go? {
        var k := s.calls[c].key;
        assert FlightOk(s, k) && CallOk(s, s.inFlight[k]);
      }
      if !x.Go? {
        OtherMoves(s, c, x);
      } else if IsLoader(pc) {
        WorkMoves(s, c);
      } else {
        AskMoves(s, c);
      }
      var t := Advance(s, c, x);
      MoveKeepsInv(s, c, t.calls[c].pc, t.cache);
    }
  }

  /** Adding a call that has not done anything yet. */
  lemma NewCallKeepsInv(s: State, c: CallId, key: Key)
    requires Inv(s) && c !in s.calls
    ensures var t := s.(calls := s.calls[c := Call(key, Lookup)]); Inv(t) && Extends(s, t)
  {
    var t := s.(calls := s.calls[c := Call(key, Lookup)]);
    forall d | d in t.calls
      ensures CallOk(t, d)
    {
      if d != c {
        assert CallOk(s, d);
        LinkStable(s, t, s.calls[d].key, s.calls[d].pc);
      }
    }
    forall k | k in t.inFlight
      ensures FlightOk(t, k)
    {
      assert FlightOk(s, k);
    }
  }

  lemma ChildKeepsInv(s: State, c: CallId, id: CallId)
    requires Inv(s) && c in s.calls && CanStep(s, c, Child(id))
    ensures Inv(Advance(s, c, Child(id))) && Extends(s, Advance(s, c, Child(id)))
  {
    var key := Key(ArchiveKind, s.calls[c].key.name);
    var u := s.(calls := s.calls[id := Call(key, Lookup)]);
    NewCallKeepsInv(s, id, key);
    var pc := AwaitArchive(s.calls[c].pc.mark, id);
    assert CallOk(u, c);
    MoveKeepsInv(u, c, pc, s.cache);
    assert Goto(u, c, pc).(cache := s.cache) == Advance(s, c, Child(id));
  }

  lemma InterfereKeepsInv(s: State, cache: map<Key, Obj>, gens: map<Name, nat>, epoch: nat)
    requires Inv(s)
    ensures var t := s.(cache := cache, gens := gens, epoch := epoch); Inv(t) && Extends(s, t)
  {
    var t := s.(cache := cache, gens := gens, epoch := epoch);
    forall d | d in t.calls
      ensures CallOk(t, d)
    {
      assert CallOk(s, d);
      LinkStable(s, t, s.calls[d].key, s.calls[d].pc);
    }
    forall k | k in t.inFlight
      ensures FlightOk(t, k)
    {
      assert FlightOk(s, k);
    }
  }

  lemma ApplyKeepsInv(s: State, l: Label)
    requires Inv(s) && Enabled(s, l)
    ensures Inv(Apply(s, l)) && Extends(s, Apply(s, l))
  {
    match l
    case Start(c, key) => NewCallKeepsInv(s, c, key);
    case Interfere(cache, gens, epoch) => InterfereKeepsInv(s, cache, gens, epoch);
    case Step(c, x) =>
      StepKeepsInv(s, c, x);
  }

  lemma {:induction false} InvAlways(tr: seq<State>, ls: seq<Label>, i: nat)
    requires Run(tr, ls) && i < |tr|
    ensures Inv(tr[i])
  {
    if i > 0 {
      InvAlways(tr, ls, i - 1);
      assert Leads(tr, ls, i - 1);
      ApplyKeepsInv(tr[i-1], ls[i-1]);
    }
  }
}
