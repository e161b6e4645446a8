/** Calls, background workers, client operations, the destructor and mutexes together.
    Threads wait for futures, for their nested archive call, for a slot, for the last
    worker and for mutexes; every step is split into the lock and unlock operations that
    the code performs at that point. */
module Deadlock {
  import opened Basics
  import opened CacheKeys
  import opened LockScripts
  import F = SingleFlight
  import R = SingleFlightResults
  import B = BackgroundSlots

  type ClientId = nat

  datatype Agent = OfCall(c: F.CallId) | OfWorker(w: B.Id) | OfClient(k: ClientId) | Destructor

  /** A step under way: the path it takes, how many lock operations are done, the mutexes
      held, innermost last, and the operations left. */
  datatype Region = Region(path: Path, done: nat, held: seq<Mutex>, ahead: seq<LockOp>)

  /** jobs maps a load worker to the GetDesign call it runs while it holds its slot;
      clients are the operations running on other threads. */
  datatype World = World(
    flight: F.State,
    slots: B.State,
    jobs: map<B.Id, F.CallId>,
    clients: map<ClientId, Op>,
    regions: map<Agent, Region>)

  datatype Label =
    | Arrive(call: F.Label)                    // a client call starts, or an effect on the shared maps
    | Background(event: B.Label)               // schedules, the destructor starts, spurious wake-ups
    | RunJob(w: B.Id, c: F.CallId)             // a load worker with a slot calls GetDesign
    | Begin(k: ClientId, op: Op)               // a client operation starts
    | Enter(a: Agent, path: Path)
    | Lock(a: Agent)
    | Unwind(a: Agent)                         // an exception leaves the step; the guards release
    | FinishCall(c: F.CallId, x: F.Choice)
    | FinishWorker(event: B.Label)
    | FinishClient(k: ClientId, go: bool)
    | FinishDrain

  predicate CallReady(f: F.State, c: F.CallId) {
    && c in f.calls
    && match f.calls[c].pc
       case Returned(_, _) => false
       case Join(l) => l in f.promises && f.promises[l].Satisfied?
       case AwaitArchive(_, ch) => ch in f.calls && f.calls[ch].pc.Returned?
       case _ => true
  }

  predicate JobDone(w: World, i: B.Id) {
    i in w.jobs && w.jobs[i] in w.flight.calls && w.flight.calls[w.jobs[i]].pc.Returned?
  }

  predicate WorkerReady(w: World, i: B.Id) {
    && i in w.slots.workers
    && var k := w.slots.workers[i];
       k.phase != B.Sleeping && k.phase != B.Gone && (k.phase == B.Holding && k.job.Load? ==> JobDone(w, i))
  }

  predicate Ready(w: World, a: Agent) {
    match a
    case OfCall(c) => CallReady(w.flight, c)
    case OfWorker(i) => WorkerReady(w, i)
    case OfClient(k) => k in w.clients
    case Destructor => w.slots.drain == B.DrainChecking
  }

  /** The lock operations of the step the agent is at. */
  function ScriptOf(w: World, a: Agent, p: Path): seq<LockOp>
    requires Ready(w, a)
  {
    match a
    case OfCall(c) => CallScript(w.flight.calls[c].pc, p)
    case OfWorker(i) => WorkerScript(w.slots.workers[i], p)
    case OfClient(k) => ClientScript(w.clients[k], p)
    case Destructor => DrainScript()
  }

  ghost predicate Held(w: World, a: Agent, m: Mutex) {
    a in w.regions && m in w.regions[a].held
  }

  /** Semaphore steps of the environment: a load schedules a pre-serialization, the
      destructor begins to drain, a condition variable wakes somebody for no reason. */
  predicate OutsideLabel(l: B.Label) {
    l.Schedule? || l.Spurious? || l.DrainStart?
  }

  /** Semaphore steps that a client operation or the destructor takes. */
  predicate ClientLabel(l: B.Label) {
    l.Kick? || l.SetMax? || l.NotifyAll? || l.DrainCheck?
  }

  /** What a client operation does to the semaphore once its section is over. go is false
      if a kick finds its name already in flight. */
  function EventOf(s: B.State, op: Op, go: bool): Option<B.Label> {
    match op
    case SetMaxLoads(cap) => Some(B.SetMax(cap))
    case NotifyWaiters => if s.raises > 0 then Some(B.NotifyAll) else None
    case KickLoad(i, name) => if go && B.Enabled(s, B.Kick(i, name)) then Some(B.Kick(i, name)) else None
    case _ => None
  }

  /** A changed cap is announced by the same thread, after it has released the mutex. */
  function NextClients(clients: map<ClientId, Op>, k: ClientId): map<ClientId, Op>
    requires k in clients
  {
    if clients[k].SetMaxLoads? then clients[k := NotifyWaiters] else clients - {k}
  }

  function Notifiers(clients: map<ClientId, Op>): set<ClientId> {
    set k | k in clients && clients[k].NotifyWaiters?
  }

  ghost predicate Enabled(w: World, l: Label) {
    match l
    case Arrive(f) => !f.Step? && F.Enabled(w.flight, f)
    case Background(b) => OutsideLabel(b) && B.Enabled(w.slots, b)
    case RunJob(i, c) =>
      B.In(w.slots, i, B.Holding) && w.slots.workers[i].job.Load? && i !in w.jobs && c !in w.flight.calls
    case Begin(k, op) => k !in w.clients && OfClient(k) !in w.regions && !op.NotifyWaiters?
    case Enter(a, path) => a !in w.regions && Ready(w, a)
    case Lock(a) =>
      && a in w.regions && w.regions[a].ahead != []
      && var op := w.regions[a].ahead[0];
         if op.Release? then w.regions[a].held != [] else forall b :: !Held(w, b, op.m)
    case Unwind(a) => a in w.regions
    case FinishCall(c, x) =>
      OfCall(c) in w.regions && w.regions[OfCall(c)].ahead == [] && c in w.flight.calls && F.CanStep(w.flight, c, x)
    case FinishWorker(b) =>
      && !OutsideLabel(b) && !ClientLabel(b) && B.Enabled(w.slots, b)
      && OfWorker(b.id) in w.regions && w.regions[OfWorker(b.id)].ahead == [] && WorkerReady(w, b.id)
    case FinishClient(k, go) => k in w.clients && OfClient(k) in w.regions && w.regions[OfClient(k)].ahead == []
    case FinishDrain =>
      w.slots.drain == B.DrainChecking && Destructor in w.regions && w.regions[Destructor].ahead == []
  }

  function Advanced(r: Region): Region
    requires r.ahead != [] && (r.ahead[0].Release? ==> r.held != [])
  {
    match r.ahead[0]
    case Acquire(m) => Region(r.path, r.done + 1, r.held + [m], r.ahead[1..])
    case Release => Region(r.path, r.done + 1, r.held[..|r.held|-1], r.ahead[1..])
  }

  function AfterEvent(s: B.State, e: Option<B.Label>): B.State
    requires e.Some? ==> B.Enabled(s, e.value)
  {
    if e.Some? then B.Apply(s, e.value) else s
  }

  ghost function Apply(w: World, l: Label): World
    requires Enabled(w, l)
  {
    match l
    case Arrive(f) => w.(flight := F.Apply(w.flight, f))
    case Background(b) => w.(slots := B.Apply(w.slots, b))
    case RunJob(i, c) =>
      w.(flight := F.Apply(w.flight, F.Start(c, Key(DesignKind, w.slots.workers[i].job.name))), jobs := w.jobs[i := c])
    case Begin(k, op) => w.(clients := w.clients[k := op])
    case Enter(a, path) => w.(regions := w.regions[a := Region(path, 0, [], ScriptOf(w, a, path))])
    case Lock(a) => w.(regions := w.regions[a := Advanced(w.regions[a])])
    case Unwind(a) => w.(regions := w.regions[a := w.regions[a].(ahead := Releases(|w.regions[a].held|))])
    case FinishCall(c, x) => w.(flight := F.Advance(w.flight, c, x), regions := w.regions - {OfCall(c)})
    case FinishWorker(b) => w.(slots := B.Apply(w.slots, b), regions := w.regions - {OfWorker(b.id)})
    case FinishClient(k, go) =>
      w.(slots := AfterEvent(w.slots, EventOf(w.slots, w.clients[k], go)),
         clients := NextClients(w.clients, k),
         regions := w.regions - {OfClient(k)})
    case FinishDrain => w.(slots := B.Apply(w.slots, B.DrainCheck), regions := w.regions - {Destructor})
  }

  predicate Init(w: World) {
    F.Init(w.flight) && B.Init(w.slots) && w.jobs == map[] && w.clients == map[] && w.regions == map[]
  }

  predicate IsRest(ahead: seq<LockOp>, script: seq<LockOp>, done: nat) {
    done <= |script| && ahead == script[done..]
  }

  /** What is left is the rest of the script (or, after an exception, to release what is
      held), and what is held and will be taken is in order. */
  predicate Fits(r: Region, script: seq<LockOp>) {
    && (IsRest(r.ahead, script, r.done) || r.ahead == Releases(|r.held|))
    && Legal(r.held, r.ahead) && Nested(r.held)
  }

  /** The agent waits for nothing but mutexes, and goes through the step it is at. */
  ghost predicate RegionOk(w: World, a: Agent)
    requires a in w.regions
  {
    Ready(w, a) && Fits(w.regions[a], ScriptOf(w, a, w.regions[a].path))
  }

  ghost predicate Inv(w: World) {
    && F.Inv(w.flight) && B.Inv(w.slots)
    && (forall a {:trigger RegionOk(w, a)} :: a in w.regions ==> RegionOk(w, a))
    && (forall a, b, m :: Held(w, a, m) && Held(w, b, m) ==> a == b)
    && (forall i :: i in w.jobs ==> w.jobs[i] in w.flight.calls)
    && w.slots.raises == |Notifiers(w.clients)|
  }

  ghost predicate Leads(tr: seq<World>, ls: seq<Label>, i: nat) {
    i < |ls| && i + 1 < |tr| && Enabled(tr[i], ls[i]) && tr[i+1] == Apply(tr[i], ls[i])
  }

  ghost predicate Run(tr: seq<World>, ls: seq<Label>) {
    && |tr| == |ls| + 1
    && Init(tr[0])
    && forall i: nat {:trigger Leads(tr, ls, i)} :: i < |ls| ==> Leads(tr, ls, i)
  }

  // ---- readiness is stable ----

  lemma CallStays(f: F.State, l: F.Label, c: F.CallId)
    requires F.Inv(f) && F.Enabled(f, l) && CallReady(f, c) && (l.Step? ==> l.c != c)
    ensures var t := F.Apply(f, l); CallReady(t, c) && t.calls[c] == f.calls[c]
  {
    var t := F.Apply(f, l);
    F.ApplyKeepsInv(f, l);
    if l.Step? {
      R.StepFrame(f, l.c, l.x, f.calls[c].key);
    }
    assert t.calls[c] == f.calls[c];
    match f.calls[c].pc
    case Join(p) => assert F.SlotOf(f, p).Some? && F.SlotOf(t, p) == F.SlotOf(f, p);
    case AwaitArchive(_, ch) => R.ReturnedStep(f, l, ch);
    case _ =>
  }

  lemma WorkerStays(s: B.State, l: B.Label, i: B.Id)
    requires B.Enabled(s, l) && i in s.workers && s.workers[i].phase != B.Sleeping
    requires OutsideLabel(l) || ClientLabel(l) || l.id != i
    ensures var t := B.Apply(s, l); i in t.workers && t.workers[i] == s.workers[i]
  {
  }

  lemma DrainStays(s: B.State, l: B.Label)
    requires B.Enabled(s, l) && s.drain == B.DrainChecking && !l.DrainCheck?
    ensures B.Apply(s, l).drain == B.DrainChecking
  {
  }

  lemma RaisesMove(s: B.State, l: B.Label)
    requires B.Enabled(s, l)
    ensures B.Apply(s, l).raises == s.raises + (if l.SetMax? then 1 else 0) - (if l.NotifyAll? then 1 else 0)
  {
  }

  // ---- the invariant is kept ----

  /** An agent that stays where it is stays in order. */
  lemma RegionStays(w: World, v: World, a: Agent)
    requires a in w.regions && RegionOk(w, a) && a in v.regions && v.regions[a] == w.regions[a]
    requires Ready(v, a) && forall p :: ScriptOf(v, a, p) == ScriptOf(w, a, p)
    ensures RegionOk(v, a)
  {
  }

  lemma AgentStaysInFlight(w: World, l: F.Label, v: World, a: Agent)
    requires Inv(w) && F.Enabled(w.flight, l) && a in w.regions && Ready(w, a) && (l.Step? ==> a != OfCall(l.c))
    requires v.flight == F.Apply(w.flight, l) && v.slots == w.slots && v.clients == w.clients
    requires forall i :: i in w.jobs ==> i in v.jobs && v.jobs[i] == w.jobs[i]
    ensures Ready(v, a) && forall p :: ScriptOf(v, a, p) == ScriptOf(w, a, p)
  {
    match a
    case OfCall(c) => CallStays(w.flight, l, c);
    case OfWorker(i) =>
      if i in w.jobs && JobDone(w, i) {
        R.ReturnedStep(w.flight, l, w.jobs[i]);
      }
    case OfClient(_) =>
    case Destructor =>
  }

  /** A change of the flight table leaves every other region as it is. */
  lemma FlightStep(w: World, l: F.Label, jobs: map<B.Id, F.CallId>, regions: map<Agent, Region>)
    requires Inv(w) && F.Enabled(w.flight, l)
    requires forall a :: a in regions ==> a in w.regions && regions[a] == w.regions[a]
    requires l.Step? ==> OfCall(l.c) !in regions
    requires forall i :: i in w.jobs ==> i in jobs && jobs[i] == w.jobs[i]
    requires forall i :: i in jobs && i !in w.jobs ==> jobs[i] in F.Apply(w.flight, l).calls
    ensures Inv(w.(flight := F.Apply(w.flight, l), jobs := jobs, regions := regions))
  {
    var v := w.(flight := F.Apply(w.flight, l), jobs := jobs, regions := regions);
    F.ApplyKeepsInv(w.flight, l);
    forall a | a in v.regions
      ensures RegionOk(v, a)
    {
      assert RegionOk(w, a);
      AgentStaysInFlight(w, l, v, a);
      RegionStays(w, v, a);
    }
    assert forall a, m :: Held(v, a, m) ==> Held(w, a, m);
    assert forall i :: i in w.jobs ==> F.CallFor(v.flight, w.jobs[i], w.flight.calls[w.jobs[i]].key);
  }

  /** So does a change of the semaphore, with the clients that are not finishing. */
  lemma SlotStep(w: World, l: B.Label, clients: map<ClientId, Op>, regions: map<Agent, Region>)
    requires Inv(w) && B.Enabled(w.slots, l)
    requires forall a :: a in regions ==> a in w.regions && regions[a] == w.regions[a]
    requires OutsideLabel(l) || ClientLabel(l) || OfWorker(l.id) !in regions
    requires l.DrainCheck? ==> Destructor !in regions
    requires forall k :: OfClient(k) in regions && k in w.clients ==> k in clients && clients[k] == w.clients[k]
    requires |Notifiers(clients)| ==
             |Notifiers(w.clients)| + (if l.SetMax? then 1 else 0) - (if l.NotifyAll? then 1 else 0)
    ensures Inv(w.(slots := B.Apply(w.slots, l), clients := clients, regions := regions))
  {
    var v := w.(slots := B.Apply(w.slots, l), clients := clients, regions := regions);
    B.CountsKept(w.slots, l);
    B.PendingKept(w.slots, l);
    B.DrainKept(w.slots, l);
    RaisesMove(w.slots, l);
    forall a | a in v.regions
      ensures RegionOk(v, a)
    {
      assert RegionOk(w, a);
      if a.OfWorker? {
        WorkerStays(w.slots, l, a.w);
      } else if a.Destructor? {
        DrainStays(w.slots, l);
      }
      RegionStays(w, v, a);
    }
    assert forall a, m :: Held(v, a, m) ==> Held(w, a, m);
  }

  /** Clients come and go without touching the regions of others. */
  lemma ClientStep(w: World, clients: map<ClientId, Op>, regions: map<Agent, Region>)
    requires Inv(w)
    requires forall a :: a in regions ==> a in w.regions && regions[a] == w.regions[a]
    requires forall k :: OfClient(k) in regions && k in w.clients ==> k in clients && clients[k] == w.clients[k]
    requires |Notifiers(clients)| == |Notifiers(w.clients)|
    ensures Inv(w.(clients := clients, regions := regions))
  {
    var v := w.(clients := clients, regions := regions);
    forall a | a in v.regions
      ensures RegionOk(v, a)
    {
      assert RegionOk(w, a);
      RegionStays(w, v, a);
    }
    assert forall a, m :: Held(v, a, m) ==> Held(w, a, m);
  }

  lemma AdvancedFits(r: Region, script: seq<LockOp>)
    requires Fits(r, script) && r.ahead != [] && (r.ahead[0].Release? ==> r.held != [])
    ensures Fits(Advanced(r), script)
  {
    if IsRest(r.ahead, script, r.done) {
      assert script[r.done..][1..] == script[r.done + 1..];
      assert IsRest(Advanced(r).ahead, script, r.done + 1);
    } else {
      assert Advanced(r).ahead == Releases(|r.held| - 1);
    }
  }

  lemma UnwindStep(w: World, a: Agent)
    requires Inv(w) && Enabled(w, Unwind(a))
    ensures Inv(Apply(w, Unwind(a)))
  {
    var v := Apply(w, Unwind(a));
    ReleasesAreLegal(w.regions[a].held);
    forall b | b in v.regions
      ensures RegionOk(v, b)
    {
      assert RegionOk(w, b);
      if b != a {
        RegionStays(w, v, b);
      }
    }
    assert forall b, m :: Held(v, b, m) ==> Held(w, b, m);
  }

  lemma LockKeepsExclusion(w: World, a: Agent, v: World)
    requires Inv(w) && Enabled(w, Lock(a)) && v == w.(regions := w.regions[a := Advanced(w.regions[a])])
    ensures forall b, d, m :: Held(v, b, m) && Held(v, d, m) ==> b == d
  {
    forall b, d, m | Held(v, b, m) && Held(v, d, m)
      ensures b == d
    {
      assert Held(w, b, m) || (b == a && w.regions[a].ahead[0] == Acquire(m));
      assert Held(w, d, m) || (d == a && w.regions[a].ahead[0] == Acquire(m));
    }
  }

  lemma LockStep(w: World, a: Agent)
    requires Inv(w) && Enabled(w, Lock(a))
    ensures Inv(Apply(w, Lock(a)))
  {
    var v := Apply(w, Lock(a));
    LockKeepsExclusion(w, a, v);
    forall b | b in v.regions
      ensures RegionOk(v, b)
    {
      assert RegionOk(w, b);
      if b == a {
        AdvancedFits(w.regions[a], ScriptOf(w, a, w.regions[a].path));
      } else {
        RegionStays(w, v, b);
      }
    }
  }

  /** The code's own scripts are legal: this is where the lock order comes from. */
  lemma ScriptIsLegal(w: World, a: Agent, p: Path)
    requires Ready(w, a)
    ensures Legal([], ScriptOf(w, a, p))
  {
    match a
    case OfCall(c) => CallScriptIsLegal(w.flight.calls[c].pc, p);
    case OfWorker(i) => WorkerScriptIsLegal(w.slots.workers[i], p);
    case OfClient(k) => ClientScriptIsLegal(w.clients[k], p);
    case Destructor => DrainScriptIsLegal();
  }

  lemma EnterStep(w: World, a: Agent, p: Path)
    requires Inv(w) && Enabled(w, Enter(a, p))
    ensures Inv(Apply(w, Enter(a, p)))
  {
    var v := Apply(w, Enter(a, p));
    ScriptIsLegal(w, a, p);
    assert IsRest(ScriptOf(w, a, p), ScriptOf(w, a, p), 0);
    forall b | b in v.regions
      ensures RegionOk(v, b)
    {
      if b != a {
        assert RegionOk(w, b);
        RegionStays(w, v, b);
      }
    }
    assert forall b, m :: Held(v, b, m) ==> Held(w, b, m);
  }

  lemma OneMoreNotifier(clients: map<ClientId, Op>, k: ClientId)
    requires k in clients && clients[k].SetMaxLoads?
    ensures |Notifiers(NextClients(clients, k))| == |Notifiers(clients)| + 1
  {
    assert Notifiers(NextClients(clients, k)) == Notifiers(clients) + {k};
  }

  lemma OneLessNotifier(clients: map<ClientId, Op>, k: ClientId)
    requires k in clients && clients[k].NotifyWaiters?
    ensures |Notifiers(NextClients(clients, k))| == |Notifiers(clients)| - 1
  {
    assert k in Notifiers(clients) && Notifiers(NextClients(clients, k)) == Notifiers(clients) - {k};
  }

  lemma SameNotifiers(clients: map<ClientId, Op>, k: ClientId)
    requires k in clients && !clients[k].SetMaxLoads? && !clients[k].NotifyWaiters?
    ensures Notifiers(NextClients(clients, k)) == Notifiers(clients)
  {
  }

  lemma NotifiersMove(clients: map<ClientId, Op>, k: ClientId)
    requires k in clients
    ensures |Notifiers(NextClients(clients, k))| ==
            |Notifiers(clients)| + (if clients[k].SetMaxLoads? then 1 else 0)
            - (if clients[k].NotifyWaiters? then 1 else 0)
  {
    match clients[k]
    case SetMaxLoads(_) => OneMoreNotifier(clients, k);
    case NotifyWaiters => OneLessNotifier(clients, k);
    case _ => SameNotifiers(clients, k);
  }

  lemma BeginStep(w: World, k: ClientId, op: Op)
    requires Inv(w) && Enabled(w, Begin(k, op))
    ensures Inv(Apply(w, Begin(k, op)))
  {
    assert Notifiers(w.clients[k := op]) == Notifiers(w.clients);
    ClientStep(w, w.clients[k := op], w.regions);
  }

  lemma FinishClientStep(w: World, k: ClientId, go: bool)
    requires Inv(w) && Enabled(w, FinishClient(k, go))
    ensures Inv(Apply(w, FinishClient(k, go)))
  {
    var clients, regions := NextClients(w.clients, k), w.regions - {OfClient(k)};
    NotifiersMove(w.clients, k);
    match EventOf(w.slots, w.clients[k], go)
    case Some(e) => SlotStep(w, e, clients, regions);
    case None => ClientStep(w, clients, regions);
  }

  lemma FinishKeepsInv(w: World, l: Label)
    requires Inv(w) && Enabled(w, l) && (l.FinishCall? || l.FinishWorker? || l.FinishClient? || l.FinishDrain?)
    ensures Inv(Apply(w, l))
  {
    match l
    case FinishCall(c, x) => FlightStep(w, F.Step(c, x), w.jobs, w.regions - {OfCall(c)});
    case FinishWorker(b) => SlotStep(w, b, w.clients, w.regions - {OfWorker(b.id)});
    case FinishClient(k, go) => FinishClientStep(w, k, go);
    case FinishDrain => SlotStep(w, B.DrainCheck, w.clients, w.regions - {Destructor});
  }

  lemma ArrivalKeepsInv(w: World, l: Label)
    requires Inv(w) && Enabled(w, l) && (l.Arrive? || l.Background? || l.RunJob? || l.Begin?)
    ensures Inv(Apply(w, l))
  {
    match l
    case Arrive(f) => FlightStep(w, f, w.jobs, w.regions);
    case Background(b) => SlotStep(w, b, w.clients, w.regions);
    case RunJob(i, c) =>
      FlightStep(w, F.Start(c, Key(DesignKind, w.slots.workers[i].job.name)), w.jobs[i := c], w.regions);
    case Begin(k, op) => BeginStep(w, k, op);
  }

  lemma ApplyKeepsInv(w: World, l: Label)
    requires Inv(w) && Enabled(w, l)
    ensures Inv(Apply(w, l))
  {
    match l
    case Enter(a, p) => EnterStep(w, a, p);
    case Lock(a) => LockStep(w, a);
    case Unwind(a) => UnwindStep(w, a);
    case Arrive(_) => ArrivalKeepsInv(w, l);
    case Background(_) => ArrivalKeepsInv(w, l);
    case RunJob(_, _) => ArrivalKeepsInv(w, l);
    case Begin(_, _) => ArrivalKeepsInv(w, l);
    case _ => FinishKeepsInv(w, l);
  }

  lemma {:induction false} InvAlways(tr: seq<World>, ls: seq<Label>, i: nat)
    requires Run(tr, ls) && i < |tr|
    ensures Inv(tr[i])
  {
    if i > 0 {
      InvAlways(tr, ls, i - 1);
      assert Leads(tr, ls, i - 1);
      ApplyKeepsInv(tr[i-1], ls[i-1]);
    }
  }

  /** In every reachable state a mutex has at most one holder, whoever holds several took
      them in the documented order, and nobody who waits for a future, a nested call or a
      slot holds any. */
  lemma LockOrderIsKept(tr: seq<World>, ls: seq<Label>, i: nat)
    requires Run(tr, ls) && i < |tr|
    ensures forall a, b, m :: Held(tr[i], a, m) && Held(tr[i], b, m) ==> a == b
    ensures forall a :: a in tr[i].regions ==> Ready(tr[i], a) && Nested(tr[i].regions[a].held)
  {
    InvAlways(tr, ls, i);
    forall a | a in tr[i].regions
      ensures Ready(tr[i], a) && Nested(tr[i].regions[a].held)
    {
      assert RegionOk(tr[i], a);
    }
  }
}
