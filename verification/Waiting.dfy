/** Who waits for whom. In every reachable state the relation is well-founded, a thread that
    cannot take its own next step waits for an unfinished one, and so every chain of waiting
    threads ends at one that can step. */
module Waiting {
  import opened Basics
  import opened CacheKeys
  import opened LockScripts
  import opened Deadlock
  import F = SingleFlight
  import B = BackgroundSlots

  // ---- the relation ----

  predicate Unfinished(w: World, a: Agent) {
    match a
    case OfCall(c) => c in w.flight.calls && !w.flight.calls[c].pc.Returned?
    case OfWorker(i) => i in w.slots.workers && w.slots.workers[i].phase != B.Gone
    case OfClient(k) => k in w.clients
    case Destructor => w.slots.drain == B.DrainChecking || w.slots.drain == B.DrainSleeping
  }

  /** The labels by which the agent itself goes on. */
  predicate Own(l: Label, a: Agent) {
    match l
    case Enter(b, _) => a == b
    case Lock(b) => a == b
    case RunJob(i, _) => a == OfWorker(i)
    case FinishCall(c, _) => a == OfCall(c)
    case FinishWorker(e) => !OutsideLabel(e) && !ClientLabel(e) && a == OfWorker(e.id)
    case FinishClient(k, _) => a == OfClient(k)
    case FinishDrain => a == Destructor
    case _ => false
  }

  ghost predicate CanStep(w: World, a: Agent) {
    exists l :: Own(l, a) && Enabled(w, l)
  }

  /** a wants the mutex that b holds. */
  ghost predicate WantsFrom(w: World, a: Agent, b: Agent) {
    && a in w.regions && w.regions[a].ahead != [] && w.regions[a].ahead[0].Acquire?
    && Held(w, b, w.regions[a].ahead[0].m)
  }

  /** The call waits for a future that is not set, or for its nested archive call. */
  predicate CallWaitsFor(w: World, c: F.CallId, b: Agent) {
    && c in w.flight.calls && !CallReady(w.flight, c)
    && match w.flight.calls[c].pc
       case Join(l) => b == OfCall(l)
       case AwaitArchive(_, ch) => b == OfCall(ch)
       case _ => false
  }

  /** A load worker waits for the call it runs; a sleeper for whoever has the slots, is
      about to look for one, or is about to wake sleepers. */
  predicate WorkerWaitsFor(w: World, i: B.Id, b: Agent) {
    && i in w.slots.workers && !WorkerReady(w, i)
    && match w.slots.workers[i].phase
       case Holding => i in w.jobs && b == OfCall(w.jobs[i])
       case Sleeping => (b.OfWorker? && Stirring(w.slots, b.w)) || (b.OfClient? && b.k in Notifiers(w.clients))
       case _ => false
  }

  predicate Stirring(s: B.State, i: B.Id) {
    B.In(s, i, B.Holding) || B.In(s, i, B.Waking) || B.In(s, i, B.Checking)
  }

  /** The sleeping destructor waits for every worker that has not gone. */
  predicate DrainWaitsFor(w: World, b: Agent) {
    w.slots.drain == B.DrainSleeping && b.OfWorker? && Unfinished(w, b)
  }

  ghost predicate WaitsFor(w: World, a: Agent, b: Agent) {
    || WantsFrom(w, a, b)
    || match a
       case OfCall(c) => CallWaitsFor(w, c, b)
       case OfWorker(i) => WorkerWaitsFor(w, i, b)
       case OfClient(_) => false
       case Destructor => DrainWaitsFor(w, b)
  }

  // ---- it is well-founded ----

  /** How far the mutex wanted next is from the top of the lock order. */
  function LockDepth(r: Region): nat {
    if r.ahead != [] && r.ahead[0].Acquire? then 1 + MAX_RANK - Rank(r.ahead[0].m) else 0
  }

  /** Archive loader, archive joiner, design loader, design joiner. */
  function CallDepth(call: F.Call): nat {
    (if call.key.kind.DesignKind? then 2 else 0) + (if call.pc.Join? then 1 else 0)
  }

  function WorkerDepth(k: B.Worker): nat {
    if k.phase == B.Sleeping then 5 else 4
  }

  /** The documented hierarchy: mutexes by rank, then calls, slot holders, slot waiters and
      the destructor. */
  function WaitRank(w: World, a: Agent): nat {
    if a in w.regions then LockDepth(w.regions[a])
    else
      2 + MAX_RANK +
      match a
      case OfCall(c) => if c in w.flight.calls then CallDepth(w.flight.calls[c]) else 0
      case OfWorker(i) => if i in w.slots.workers then WorkerDepth(w.slots.workers[i]) else 0
      case OfClient(_) => 0
      case Destructor => 6
  }

  lemma RegionRank(w: World, a: Agent)
    requires a in w.regions
    ensures WaitRank(w, a) < 2 + MAX_RANK
  {
  }

  lemma ReadyIsUnfinished(w: World, a: Agent)
    requires Ready(w, a)
    ensures Unfinished(w, a)
  {
  }

  /** The holder of a wanted mutex can itself only want one higher in the order. */
  lemma WantsLower(w: World, a: Agent, b: Agent)
    requires Inv(w) && WantsFrom(w, a, b)
    ensures WaitRank(w, b) < WaitRank(w, a) && Unfinished(w, b)
  {
    assert RegionOk(w, b);
    ReadyIsUnfinished(w, b);
    HolderWantsHigher(w.regions[b], w.regions[a].ahead[0].m);
  }

  lemma HolderWantsHigher(r: Region, m: Mutex)
    requires m in r.held && Legal(r.held, r.ahead)
    ensures LockDepth(r) < 1 + MAX_RANK - Rank(m)
  {
    if r.ahead != [] && r.ahead[0].Acquire? {
      var i :| 0 <= i < |r.held| && r.held[i] == m;
      assert MayNest(r.held[i], r.ahead[0].m);
    }
  }

  /** A thread inside a step waits for a mutex or for nothing. */
  lemma InsideIsReady(w: World, a: Agent, b: Agent)
    requires Inv(w) && a in w.regions && WaitsFor(w, a, b)
    ensures WantsFrom(w, a, b)
  {
    assert RegionOk(w, a);
  }

  lemma CallWaitsLower(w: World, c: F.CallId, b: Agent)
    requires Inv(w) && CallWaitsFor(w, c, b) && OfCall(c) !in w.regions
    ensures WaitRank(w, b) < WaitRank(w, OfCall(c)) && Unfinished(w, b)
  {
    var f := w.flight;
    assert F.CallOk(f, c);
    if f.calls[c].pc.Join? {
      assert F.CallOk(f, f.calls[c].pc.loader);
    }
    if b in w.regions {
      RegionRank(w, b);
    }
  }

  lemma WorkerWaitsLower(w: World, i: B.Id, b: Agent)
    requires Inv(w) && WorkerWaitsFor(w, i, b) && OfWorker(i) !in w.regions
    ensures WaitRank(w, b) < WaitRank(w, OfWorker(i)) && Unfinished(w, b)
  {
    if b in w.regions {
      RegionRank(w, b);
    }
  }

  lemma DrainWaitsLower(w: World, b: Agent)
    requires Inv(w) && DrainWaitsFor(w, b) && Destructor !in w.regions
    ensures WaitRank(w, b) < WaitRank(w, Destructor) && Unfinished(w, b)
  {
    if b in w.regions {
      RegionRank(w, b);
    }
  }

  lemma WaitsLower(w: World, a: Agent, b: Agent)
    requires Inv(w) && WaitsFor(w, a, b)
    ensures WaitRank(w, b) < WaitRank(w, a) && Unfinished(w, b)
  {
    if a in w.regions {
      InsideIsReady(w, a, b);
    }
    if WantsFrom(w, a, b) {
      WantsLower(w, a, b);
    } else {
      match a
      case OfCall(c) => CallWaitsLower(w, c, b);
      case OfWorker(i) => WorkerWaitsLower(w, i, b);
      case Destructor => DrainWaitsLower(w, b);
    }
  }

  // ---- whoever cannot step waits for somebody ----

  lemma Steps(w: World, a: Agent, l: Label)
    requires Own(l, a) && Enabled(w, l)
    ensures CanStep(w, a)
  {
  }

  /** A worker whose critical section is over has a next step of its own. */
  lemma WorkerNext(w: World, i: B.Id) returns (l: B.Label)
    requires WorkerReady(w, i)
    ensures !OutsideLabel(l) && !ClientLabel(l) && B.Enabled(w.slots, l) && l.id == i
  {
    match w.slots.workers[i].phase
    case Kicked => l := B.Count(i);
    case Counted => l := B.Spawn(i);
    case Checking => l := B.TrySlot(i);
    case Holding => l := B.Release(i);
    case Waking =>
      if B.Members(w.slots.workers, {B.Sleeping}) == {} {
        l := B.NotifyNobody(i);
      } else {
        var t :| t in B.Members(w.slots.workers, {B.Sleeping});
        l := B.NotifyOne(i, t);
      }
    case Unmarking => l := B.Unmark(i);
    case AbortUnmark => l := B.Unmark(i);
    case Leaving => l := B.Leave(i);
    case Signalling => l := B.Signal(i);
    case AbortSignal => l := B.Signal(i);
  }

  /** At the end of its script a thread takes the step itself. */
  lemma FinishSteps(w: World, a: Agent)
    requires Inv(w) && a in w.regions && w.regions[a].ahead == []
    ensures CanStep(w, a)
  {
    assert RegionOk(w, a);
    match a
    case OfCall(c) =>
      var pc := w.flight.calls[c].pc;
      Steps(w, a, FinishCall(c, if pc.Parse? || pc.Assemble? then F.Missing else F.Go));
    case OfWorker(i) =>
      var l := WorkerNext(w, i);
      Steps(w, a, FinishWorker(l));
    case OfClient(k) => Steps(w, a, FinishClient(k, true));
    case Destructor => Steps(w, a, FinishDrain);
  }

  /** Inside a step: the next lock operation is possible, or somebody holds the mutex. */
  lemma InsideStepsOrWaits(w: World, a: Agent)
    requires Inv(w) && a in w.regions
    ensures CanStep(w, a) || exists b :: WaitsFor(w, a, b)
  {
    assert RegionOk(w, a);
    var r := w.regions[a];
    if r.ahead == [] {
      FinishSteps(w, a);
    } else if r.ahead[0].Release? || forall b :: !Held(w, b, r.ahead[0].m) {
      Steps(w, a, Lock(a));
    } else {
      var b :| Held(w, b, r.ahead[0].m);
      assert WaitsFor(w, a, b);
    }
  }

  const SHORTEST: Path := Path(false, false, 1, 0, 0, 0)

  /** A ready thread that is not inside its step can enter it, whatever path it takes. */
  lemma ReadyEnters(w: World, a: Agent, p: Path)
    requires Ready(w, a) && a !in w.regions
    ensures Enabled(w, Enter(a, p)) && CanStep(w, a)
  {
    Steps(w, a, Enter(a, p));
  }

  lemma UnreadyCallWaits(w: World, c: F.CallId)
    requires Inv(w) && Unfinished(w, OfCall(c)) && !Ready(w, OfCall(c))
    ensures exists b :: WaitsFor(w, OfCall(c), b)
  {
    match w.flight.calls[c].pc
    case Join(l) => assert WaitsFor(w, OfCall(c), OfCall(l));
    case AwaitArchive(_, ch) => assert WaitsFor(w, OfCall(c), OfCall(ch));
  }

  /** No sleeper is forgotten: somebody stirs, or a notification of all is on its way. */
  lemma SleeperWaits(w: World, i: B.Id)
    requires Inv(w) && B.In(w.slots, i, B.Sleeping)
    ensures exists b :: WaitsFor(w, OfWorker(i), b)
  {
    var s := w.slots;
    if s.raises > 0 {
      assert Notifiers(w.clients) != {};
      var k :| k in Notifiers(w.clients);
      assert WaitsFor(w, OfWorker(i), OfClient(k));
    } else {
      var h := SomebodyStirs(s, i);
      assert WaitsFor(w, OfWorker(i), OfWorker(h));
    }
  }

  lemma SomebodyStirs(s: B.State, i: B.Id) returns (h: B.Id)
    requires B.Inv(s) && s.raises == 0 && B.In(s, i, B.Sleeping)
    ensures Stirring(s, h)
  {
    assert i in B.Members(s.workers, {B.Sleeping});
    if B.Members(s.workers, {B.Holding}) != {} {
      h :| h in B.Members(s.workers, {B.Holding});
    } else if B.Members(s.workers, {B.Waking}) != {} {
      h :| h in B.Members(s.workers, {B.Waking});
    } else {
      B.Emptiness(s.workers, {B.Checking});
      h :| h in B.Members(s.workers, {B.Checking});
    }
  }

  lemma UnreadyWorkerStepsOrWaits(w: World, i: B.Id)
    requires Inv(w) && Unfinished(w, OfWorker(i)) && !Ready(w, OfWorker(i))
    ensures CanStep(w, OfWorker(i)) || exists b :: WaitsFor(w, OfWorker(i), b)
  {
    if B.In(w.slots, i, B.Sleeping) {
      SleeperWaits(w, i);
    } else if i in w.jobs {
      assert WaitsFor(w, OfWorker(i), OfCall(w.jobs[i]));
    } else {
      var c := Unused(w.flight.calls.Keys);
      Steps(w, OfWorker(i), RunJob(i, c));
    }
  }

  lemma SleepingDestructorWaits(w: World)
    requires Inv(w) && w.slots.drain == B.DrainSleeping
    ensures exists b :: WaitsFor(w, Destructor, b)
  {
    var s := w.slots;
    if s.outstanding == 0 {
      var i :| B.Announcing(s, i);
      assert WaitsFor(w, Destructor, OfWorker(i));
    } else {
      assert B.Members(s.workers, B.LIVE) != {};
      var i :| i in B.Members(s.workers, B.LIVE);
      assert WaitsFor(w, Destructor, OfWorker(i));
    }
  }

  lemma StepsOrWaits(w: World, a: Agent)
    requires Inv(w) && Unfinished(w, a)
    ensures CanStep(w, a) || exists b :: WaitsFor(w, a, b)
  {
    if a in w.regions {
      InsideStepsOrWaits(w, a);
    } else if Ready(w, a) {
      ReadyEnters(w, a, SHORTEST);
    } else {
      match a
      case OfCall(c) => UnreadyCallWaits(w, c);
      case OfWorker(i) => UnreadyWorkerStepsOrWaits(w, i);
      case Destructor => SleepingDestructorWaits(w);
    }
  }

  // ---- every run ----

  /** The wait-for relation is well-founded in every reachable state: each wait leads to an
      unfinished thread of lower rank. */
  lemma WaitingIsWellFounded(tr: seq<World>, ls: seq<Label>, i: nat, a: Agent, b: Agent)
    requires Run(tr, ls) && i < |tr| && WaitsFor(tr[i], a, b)
    ensures WaitRank(tr[i], b) < WaitRank(tr[i], a) && Unfinished(tr[i], b)
  {
    InvAlways(tr, ls, i);
    WaitsLower(tr[i], a, b);
  }

  /** A thread that is not finished can take its own next step, or waits for somebody. */
  lemma NobodyStallsAlone(tr: seq<World>, ls: seq<Label>, i: nat, a: Agent)
    requires Run(tr, ls) && i < |tr| && Unfinished(tr[i], a)
    ensures CanStep(tr[i], a) || exists b :: WaitsFor(tr[i], a, b)
  {
    InvAlways(tr, ls, i);
    StepsOrWaits(tr[i], a);
  }

  /** Each of the agents waits for the next. */
  ghost predicate Chain(w: World, agents: seq<Agent>) {
    agents != [] && forall i :: 0 <= i < |agents| - 1 ==> WaitsFor(w, agents[i], agents[i+1])
  }

  lemma {:induction false} ChainFalls(w: World, agents: seq<Agent>, j: nat)
    requires Inv(w) && Chain(w, agents) && j < |agents|
    ensures WaitRank(w, agents[j]) + j <= WaitRank(w, agents[0])
  {
    if j > 0 {
      ChainFalls(w, agents, j - 1);
      assert WaitsFor(w, agents[j-1], agents[(j-1)+1]);
      WaitsLower(w, agents[j-1], agents[j]);
    }
  }

  /** No thread waits for itself, directly or through others, and no chain of waiting
      threads has more than ten members. */
  lemma NoCircularWait(tr: seq<World>, ls: seq<Label>, i: nat, agents: seq<Agent>)
    requires Run(tr, ls) && i < |tr| && Chain(tr[i], agents)
    ensures |agents| <= 10
    ensures forall j, k :: 0 <= j < k < |agents| ==> agents[j] != agents[k]
  {
    InvAlways(tr, ls, i);
    var w := tr[i];
    ChainFalls(w, agents, |agents| - 1);
    forall j, k | 0 <= j < k < |agents|
      ensures agents[j] != agents[k]
    {
      ChainFalls(w, agents[j..], k - j);
      assert agents[j..][k - j] == agents[k];
    }
  }

  lemma {:induction false} ChainToAStep(w: World, a: Agent) returns (agents: seq<Agent>)
    requires Inv(w) && Unfinished(w, a)
    ensures Chain(w, agents) && agents[0] == a && CanStep(w, agents[|agents|-1])
    ensures forall j :: 0 <= j < |agents| ==> Unfinished(w, agents[j])
    decreases WaitRank(w, a)
  {
    StepsOrWaits(w, a);
    if CanStep(w, a) {
      agents := [a];
    } else {
      var b :| WaitsFor(w, a, b);
      WaitsLower(w, a, b);
      var rest := ChainToAStep(w, b);
      agents := [a] + rest;
      forall i | 0 <= i < |agents| - 1
        ensures WaitsFor(w, agents[i], agents[i+1])
      {
        assert i > 0 ==> WaitsFor(w, rest[i-1], rest[(i-1)+1]);
      }
    }
  }

  /** Deadlock freedom: from every unfinished call, worker, client operation or destructor,
      in every reachable state, the chain of those it waits for reaches one that can take
      its own next step. */
  lemma NoDeadlock(tr: seq<World>, ls: seq<Label>, i: nat, a: Agent) returns (agents: seq<Agent>)
    requires Run(tr, ls) && i < |tr| && Unfinished(tr[i], a)
    ensures Chain(tr[i], agents) && agents[0] == a && CanStep(tr[i], agents[|agents|-1])
    ensures forall j :: 0 <= j < |agents| ==> Unfinished(tr[i], agents[j])
  {
    InvAlways(tr, ls, i);
    agents := ChainToAStep(tr[i], a);
  }
}
