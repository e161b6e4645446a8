/** The background-load semaphore: worker threads that queue for a slot, run, release
    and leave, with condition-variable waits modelled down to the wake-ups. */
module BackgroundSlots {
  import opened CacheKeys

  type Id = nat

  datatype Job = Load(name: Name) | PreSerialize(name: Name)

  /** Kicked: pending marker set, not yet counted. Counted: counted, thread not spawned.
      Checking: about to evaluate the slot predicate. Sleeping: blocked in the wait.
      Waking: slot given back, notify_one not issued yet. Unmarking: about to drop the
      pending marker. Leaving: about to leave the outstanding count. Signalling: left it,
      drain notification not issued yet. AbortSignal, AbortUnmark: the same two duties
      after a thread that could not be spawned. */
  datatype Phase =
    Kicked | Counted | Checking | Sleeping | Holding | Waking | Unmarking | Leaving | Signalling
    | AbortSignal | AbortUnmark | Gone

  datatype Worker = Worker(job: Job, phase: Phase)

  datatype Drain = Idle | DrainChecking | DrainSleeping | Drained

  datatype State = State(
    cap: nat,
    active: int,
    outstanding: int,
    pending: set<Name>,
    workers: map<Id, Worker>,
    raises: nat,        // cap changes whose notify_all is still to come
    drain: Drain)

  datatype Label =
    | Kick(id: Id, name: Name)
    | Schedule(id: Id, name: Name)
    | Count(id: Id)
    | Spawn(id: Id)
    | SpawnFails(id: Id)
    | TrySlot(id: Id)
    | Spurious(id: Id)
    | Release(id: Id)
    | NotifyOne(id: Id, target: Id)
    | NotifyNobody(id: Id)
    | Unmark(id: Id)
    | Leave(id: Id)
    | Signal(id: Id)
    | SetMax(cap: nat)
    | NotifyAll
    | DrainStart
    | DrainCheck

  const DEFAULT_MAX_BACKGROUND_LOADS: nat := 2

  /** The phases counted in the outstanding total. */
  const LIVE: set<Phase> := {Counted, Checking, Sleeping, Holding, Waking, Unmarking, Leaving}

  /** The phases in which a load's name is marked as pending. */
  const MARKED: set<Phase> :=
    {Kicked, Counted, Checking, Sleeping, Holding, Waking, Unmarking, AbortSignal, AbortUnmark}

  predicate Free(s: State) {
    s.cap == 0 || s.active < s.cap
  }

  function Members(ws: map<Id, Worker>, ps: set<Phase>): set<Id> {
    set i | i in ws && ws[i].phase in ps
  }

  predicate In(s: State, id: Id, p: Phase) {
    id in s.workers && s.workers[id].phase == p
  }

  function Put(s: State, id: Id, p: Phase): State
    requires id in s.workers
  {
    s.(workers := s.workers[id := s.workers[id].(phase := p)])
  }

  function WakeDrain(d: Drain): Drain {
    if d == DrainSleeping then DrainChecking else d
  }

  function AfterNotify(j: Job): Phase {
    if j.Load? then Unmarking else Leaving
  }

  predicate Init(s: State) {
    s == State(DEFAULT_MAX_BACKGROUND_LOADS, 0, 0, {}, map[], 0, Idle)
  }

  predicate Enabled(s: State, l: Label) {
    match l
    case Kick(id, name) => id !in s.workers && name !in s.pending
    case Schedule(id, _) => id !in s.workers
    case Count(id) => In(s, id, Kicked)
    case Spawn(id) => In(s, id, Counted)
    case SpawnFails(id) => In(s, id, Counted)
    case TrySlot(id) => In(s, id, Checking)
    case Spurious(id) => In(s, id, Sleeping)
    case Release(id) => In(s, id, Holding)
    case NotifyOne(id, target) => In(s, id, Waking) && In(s, target, Sleeping)
    case NotifyNobody(id) => In(s, id, Waking) && Members(s.workers, {Sleeping}) == {}
    case Unmark(id) => In(s, id, Unmarking) || In(s, id, AbortUnmark)
    case Leave(id) => In(s, id, Leaving)
    case Signal(id) => In(s, id, Signalling) || In(s, id, AbortSignal)
    case SetMax(_) => true
    case NotifyAll => s.raises > 0
    case DrainStart => s.drain == Idle
    case DrainCheck => s.drain == DrainChecking
  }

  function Apply(s: State, l: Label): State
    requires Enabled(s, l)
  {
    match l
    case Kick(id, name) => s.(pending := s.pending + {name}, workers := s.workers[id := Worker(Load(name), Kicked)])
    case Schedule(id, name) =>
      s.(outstanding := s.outstanding + 1, workers := s.workers[id := Worker(PreSerialize(name), Counted)])
    case Count(id) => Put(s, id, Counted).(outstanding := s.outstanding + 1)
    case Spawn(id) => Put(s, id, Checking)
    case SpawnFails(id) => Put(s, id, AbortSignal).(outstanding := s.outstanding - 1)
    case TrySlot(id) => if Free(s) then Put(s, id, Holding).(active := s.active + 1) else Put(s, id, Sleeping)
    case Spurious(id) => Put(s, id, Checking)
    case Release(id) => Put(s, id, Waking).(active := s.active - 1)
    case NotifyOne(id, target) => Put(Put(s, target, Checking), id, AfterNotify(s.workers[id].job))
    case NotifyNobody(id) => Put(s, id, AfterNotify(s.workers[id].job))
    case Unmark(id) =>
      Put(s, id, if s.workers[id].phase == Unmarking then Leaving else Gone).(
        pending := s.pending - {s.workers[id].job.name})
    case Leave(id) => Put(s, id, Signalling).(outstanding := s.outstanding - 1)
    case Signal(id) =>
      Put(s, id, if s.workers[id].phase == AbortSignal && s.workers[id].job.Load? then AbortUnmark else Gone).(
        drain := WakeDrain(s.drain))
    case SetMax(n) => s.(cap := n, raises := s.raises + 1)
    case NotifyAll =>
      s.(raises := s.raises - 1,
         workers := map i | i in s.workers ::
           if s.workers[i].phase == Sleeping then s.workers[i].(phase := Checking) else s.workers[i])
    case DrainStart => s.(drain := DrainChecking)
    case DrainCheck => s.(drain := if s.outstanding == 0 then Drained else DrainSleeping)
  }

  ghost predicate Leads(tr: seq<State>, ls: seq<Label>, i: nat) {
    i < |ls| && i + 1 < |tr| && Enabled(tr[i], ls[i]) && tr[i+1] == Apply(tr[i], ls[i])
  }

  ghost predicate Run(tr: seq<State>, ls: seq<Label>) {
    && |tr| == |ls| + 1
    && Init(tr[0])
    && forall i: nat {:trigger Leads(tr, ls, i)} :: i < |ls| ==> Leads(tr, ls, i)
  }

  // ---- the invariant ----

  /** The counters are what they say they are. */
  ghost predicate CountsOk(s: State) {
    && s.active == |Members(s.workers, {Holding})|
    && s.outstanding == |Members(s.workers, LIVE)|
  }

  /** If somebody sleeps, the free slots are covered one by one by wake-ups on the way:
      a notify not yet issued, or a worker awake and about to look. */
  ghost predicate WakeOk(s: State) {
    Members(s.workers, {Sleeping}) != {} && s.raises == 0 ==>
      s.cap > 0 && s.cap - s.active <= |Members(s.workers, {Waking})| + |Members(s.workers, {Checking})|
  }

  ghost predicate MarkedLoad(s: State, i: Id, n: Name) {
    i in s.workers && s.workers[i].job == Load(n) && s.workers[i].phase in MARKED
  }

  ghost predicate PendingOk(s: State) {
    && (forall i, n :: MarkedLoad(s, i, n) ==> n in s.pending)
    && (forall i, j, n :: MarkedLoad(s, i, n) && MarkedLoad(s, j, n) ==> i == j)
    && (forall n :: n in s.pending ==> exists i :: MarkedLoad(s, i, n))
    && (forall i :: i in s.workers && s.workers[i].job.PreSerialize? ==>
          s.workers[i].phase !in {Kicked, Unmarking, AbortUnmark})
  }

  /** A sleeping drain with nothing outstanding has a notification on the way. */
  ghost predicate DrainOk(s: State) {
    s.drain == DrainSleeping && s.outstanding == 0 ==> exists i :: Announcing(s, i)
  }

  ghost predicate Announcing(s: State, i: Id) {
    In(s, i, Signalling) || In(s, i, AbortSignal)
  }

  ghost predicate Inv(s: State) {
    CountsOk(s) && WakeOk(s) && PendingOk(s) && DrainOk(s)
  }

  // ---- counting ----

  function One(b: bool): nat {
    if b then 1 else 0
  }

  /** Setting one entry changes a tally by what the old and new entries contribute. */
  lemma TallySet(ws: map<Id, Worker>, id: Id, w: Worker, ps: set<Phase>)
    ensures |Members(ws[id := w], ps)| ==
      |Members(ws, ps)| - One(id in ws && ws[id].phase in ps) + One(w.phase in ps)
  {
    var a, b := Members(ws, ps), Members(ws[id := w], ps);
    assert b - {id} == a - {id};
    assert |a| == |a - {id}| + One(id in a);
    assert |b| == |b - {id}| + One(id in b);
  }

  /** All the tallies of the invariant after one worker moved from phase p to q. */
  lemma Tallies(s: State, id: Id, w: Worker)
    ensures var t := s.workers[id := w]; var old_ := s.workers;
      && |Members(t, {Holding})| == |Members(old_, {Holding})| - One(In(s, id, Holding)) + One(w.phase == Holding)
      && |Members(t, {Waking})| == |Members(old_, {Waking})| - One(In(s, id, Waking)) + One(w.phase == Waking)
      && |Members(t, {Checking})| == |Members(old_, {Checking})| - One(In(s, id, Checking)) + One(w.phase == Checking)
      && |Members(t, {Sleeping})| == |Members(old_, {Sleeping})| - One(In(s, id, Sleeping)) + One(w.phase == Sleeping)
      && |Members(t, LIVE)| ==
         |Members(old_, LIVE)| - One(id in s.workers && s.workers[id].phase in LIVE) + One(w.phase in LIVE)
  {
    TallySet(s.workers, id, w, {Holding});
    TallySet(s.workers, id, w, {Waking});
    TallySet(s.workers, id, w, {Checking});
    TallySet(s.workers, id, w, {Sleeping});
    TallySet(s.workers, id, w, LIVE);
  }

  // ---- preservation ----

  lemma Emptiness(ws: map<Id, Worker>, ps: set<Phase>)
    ensures Members(ws, ps) == {} <==> |Members(ws, ps)| == 0
  {
  }

  /** The step moves just one worker, to the given entry. */
  ghost predicate Moves(s: State, t: State, id: Id, w: Worker) {
    t.workers == s.workers[id := w] && (id in s.workers ==> w.job == s.workers[id].job)
  }

  /** Labels that move one worker and touch neither the cap nor its notifications. */
  predicate Single(l: Label) {
    !l.NotifyOne? && !l.SetMax? && !l.NotifyAll? && !l.DrainStart? && !l.DrainCheck?
  }

  /** Which phase each single move leaves and enters. */
  ghost predicate PhaseChange(s: State, l: Label, q: Phase)
    requires Single(l)
  {
    match l
    case Kick(_, _) => l.id !in s.workers && q == Kicked
    case Schedule(_, _) => l.id !in s.workers && q == Counted
    case Count(_) => In(s, l.id, Kicked) && q == Counted
    case Spawn(_) => In(s, l.id, Counted) && q == Checking
    case SpawnFails(_) => In(s, l.id, Counted) && q == AbortSignal
    case TrySlot(_) => In(s, l.id, Checking) && q == (if Free(s) then Holding else Sleeping)
    case Spurious(_) => In(s, l.id, Sleeping) && q == Checking
    case Release(_) => In(s, l.id, Holding) && q == Waking
    case NotifyNobody(_) => In(s, l.id, Waking) && (q == Unmarking || q == Leaving)
    case Unmark(_) => (In(s, l.id, Unmarking) && q == Leaving) || (In(s, l.id, AbortUnmark) && q == Gone)
    case Leave(_) => In(s, l.id, Leaving) && q == Signalling
    case Signal(_) => (In(s, l.id, Signalling) || In(s, l.id, AbortSignal)) && (q == Gone || q == AbortUnmark)
  }

  /** What a single move does to the workers and the counters. */
  ghost predicate Moved(s: State, l: Label, t: State)
    requires Single(l)
  {
    && l.id in t.workers && Moves(s, t, l.id, t.workers[l.id]) && t.cap == s.cap && t.raises == s.raises
    && t.active == s.active - One(l.Release?) + One(l.TrySlot? && Free(s))
    && t.outstanding == s.outstanding - One(l.Leave? || l.SpawnFails?) + One(l.Count? || l.Schedule?)
    && PhaseChange(s, l, t.workers[l.id].phase)
  }

  lemma SingleMoves(s: State, l: Label)
    requires Enabled(s, l) && Single(l)
    ensures Moved(s, l, Apply(s, l))
  {
  }

  lemma SingleActive(s: State, l: Label, t: State)
    requires s.active == |Members(s.workers, {Holding})| && Single(l) && Moved(s, l, t)
    ensures t.active == |Members(t.workers, {Holding})|
  {
    TallySet(s.workers, l.id, t.workers[l.id], {Holding});
  }

  lemma SingleOutstanding(s: State, l: Label, t: State)
    requires s.outstanding == |Members(s.workers, LIVE)| && Single(l) && Moved(s, l, t)
    ensures t.outstanding == |Members(t.workers, LIVE)|
  {
    TallySet(s.workers, l.id, t.workers[l.id], LIVE);
  }

  lemma SingleCounts(s: State, l: Label, t: State)
    requires CountsOk(s) && Single(l) && Moved(s, l, t)
    ensures CountsOk(t)
  {
    SingleActive(s, l, t);
    SingleOutstanding(s, l, t);
  }

  lemma SingleWakes(s: State, l: Label, t: State)
    requires WakeOk(s) && Single(l) && Moved(s, l, t)
    requires l.NotifyNobody? ==> Members(s.workers, {Sleeping}) == {}
    ensures WakeOk(t)
  {
    Tallies(s, l.id, t.workers[l.id]);
    Emptiness(s.workers, {Sleeping});
    Emptiness(t.workers, {Sleeping});
  }

  lemma NotifyOneCounts(s: State, id: Id, target: Id)
    requires Inv(s) && Enabled(s, NotifyOne(id, target))
    ensures CountsOk(Apply(s, NotifyOne(id, target))) && WakeOk(Apply(s, NotifyOne(id, target)))
  {
    var u := Put(s, target, Checking);
    Tallies(s, target, u.workers[target]);
    Tallies(u, id, u.workers[id].(phase := AfterNotify(s.workers[id].job)));
    Emptiness(s.workers, {Sleeping});
    assert target in Members(s.workers, {Sleeping});
  }

  lemma NotifyAllCounts(s: State)
    requires Inv(s) && Enabled(s, NotifyAll)
    ensures CountsOk(Apply(s, NotifyAll)) && WakeOk(Apply(s, NotifyAll))
  {
    var t := Apply(s, NotifyAll);
    assert Members(t.workers, {Sleeping}) == {};
    assert Members(t.workers, {Holding}) == Members(s.workers, {Holding});
    assert Members(t.workers, LIVE) == Members(s.workers, LIVE);
  }

  lemma CountsKept(s: State, l: Label)
    requires Inv(s) && Enabled(s, l)
    ensures CountsOk(Apply(s, l)) && WakeOk(Apply(s, l))
  {
    if Single(l) {
      SingleMoves(s, l);
      SingleCounts(s, l, Apply(s, l));
      SingleWakes(s, l, Apply(s, l));
    } else if l.NotifyOne? {
      NotifyOneCounts(s, l.id, l.target);
    } else if l.NotifyAll? {
      NotifyAllCounts(s);
    }
  }

  /** Only a kick marks a name and only the unmarking steps clear one. */
  lemma MarksKept(s: State, l: Label, i: Id, n: Name)
    requires Enabled(s, l) && !l.Kick? && !l.Unmark?
    ensures MarkedLoad(Apply(s, l), i, n) == MarkedLoad(s, i, n)
  {
  }

  lemma KickPending(s: State, l: Label)
    requires PendingOk(s) && Enabled(s, l) && l.Kick?
    ensures PendingOk(Apply(s, l))
  {
    var t := Apply(s, l);
    assert MarkedLoad(t, l.id, l.name);
    forall n | n in t.pending
      ensures exists i :: MarkedLoad(t, i, n)
    {
      if n != l.name {
        var i :| MarkedLoad(s, i, n);
        assert MarkedLoad(t, i, n);
      }
    }
    assert forall i, n :: MarkedLoad(t, i, n) ==> i == l.id || MarkedLoad(s, i, n);
  }

  lemma UnmarkPending(s: State, l: Label)
    requires PendingOk(s) && Enabled(s, l) && l.Unmark?
    ensures PendingOk(Apply(s, l))
  {
    var t := Apply(s, l);
    var m := s.workers[l.id].job.name;
    assert MarkedLoad(s, l.id, m);
    assert forall i, n :: MarkedLoad(t, i, n) ==> i != l.id && MarkedLoad(s, i, n);
    forall n | n in t.pending
      ensures exists i :: MarkedLoad(t, i, n)
    {
      var i :| MarkedLoad(s, i, n);
      assert MarkedLoad(t, i, n);
    }
  }

  lemma OtherPending(s: State, l: Label)
    requires PendingOk(s) && Enabled(s, l) && !l.Kick? && !l.Unmark?
    ensures PendingOk(Apply(s, l))
  {
    var t := Apply(s, l);
    assert t.pending == s.pending;
    forall i, n
      ensures MarkedLoad(t, i, n) == MarkedLoad(s, i, n)
    {
      MarksKept(s, l, i, n);
    }
  }

  lemma PendingKept(s: State, l: Label)
    requires PendingOk(s) && Enabled(s, l)
    ensures PendingOk(Apply(s, l))
  {
    if l.Kick? {
      KickPending(s, l);
    } else if l.Unmark? {
      UnmarkPending(s, l);
    } else {
      OtherPending(s, l);
    }
  }

  lemma DrainKept(s: State, l: Label)
    requires CountsOk(s) && DrainOk(s) && Enabled(s, l)
    ensures DrainOk(Apply(s, l))
  {
    var t := Apply(s, l);
    if t.drain == DrainSleeping && t.outstanding == 0 {
      if l.Leave? || l.SpawnFails? {
        assert Announcing(t, l.id);
      } else if s.outstanding == 0 && !l.DrainCheck? {
        var i :| Announcing(s, i);
        assert Announcing(t, i);
      }
    }
  }

  lemma {:induction false} InvAlways(tr: seq<State>, ls: seq<Label>, i: nat)
    requires Run(tr, ls) && i < |tr|
    ensures Inv(tr[i])
  {
    if i > 0 {
      InvAlways(tr, ls, i - 1);
      assert Leads(tr, ls, i - 1);
      CountsKept(tr[i-1], ls[i-1]);
      PendingKept(tr[i-1], ls[i-1]);
      DrainKept(tr[i-1], ls[i-1]);
    }
  }

  // ---- what every run guarantees ----

  /** The two counters are always the number of slot holders and of unfinished workers;
      neither ever goes below zero, and each acquisition respects the cap then in force. */
  lemma CountersAreExact(tr: seq<State>, ls: seq<Label>, i: nat)
    requires Run(tr, ls) && i < |tr|
    ensures tr[i].active == |Members(tr[i].workers, {Holding})|
    ensures tr[i].outstanding == |Members(tr[i].workers, LIVE)|
    ensures i < |ls| && ls[i].TrySlot? && In(tr[i+1], ls[i].id, Holding) ==>
              tr[i+1].cap == 0 || |Members(tr[i+1].workers, {Holding})| <= tr[i+1].cap
  {
    InvAlways(tr, ls, i);
    if i < |ls| {
      assert Leads(tr, ls, i);
      InvAlways(tr, ls, i + 1);
    }
  }

  /** A name never has two background loads at once. */
  lemma OneLiveLoadPerName(tr: seq<State>, ls: seq<Label>, i: nat, a: Id, b: Id, n: Name)
    requires Run(tr, ls) && i < |tr| && MarkedLoad(tr[i], a, n) && MarkedLoad(tr[i], b, n)
    ensures a == b
  {
    InvAlways(tr, ls, i);
  }

  /** No lost wake-up: a worker can only be asleep next to a free slot while a
      notification is still to be issued or another worker is awake and about to look. */
  lemma NoLostWakeup(tr: seq<State>, ls: seq<Label>, i: nat, sleeper: Id)
    requires Run(tr, ls) && i < |tr| && In(tr[i], sleeper, Sleeping) && Free(tr[i])
    ensures tr[i].raises > 0 || exists w :: In(tr[i], w, Waking) || In(tr[i], w, Checking)
  {
    var s := tr[i];
    InvAlways(tr, ls, i);
    assert sleeper in Members(s.workers, {Sleeping});
    if s.raises == 0 {
      if Members(s.workers, {Waking}) != {} {
        var w :| w in Members(s.workers, {Waking});
        assert In(s, w, Waking);
      } else {
        Emptiness(s.workers, {Checking});
        var w :| w in Members(s.workers, {Checking});
        assert In(s, w, Checking);
      }
    }
  }

  /** The destructor cannot sleep through the last departure. */
  lemma DrainIsWoken(tr: seq<State>, ls: seq<Label>, i: nat)
    requires Run(tr, ls) && i < |tr| && tr[i].drain == DrainSleeping
    ensures tr[i].outstanding > 0 || exists w :: Announcing(tr[i], w)
  {
    InvAlways(tr, ls, i);
  }

  ghost predicate Live(s: State, p: Id) {
    p in s.workers && s.workers[p].phase in LIVE
  }

  ghost predicate Serializer(s: State, p: Id) {
    p in s.workers && s.workers[p].job.PreSerialize?
  }

  lemma NeverAliveAgain(s: State, l: Label, p: Id)
    requires PendingOk(s) && Enabled(s, l) && Serializer(s, p)
    ensures Serializer(Apply(s, l), p)
    ensures Live(Apply(s, l), p) ==> Live(s, p)
  {
  }

  lemma LiveIsCounted(s: State, p: Id)
    requires CountsOk(s) && Live(s, p)
    ensures s.outstanding > 0
  {
    assert p in Members(s.workers, LIVE);
  }

  lemma {:induction false} SerializerStays(tr: seq<State>, ls: seq<Label>, i: nat, p: Id, n: Name, j: nat)
    requires Run(tr, ls) && i < j < |tr| && ls[i] == Schedule(p, n)
    ensures Serializer(tr[j], p)
    decreases j
  {
    assert Leads(tr, ls, j - 1);
    if i + 1 < j {
      SerializerStays(tr, ls, i, p, n, j - 1);
      InvAlways(tr, ls, j - 1);
      NeverAliveAgain(tr[j-1], ls[j-1], p);
    }
  }

  lemma WasLive(tr: seq<State>, ls: seq<Label>, i: nat, p: Id, n: Name, m: nat)
    requires Run(tr, ls) && i + 1 < m < |tr| && ls[i] == Schedule(p, n) && Live(tr[m], p)
    ensures Live(tr[m-1], p)
  {
    assert Leads(tr, ls, m - 1);
    InvAlways(tr, ls, m - 1);
    SerializerStays(tr, ls, i, p, n, m - 1);
    NeverAliveAgain(tr[m-1], ls[m-1], p);
  }

  lemma DrainWaits(s: State, l: Label)
    requires Enabled(s, l) && s.outstanding > 0 && s.drain != Drained
    ensures Apply(s, l).drain != Drained
  {
  }

  /** From the moment a load schedules a pre-serialization until that worker leaves, the
      outstanding count never touches zero and the destructor does not get past its
      drain: the scheduling load is itself still counted when the new worker is added. */
  lemma {:induction false} NoGapBeforePreSerialization(
    tr: seq<State>, ls: seq<Label>, i: nat, w: Id, p: Id, n: Name, m: nat)
    requires Run(tr, ls) && i < m < |tr| && ls[i] == Schedule(p, n) && In(tr[i], w, Holding)
    requires Live(tr[m], p) && tr[i].drain != Drained
    ensures tr[i].outstanding > 0 && tr[m].outstanding > 0 && tr[m].drain != Drained
    decreases m
  {
    InvAlways(tr, ls, i);
    InvAlways(tr, ls, m);
    LiveIsCounted(tr[i], w);
    LiveIsCounted(tr[m], p);
    if i + 1 < m {
      WasLive(tr, ls, i, p, n, m);
      NoGapBeforePreSerialization(tr, ls, i, w, p, n, m - 1);
    }
    assert Leads(tr, ls, m - 1);
    DrainWaits(tr[m-1], ls[m-1]);
  }

  /** The cap in force: the one set last, or the default. */
  function CapOf(ls: seq<Label>, i: nat): nat
    requires i <= |ls|
  {
    if i == 0 then 2 else if ls[i-1].SetMax? then ls[i-1].cap else CapOf(ls, i - 1)
  }

  lemma {:induction false} CapIsTheLastSet(tr: seq<State>, ls: seq<Label>, i: nat)
    requires Run(tr, ls) && i < |tr|
    ensures tr[i].cap == CapOf(ls, i)
  {
    if i > 0 {
      CapIsTheLastSet(tr, ls, i - 1);
      assert Leads(tr, ls, i - 1);
    }
  }

  /** A worker that looks for a slot gets one exactly if the cap is zero, that is, off, or
      fewer than the cap are held; otherwise it sleeps. */
  lemma SlotsAreGivenByTheCap(tr: seq<State>, ls: seq<Label>, i: nat)
    requires Run(tr, ls) && i < |ls| && ls[i].TrySlot?
    ensures ls[i].id in tr[i+1].workers
    ensures tr[i+1].workers[ls[i].id].phase ==
            if CapOf(ls, i) == 0 || |Members(tr[i].workers, {Holding})| < CapOf(ls, i) then Holding else Sleeping
  {
    CapIsTheLastSet(tr, ls, i);
    InvAlways(tr, ls, i);
    assert Leads(tr, ls, i);
  }

  /** The destructor gets past its drain exactly if no worker is left when it looks. */
  lemma DrainEndsIffIdle(tr: seq<State>, ls: seq<Label>, i: nat)
    requires Run(tr, ls) && i < |ls| && ls[i].DrainCheck?
    ensures tr[i+1].drain == if |Members(tr[i].workers, LIVE)| == 0 then Drained else DrainSleeping
  {
    InvAlways(tr, ls, i);
    assert Leads(tr, ls, i);
  }
}
