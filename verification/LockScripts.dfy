/** Which mutexes the code takes at every program point, in which order, and that all of
    it obeys the documented lock order. */
module LockScripts {
  import opened Basics
  import opened CacheKeys
  import F = SingleFlight
  import B = BackgroundSlots

  datatype Mutex = CacheMutex | LruMutex | StoreMutex | StateMutex | BackgroundMutex

  datatype LockOp = Acquire(m: Mutex) | Release

  // ---- the lock order ----

  /** The documented order: only the LRU mutex is ever held while another is taken, and then
      that other one is the load-state or the response-store mutex. */
  predicate MayNest(outer: Mutex, inner: Mutex) {
    outer == LruMutex && (inner == StateMutex || inner == StoreMutex)
  }

  function Rank(m: Mutex): nat {
    if m == LruMutex then 0 else 1
  }

  const MAX_RANK: nat := 1

  predicate Above(held: seq<Mutex>, m: Mutex) {
    forall i :: 0 <= i < |held| ==> MayNest(held[i], m)
  }

  predicate Nested(held: seq<Mutex>) {
    forall i, j :: 0 <= i < j < |held| ==> MayNest(held[i], held[j])
  }

  /** The mutexes held, innermost last, after running the operations from held; None if
      they break the order or release what is not held. */
  function After(held: seq<Mutex>, ops: seq<LockOp>): (r: Option<seq<Mutex>>)
    decreases |ops|
  {
    if ops == [] then Some(held)
    else
      match ops[0]
      case Acquire(m) => if Above(held, m) then After(held + [m], ops[1..]) else None
      case Release => if held != [] then After(held[..|held|-1], ops[1..]) else None
  }

  predicate Legal(held: seq<Mutex>, ops: seq<LockOp>) {
    After(held, ops) == Some([])
  }

  /** The operations are in order and end with the same mutexes held. */
  predicate Keeps(held: seq<Mutex>, ops: seq<LockOp>) {
    After(held, ops) == Some(held)
  }

  lemma {:induction false} AfterConcat(held: seq<Mutex>, a: seq<LockOp>, b: seq<LockOp>)
    requires After(held, a).Some?
    ensures After(held, a + b) == After(After(held, a).value, b)
    decreases |a|
  {
    if a == [] {
      assert a + b == b;
    } else {
      assert (a + b)[1..] == a[1..] + b;
      match a[0]
      case Acquire(m) => AfterConcat(held + [m], a[1..], b);
      case Release => AfterConcat(held[..|held|-1], a[1..], b);
    }
  }

  lemma KeepsBoth(held: seq<Mutex>, a: seq<LockOp>, b: seq<LockOp>)
    requires Keeps(held, a) && Keeps(held, b)
    ensures Keeps(held, a + b)
  {
    AfterConcat(held, a, b);
  }

  /** One mutex taken and released around operations that keep what is held. */
  function Within(m: Mutex, inner: seq<LockOp>): seq<LockOp> {
    [Acquire(m)] + (inner + [Release])
  }

  lemma WithinKeeps(held: seq<Mutex>, m: Mutex, inner: seq<LockOp>)
    requires Above(held, m) && Keeps(held + [m], inner)
    ensures Keeps(held, Within(m, inner))
  {
    var ops := Within(m, inner);
    assert ops[1..] == inner + [Release];
    AfterConcat(held + [m], inner, [Release]);
    assert (held + [m])[..|held|] == held;
    assert [Release][1..] == [];
  }

  function Solo(m: Mutex): seq<LockOp> {
    Within(m, [])
  }

  lemma SoloKeeps(held: seq<Mutex>, m: Mutex)
    requires Above(held, m)
    ensures Keeps(held, Solo(m))
  {
    WithinKeeps(held, m, []);
  }

  /** The same mutex taken and released n times. */
  function Solos(m: Mutex, n: nat): seq<LockOp> {
    if n == 0 then [] else Solo(m) + Solos(m, n - 1)
  }

  lemma {:induction false} SolosKeep(held: seq<Mutex>, m: Mutex, n: nat)
    requires Above(held, m)
    ensures Keeps(held, Solos(m, n))
  {
    if n > 0 {
      SoloKeeps(held, m);
      SolosKeep(held, m, n - 1);
      KeepsBoth(held, Solo(m), Solos(m, n - 1));
    }
  }

  function Releases(n: nat): seq<LockOp> {
    if n == 0 then [] else [Release] + Releases(n - 1)
  }

  lemma {:induction false} ReleasesAreLegal(held: seq<Mutex>)
    ensures Legal(held, Releases(|held|))
  {
    if held != [] {
      ReleasesAreLegal(held[..|held|-1]);
      assert Releases(|held|)[1..] == Releases(|held| - 1);
    }
  }

  // ---- what the code locks, section by section ----

  /** What decides the path through a section: whether the load records states, whether
      the name has an LRU entry already, how often a repeated section runs, how many LRU
      entries an eviction examines and drops, and where a commit gives up. */
  datatype Path = Path(quiet: bool, again: bool, repeats: nat, examined: nat, victims: nat, stop: nat)

  /** Eviction under the LRU mutex: a state check per examined entry. */
  function EvictScript(p: Path): seq<LockOp> {
    Solos(StateMutex, p.examined)
  }

  /** Clean-up after eviction: store, caches and state of each victim. */
  function VictimScript(n: nat): seq<LockOp> {
    if n == 0 then [] else Solo(StoreMutex) + (Solo(CacheMutex) + (Solo(StateMutex) + VictimScript(n - 1)))
  }

  /** EstimateDesignBytes: the directory, then the stored bytes. */
  function EstimateScript(): seq<LockOp> {
    Solo(CacheMutex) + Solo(StoreMutex)
  }

  /** InsertLruAndEvict; an existing entry is charged anew, less the stored bytes. */
  function ChargeScript(p: Path): seq<LockOp> {
    EstimateScript() +
    (Within(LruMutex, (if p.again then Solo(StoreMutex) else []) + EvictScript(p)) + VictimScript(p.victims))
  }

  /** ResyncLruEstimate. */
  function ResyncScript(p: Path): seq<LockOp> {
    EstimateScript() + Within(LruMutex, if p.again then Solo(StoreMutex) else [])
  }

  /** AdjustLruSerializedBytes. */
  function AdjustScript(p: Path): seq<LockOp> {
    Within(LruMutex, if p.again then Solo(StoreMutex) else [])
  }

  /** setCacheMaxBytes. */
  function BudgetScript(p: Path): seq<LockOp> {
    Within(LruMutex, EvictScript(p)) + VictimScript(p.victims)
  }

  /** Under the LRU mutex a commit checks the epoch, stores and evicts, unless it gives up
      before, because the entry is gone or the epoch over. */
  function CommitInner(p: Path): seq<LockOp> {
    if p.stop <= 2 then []
    else if p.stop == 3 then Solo(StateMutex)
    else Solo(StateMutex) + (Solo(StoreMutex) + EvictScript(p))
  }

  /** CommitResponsePayloads: nothing for an empty payload, else the identity check, then
      the rest under the LRU mutex, then the victims. */
  function CommitScript(p: Path): seq<LockOp> {
    if p.stop == 0 then []
    else if p.stop == 1 then Solo(CacheMutex)
    else Solo(CacheMutex) + (Within(LruMutex, CommitInner(p)) + if p.stop <= 3 then [] else VictimScript(p.victims))
  }

  /** The locks of one step of GetOrLoadSingleFlight. */
  function CallScript(pc: F.Pc, p: Path): seq<LockOp> {
    match pc
    case Lookup => Solo(CacheMutex)
    case Serve(_) => Solo(LruMutex)
    case Capture => Solo(StoreMutex)
    case Enroll(_) => Solo(StateMutex)
    case Join(_) => []
    case TouchJoined(_, _) => Solo(LruMutex)
    case Announce(_) => if p.quiet then [] else Solo(StateMutex)
    case Parse(_) => Solos(CacheMutex, p.repeats)
    case AwaitArchive(_, _) => []
    case Assemble(_, _) => []
    case Compare(_, _) => Solo(StoreMutex)
    case Decide(_, _, _) => Solo(StateMutex)
    case Insert(_) => Solo(CacheMutex)
    case Charge(_) => ChargeScript(p)
    case Schedule(_) => if p.quiet then [] else Solo(StoreMutex) + Solos(BackgroundMutex, p.repeats)
    case RecordLoaded(_) => if p.quiet then [] else Solo(StateMutex)
    case Settle(_, _) => []
    case Bookkeep(_) => if p.quiet then [] else Solos(StateMutex, p.repeats)
    case Erase(_) => Solo(StateMutex)
    case Returned(_, _) => []
  }

  /** The locks of one step of a background worker; a holder of a slot that pre-serializes
      commits its payload before it gives the slot back. */
  function WorkerScript(k: B.Worker, p: Path): seq<LockOp> {
    match k.phase
    case Kicked => Solo(BackgroundMutex)
    case Counted => Solos(BackgroundMutex, p.repeats)
    case Checking => Solo(BackgroundMutex)
    case Holding => if k.job.Load? then Solo(BackgroundMutex) else CommitScript(p) + Solo(BackgroundMutex)
    case Unmarking => Solo(StateMutex)
    case AbortUnmark => Solo(StateMutex)
    case Leaving => Solo(BackgroundMutex)
    case _ => []
  }

  /** Operations that clients run on their own threads. Look stands for the readers that
      take a single mutex; a change of the cap goes on as NotifyWaiters, which takes none. */
  datatype Op =
    | AddArchive | Resync | Invalidate | ClearAll | SetBudget | Serialize | Look(m: Mutex)
    | SetMaxLoads(cap: nat) | NotifyWaiters | KickLoad(worker: B.Id, name: Name)

  function ClientScript(op: Op, p: Path): seq<LockOp> {
    match op
    case AddArchive => Solo(CacheMutex) + (Solo(StoreMutex) + (AdjustScript(p) + (ChargeScript(p) + Solo(StateMutex))))
    case Resync => ResyncScript(p)
    case Invalidate => Solo(CacheMutex) + (Solo(StoreMutex) + (AdjustScript(p) + Solo(StateMutex)))
    case ClearAll => Solo(CacheMutex) + (Solo(LruMutex) + (Solo(StoreMutex) + Solo(StateMutex)))
    case SetBudget => BudgetScript(p)
    case Serialize => Solo(CacheMutex) + (Solo(StoreMutex) + (Solo(StateMutex) + CommitScript(p)))
    case Look(m) => Solo(m)
    case SetMaxLoads(_) => Solo(BackgroundMutex)
    case NotifyWaiters => []
    case KickLoad(_, _) => Solo(StateMutex)
  }

  /** The destructor evaluating the predicate it waits for. */
  function DrainScript(): seq<LockOp> {
    Solo(BackgroundMutex)
  }

  // ---- every one of these scripts obeys the order ----

  lemma SoloThen(held: seq<Mutex>, m: Mutex, rest: seq<LockOp>)
    requires Above(held, m) && Keeps(held, rest)
    ensures Keeps(held, Solo(m) + rest)
  {
    SoloKeeps(held, m);
    KeepsBoth(held, Solo(m), rest);
  }

  lemma {:induction false} VictimsKeep(n: nat)
    ensures Keeps([], VictimScript(n))
  {
    if n > 0 {
      VictimsKeep(n - 1);
      SoloThen([], StateMutex, VictimScript(n - 1));
      SoloThen([], CacheMutex, Solo(StateMutex) + VictimScript(n - 1));
      SoloThen([], StoreMutex, Solo(CacheMutex) + (Solo(StateMutex) + VictimScript(n - 1)));
    }
  }

  /** Under the LRU mutex: an optional store lookup, then the state checks. */
  lemma UnderLru(inner: seq<LockOp>)
    requires Keeps([LruMutex], inner)
    ensures Keeps([], Within(LruMutex, inner))
  {
    assert [] + [LruMutex] == [LruMutex];
    WithinKeeps([], LruMutex, inner);
  }

  lemma StoreUnderLru(p: Path)
    ensures Keeps([LruMutex], if p.again then Solo(StoreMutex) else [])
  {
    if p.again {
      SoloKeeps([LruMutex], StoreMutex);
    }
  }

  lemma EstimateKeeps()
    ensures Keeps([], EstimateScript())
  {
    SoloKeeps([], StoreMutex);
    SoloThen([], CacheMutex, Solo(StoreMutex));
  }

  lemma ChargeKeeps(p: Path)
    ensures Keeps([], ChargeScript(p))
  {
    var store := if p.again then Solo(StoreMutex) else [];
    StoreUnderLru(p);
    SolosKeep([LruMutex], StateMutex, p.examined);
    KeepsBoth([LruMutex], store, EvictScript(p));
    UnderLru(store + EvictScript(p));
    VictimsKeep(p.victims);
    KeepsBoth([], Within(LruMutex, store + EvictScript(p)), VictimScript(p.victims));
    EstimateKeeps();
    KeepsBoth([], EstimateScript(), Within(LruMutex, store + EvictScript(p)) + VictimScript(p.victims));
  }

  lemma AdjustKeeps(p: Path)
    ensures Keeps([], AdjustScript(p))
  {
    StoreUnderLru(p);
    UnderLru(if p.again then Solo(StoreMutex) else []);
  }

  lemma ResyncKeeps(p: Path)
    ensures Keeps([], ResyncScript(p))
  {
    AdjustKeeps(p);
    EstimateKeeps();
    KeepsBoth([], EstimateScript(), AdjustScript(p));
  }

  lemma BudgetKeeps(p: Path)
    ensures Keeps([], BudgetScript(p))
  {
    SolosKeep([LruMutex], StateMutex, p.examined);
    UnderLru(EvictScript(p));
    VictimsKeep(p.victims);
    KeepsBoth([], Within(LruMutex, EvictScript(p)), VictimScript(p.victims));
  }

  lemma CommitInnerKeeps(p: Path)
    ensures Keeps([LruMutex], CommitInner(p))
  {
    SolosKeep([LruMutex], StateMutex, p.examined);
    SoloThen([LruMutex], StoreMutex, EvictScript(p));
    SoloThen([LruMutex], StateMutex, Solo(StoreMutex) + EvictScript(p));
    SoloKeeps([LruMutex], StateMutex);
  }

  lemma CommitKeeps(p: Path)
    ensures Keeps([], CommitScript(p))
  {
    SoloKeeps([], CacheMutex);
    CommitInnerKeeps(p);
    UnderLru(CommitInner(p));
    VictimsKeep(p.victims);
    var tail := if p.stop <= 3 then [] else VictimScript(p.victims);
    KeepsBoth([], Within(LruMutex, CommitInner(p)), tail);
    SoloThen([], CacheMutex, Within(LruMutex, CommitInner(p)) + tail);
  }

  /** The points that take one mutex, or none. */
  lemma SimplePointIsLegal(pc: F.Pc, p: Path)
    requires !pc.Parse? && !pc.Charge? && !pc.Schedule? && !pc.Bookkeep?
    ensures Legal([], CallScript(pc, p))
  {
    SoloKeeps([], CacheMutex);
    SoloKeeps([], LruMutex);
    SoloKeeps([], StoreMutex);
    SoloKeeps([], StateMutex);
  }

  lemma ScheduleIsLegal(pc: F.Pc, p: Path)
    requires pc.Schedule?
    ensures Legal([], CallScript(pc, p))
  {
    SolosKeep([], BackgroundMutex, p.repeats);
    SoloThen([], StoreMutex, Solos(BackgroundMutex, p.repeats));
  }

  lemma CallScriptIsLegal(pc: F.Pc, p: Path)
    ensures Legal([], CallScript(pc, p))
  {
    match pc
    case Parse(_) => SolosKeep([], CacheMutex, p.repeats);
    case Charge(_) => ChargeKeeps(p);
    case Schedule(_) => ScheduleIsLegal(pc, p);
    case Bookkeep(_) => SolosKeep([], StateMutex, p.repeats);
    case _ => SimplePointIsLegal(pc, p);
  }

  lemma WorkerScriptIsLegal(k: B.Worker, p: Path)
    ensures Legal([], WorkerScript(k, p))
  {
    SoloKeeps([], BackgroundMutex);
    SoloKeeps([], StateMutex);
    SolosKeep([], BackgroundMutex, p.repeats);
    CommitKeeps(p);
    KeepsBoth([], CommitScript(p), Solo(BackgroundMutex));
  }

  lemma AddArchiveKeeps(p: Path)
    ensures Keeps([], ClientScript(AddArchive, p))
  {
    SoloKeeps([], StateMutex);
    ChargeKeeps(p);
    KeepsBoth([], ChargeScript(p), Solo(StateMutex));
    AdjustKeeps(p);
    KeepsBoth([], AdjustScript(p), ChargeScript(p) + Solo(StateMutex));
    SoloThen([], StoreMutex, AdjustScript(p) + (ChargeScript(p) + Solo(StateMutex)));
    SoloThen([], CacheMutex, Solo(StoreMutex) + (AdjustScript(p) + (ChargeScript(p) + Solo(StateMutex))));
  }

  lemma InvalidateKeeps(p: Path)
    ensures Keeps([], ClientScript(Invalidate, p))
  {
    SoloKeeps([], StateMutex);
    AdjustKeeps(p);
    KeepsBoth([], AdjustScript(p), Solo(StateMutex));
    SoloThen([], StoreMutex, AdjustScript(p) + Solo(StateMutex));
    SoloThen([], CacheMutex, Solo(StoreMutex) + (AdjustScript(p) + Solo(StateMutex)));
  }

  lemma ClearKeeps(p: Path)
    ensures Keeps([], ClientScript(ClearAll, p))
  {
    SoloKeeps([], StateMutex);
    SoloThen([], StoreMutex, Solo(StateMutex));
    SoloThen([], LruMutex, Solo(StoreMutex) + Solo(StateMutex));
    SoloThen([], CacheMutex, Solo(LruMutex) + (Solo(StoreMutex) + Solo(StateMutex)));
  }

  lemma SerializeKeeps(p: Path)
    ensures Keeps([], ClientScript(Serialize, p))
  {
    CommitKeeps(p);
    SoloThen([], StateMutex, CommitScript(p));
    SoloThen([], StoreMutex, Solo(StateMutex) + CommitScript(p));
    SoloThen([], CacheMutex, Solo(StoreMutex) + (Solo(StateMutex) + CommitScript(p)));
  }

  lemma ClientScriptIsLegal(op: Op, p: Path)
    ensures Legal([], ClientScript(op, p))
  {
    match op
    case AddArchive => AddArchiveKeeps(p);
    case Resync => ResyncKeeps(p);
    case Invalidate => InvalidateKeeps(p);
    case ClearAll => ClearKeeps(p);
    case SetBudget => BudgetKeeps(p);
    case Serialize => SerializeKeeps(p);
    case Look(m) => SoloKeeps([], m);
    case SetMaxLoads(_) => SoloKeeps([], BackgroundMutex);
    case NotifyWaiters =>
    case KickLoad(_, _) => SoloKeeps([], StateMutex);
  }

  lemma DrainScriptIsLegal()
    ensures Legal([], DrainScript())
  {
    SoloKeeps([], BackgroundMutex);
  }
}
