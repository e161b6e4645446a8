/** How often a design is parsed: the header promises once, the code does not. */
module SingleFlightParses {
  import opened Basics
  import opened CacheKeys
  import opened SingleFlight
  import opened SingleFlightResults

  /** Step i of the run is a parse of the key. */
  ghost predicate Parses(tr: seq<State>, ls: seq<Label>, i: nat, k: Key) {
    && i < |ls| && i < |tr| && ls[i].Step? && ls[i].x.Found?
    && CallFor(tr[i], ls[i].c, k)
  }

  /** Two calls, 1 and 2, for one archive, with nothing else going on. */
  function Pair(
    k: Key, cache: map<Key, Obj>, inFlight: map<Key, CallId>, promises: map<CallId, Promise>, pc1: Pc, pc2: Pc): State
  {
    State(cache, map[], 0, inFlight, promises, map[1 := Call(k, pc1), 2 := Call(k, pc2)])
  }

  /** The states of a run in which call 1 misses and is then delayed, while call 2
      misses, registers, parses object 7, inserts it, publishes it and leaves. */
  function EarlyState(k: Key, i: nat): State {
    var m := Mark(0, 0);
    var (f, p) := (map[k := 2], map[2 := Pending]);
    if i == 0 then State(map[], map[], 0, map[], map[], map[])
    else if i == 1 then State(map[], map[], 0, map[], map[], map[1 := Call(k, Lookup)])
    else if i == 2 then Pair(k, map[], map[], map[], Lookup, Lookup)
    else if i == 3 then Pair(k, map[], map[], map[], Capture, Lookup)
    else if i == 4 then Pair(k, map[], map[], map[], Capture, Capture)
    else if i == 5 then Pair(k, map[], map[], map[], Capture, Enroll(0))
    else if i == 6 then Pair(k, map[], f, p, Capture, Announce(m))
    else if i == 7 then Pair(k, map[], f, p, Capture, Parse(m))
    else if i == 8 then Pair(k, map[], f, p, Capture, Compare(m, 7))
    else if i == 9 then Pair(k, map[], f, p, Capture, Decide(m, 7, false))
    else Pair(k, map[], f, p, Capture, Insert(7))
  }

  /** ... and then call 1 carries on, finds nothing in flight and parses object 8. */
  function LateState(k: Key, i: nat): State {
    var c := map[k := 7];
    var (f, p) := (map[k := 2], map[2 := Pending]);
    var q := map[2 := Satisfied(Value(7))];
    var r := Returned(Value(7), Ran);
    if i == 11 then Pair(k, c, f, p, Capture, Charge(7))
    else if i == 12 then Pair(k, c, f, p, Capture, Schedule(7))
    else if i == 13 then Pair(k, c, f, p, Capture, RecordLoaded(7))
    else if i == 14 then Pair(k, c, f, p, Capture, Settle(Value(7), Loaded))
    else if i == 15 then Pair(k, c, f, q, Capture, Erase(Value(7)))
    else if i == 16 then Pair(k, c, map[], q, Capture, r)
    else if i == 17 then Pair(k, c, map[], q, Enroll(0), r)
    else if i == 18 then Pair(k, c, map[k := 1], q[1 := Pending], Announce(Mark(0, 0)), r)
    else if i == 19 then Pair(k, c, map[k := 1], q[1 := Pending], Parse(Mark(0, 0)), r)
    else Pair(k, c, map[k := 1], q[1 := Pending], Compare(Mark(0, 0), 8), r)
  }

  function LateRunState(k: Key, i: nat): State {
    if i <= 10 then EarlyState(k, i) else LateState(k, i)
  }

  function LateRunLabel(k: Key, i: nat): Label {
    if i < 2 then Start(i + 1, k)
    else if i == 2 then Step(1, Go)
    else if i == 7 then Step(2, Found(7))
    else if i < 16 then Step(2, Go)
    else if i < 19 then Step(1, Go)
    else Step(1, Found(8))
  }

  ghost predicate OneStep(s: State, l: Label, t: State) {
    Enabled(s, l) && t == Apply(s, l)
  }

  lemma LateRunStart(k: Key, i: nat)
    requires k.kind.ArchiveKind? && i < 5
    ensures OneStep(LateRunState(k, i), LateRunLabel(k, i), LateRunState(k, i + 1))
  {
    if i == 0 {
    } else if i == 1 {
    } else if i == 2 {
    } else if i == 3 {
    }
  }

  lemma LateRunFirst(k: Key, i: nat)
    requires k.kind.ArchiveKind? && 5 <= i < 7
    ensures OneStep(LateRunState(k, i), LateRunLabel(k, i), LateRunState(k, i + 1))
  {
    if i == 5 {
    }
  }

  lemma LateRunParse(k: Key, i: nat)
    requires k.kind.ArchiveKind? && 7 <= i < 10
    ensures OneStep(LateRunState(k, i), LateRunLabel(k, i), LateRunState(k, i + 1))
  {
    if i == 7 {
    } else if i == 8 {
    }
  }

  lemma LateRunInsert(k: Key, i: nat)
    requires k.kind.ArchiveKind? && 10 <= i < 12
    ensures OneStep(LateRunState(k, i), LateRunLabel(k, i), LateRunState(k, i + 1))
  {
    if i == 10 {
    }
  }

  lemma LateRunPublish(k: Key, i: nat)
    requires k.kind.ArchiveKind? && 12 <= i < 14
    ensures OneStep(LateRunState(k, i), LateRunLabel(k, i), LateRunState(k, i + 1))
  {
    if i == 12 {
    }
  }

  lemma LateRunLeave(k: Key, i: nat)
    requires k.kind.ArchiveKind? && 14 <= i < 16
    ensures OneStep(LateRunState(k, i), LateRunLabel(k, i), LateRunState(k, i + 1))
  {
    if i == 14 {
    }
  }

  lemma LateRunMisses(k: Key, i: nat)
    requires k.kind.ArchiveKind? && 16 <= i < 18
    ensures OneStep(LateRunState(k, i), LateRunLabel(k, i), LateRunState(k, i + 1))
  {
    if i == 16 {
    }
  }

  lemma LateRunSecond(k: Key, i: nat)
    requires k.kind.ArchiveKind? && 18 <= i < 20
    ensures OneStep(LateRunState(k, i), LateRunLabel(k, i), LateRunState(k, i + 1))
  {
    if i == 18 {
    }
  }

  lemma LateRunLeads(k: Key, i: nat)
    requires k.kind.ArchiveKind? && i < 20
    ensures OneStep(LateRunState(k, i), LateRunLabel(k, i), LateRunState(k, i + 1))
    ensures !LateRunLabel(k, i).Interfere?
  {
    if i < 5 {
      LateRunStart(k, i);
    } else if i < 7 {
      LateRunFirst(k, i);
    } else if i < 10 {
      LateRunParse(k, i);
    } else if i < 12 {
      LateRunInsert(k, i);
    } else if i < 14 {
      LateRunPublish(k, i);
    } else if i < 16 {
      LateRunLeave(k, i);
    } else if i < 18 {
      LateRunMisses(k, i);
    } else {
      LateRunSecond(k, i);
    }
  }

  /** "Exactly one parse per design name" is false: call 1, which missed before call 2
      inserted, finds no load in flight afterwards and parses the archive again. */
  lemma LateArriverParsesAgain(k: Key) returns (tr: seq<State>, ls: seq<Label>)
    requires k.kind.ArchiveKind?
    ensures Run(tr, ls) && QuietFor(tr, ls, k)
    ensures Parses(tr, ls, 7, k) && Parses(tr, ls, 19, k)
  {
    tr, ls := seq(21, i requires i >= 0 => LateRunState(k, i)), seq(20, i requires i >= 0 => LateRunLabel(k, i));
    forall i | 0 <= i < |ls|
      ensures Leads(tr, ls, i) && !ls[i].Interfere?
    {
      LateRunLeads(k, i);
    }
  }

  /** Where a call can be that looked up a key already cached as v. */
  predicate OnlyHits(pc: Pc, v: Obj) {
    || pc == Lookup || pc == Serve(v) || pc == Returned(Value(v), Hit)
    || (pc.Returned? && pc.via == Early && pc.out.Thrown?)
  }

  lemma HitStep(s: State, l: Label, t: State, c: CallId, k: Key, v: Obj)
    requires Enabled(s, l) && t == Apply(s, l) && CachedAt(s, k) == Some(v)
    requires l.Interfere? ==> Undisturbed(s, t, k)
    requires CallFor(s, c, k) ==> OnlyHits(s.calls[c].pc, v)
    ensures CachedAt(t, k) == Some(v)
    ensures CallFor(t, c, k) ==> OnlyHits(t.calls[c].pc, v)
  {
    if l.Step? {
      StepFrame(s, l.c, l.x, k);
    }
  }

  /** A call for the key that starts once it is cached, in a run that leaves the key
      alone, never becomes a loader, and if it returns normally it returns the cached
      object. */
  lemma {:induction false} LateCallReturnsTheCachedObject(
    tr: seq<State>, ls: seq<Label>, k: Key, i: nat, j: nat, c: CallId)
    requires Run(tr, ls) && QuietFor(tr, ls, k) && i <= j < |tr|
    requires k in tr[i].cache && c !in tr[i].calls
    ensures CachedAt(tr[j], k) == CachedAt(tr[i], k)
    ensures CallFor(tr[j], c, k) ==> OnlyHits(tr[j].calls[c].pc, tr[i].cache[k]) && !IsLoader(tr[j].calls[c].pc)
    decreases j
  {
    if i < j {
      LateCallReturnsTheCachedObject(tr, ls, k, i, j - 1, c);
      assert Leads(tr, ls, j - 1);
      HitStep(tr[j-1], ls[j-1], tr[j], c, k, tr[i].cache[k]);
    }
  }

  // ---- what can still happen ----

  /** A continuation: any states and labels, from any first state. */
  ghost predicate Path(tr: seq<State>, ls: seq<Label>) {
    |tr| == |ls| + 1 && forall i: nat {:trigger Leads(tr, ls, i)} :: i < |ls| ==> Leads(tr, ls, i)
  }

  /** A continuation from s to t that leaves the key alone. */
  ghost predicate Connects(tr: seq<State>, ls: seq<Label>, s: State, t: State, k: Key) {
    Path(tr, ls) && tr[0] == s && tr[|ls|] == t && QuietFor(tr, ls, k)
  }

  ghost predicate Reaches(s: State, t: State, k: Key) {
    exists tr, ls :: Connects(tr, ls, s, t, k)
  }

  lemma ReachesItself(s: State, k: Key)
    ensures Reaches(s, s, k)
  {
    var ls: seq<Label> := [];
    assert Connects([s], ls, s, s, k);
  }

  lemma ReachesStep(s: State, d: CallId, x: Choice, k: Key)
    requires d in s.calls && CanStep(s, d, x)
    ensures Reaches(s, Advance(s, d, x), k)
  {
    var t := Advance(s, d, x);
    assert Leads([s, t], [Step(d, x)], 0);
    assert Connects([s, t], [Step(d, x)], s, t, k);
  }

  lemma ReachesFurther(s: State, t: State, u: State, k: Key)
    requires Reaches(s, t, k) && Reaches(t, u, k)
    ensures Reaches(s, u, k)
  {
    var tr1: seq<State>, ls1: seq<Label> :| Connects(tr1, ls1, s, t, k);
    var tr2: seq<State>, ls2: seq<Label> :| Connects(tr2, ls2, t, u, k);
    var tr, ls := tr1 + tr2[1..], ls1 + ls2;
    var n := |ls1|;
    assert forall i :: 0 <= i <= n ==> tr[i] == tr1[i];
    assert forall i :: 0 <= i < |tr2| ==> tr[n + i] == tr2[i];
    forall i: nat | i < |ls|
      ensures Leads(tr, ls, i)
    {
      if i < n {
        assert Leads(tr1, ls1, i);
      } else {
        assert Leads(tr2, ls2, i - n);
      }
    }
    forall i | 0 <= i < |ls| && ls[i].Interfere?
      ensures Undisturbed(tr[i], tr[i+1], k)
    {
      assert if i < n then ls[i] == ls1[i] else ls[i] == ls2[i - n];
    }
    assert Connects(tr, ls, s, u, k);
  }

  /** Some continuation that leaves the key alone has the call parse. */
  ghost predicate CanStillParse(s: State, c: CallId, k: Key) {
    exists t :: Reaches(s, t, k) && CallFor(t, c, k) && t.calls[c].pc.Parse?
  }

  lemma ParsesFurtherOn(s: State, t: State, c: CallId, k: Key)
    requires Reaches(s, t, k) && CanStillParse(t, c, k)
    ensures CanStillParse(s, c, k)
  {
    var u :| Reaches(t, u, k) && CallFor(u, c, k) && u.calls[c].pc.Parse?;
    ReachesFurther(s, t, u, k);
  }

  // ---- calls that cannot parse any more ----

  /** Between its cache miss and its parse. */
  predicate InTheRace(pc: Pc) {
    pc.Capture? || pc.Enroll? || pc.Announce? || pc.Parse?
  }

  lemma OwnStepStaysOut(s: State, c: CallId, x: Choice, k: Key)
    requires k in s.cache && CallFor(s, c, k) && CanStep(s, c, x) && !InTheRace(s.calls[c].pc)
    ensures var t := Advance(s, c, x); CallFor(t, c, k) && !InTheRace(t.calls[c].pc)
  {
    StepFrame(s, c, x, k);
    OwnStepShortens(s, c, x);
    if s.calls[c].pc.Lookup? && x.Go? {
      assert Advance(s, c, x) == Goto(s, c, Serve(s.cache[k]));
    }
  }

  lemma StaysOut(s: State, l: Label, t: State, c: CallId, k: Key)
    requires Enabled(s, l) && t == Apply(s, l) && k in s.cache
    requires l.Interfere? ==> Undisturbed(s, t, k)
    requires CallFor(s, c, k) ==> !InTheRace(s.calls[c].pc)
    ensures k in t.cache && (CallFor(t, c, k) ==> !InTheRace(t.calls[c].pc))
  {
    assert CachedAt(s, k).Some?;
    if l.Step? {
      StepFrame(s, l.c, l.x, k);
      if l.c == c && CallFor(s, c, k) {
        OwnStepStaysOut(s, c, l.x, k);
      }
    }
    assert CachedAt(t, k).Some?;
  }

  /** A call outside the race for a cached key stays outside, in any continuation that
      leaves the key alone. */
  lemma {:induction false} OutOfTheRaceForGood(tr: seq<State>, ls: seq<Label>, c: CallId, k: Key, j: nat)
    requires Path(tr, ls) && QuietFor(tr, ls, k) && j < |tr|
    requires k in tr[0].cache && (CallFor(tr[0], c, k) ==> !InTheRace(tr[0].calls[c].pc))
    ensures k in tr[j].cache && (CallFor(tr[j], c, k) ==> !InTheRace(tr[j].calls[c].pc))
  {
    if j > 0 {
      OutOfTheRaceForGood(tr, ls, c, k, j - 1);
      assert Leads(tr, ls, j - 1);
      StaysOut(tr[j-1], ls[j-1], tr[j], c, k);
    }
  }

  // ---- a loader in flight can be run to its end ----

  /** t is reached from s by steps of other calls than those of keep. */
  ghost predicate Follows(s: State, t: State, k: Key, keep: set<CallId>) {
    && Inv(t) && Reaches(s, t, k) && t.calls.Keys == s.calls.Keys
    && (forall e :: e in s.calls ==> t.calls[e].key == s.calls[e].key)
    && (forall e :: e in keep && e in s.calls ==> t.calls[e] == s.calls[e])
  }

  lemma FollowsItself(s: State, k: Key, keep: set<CallId>)
    requires Inv(s)
    ensures Follows(s, s, k, keep)
  {
    ReachesItself(s, k);
  }

  lemma FollowsFurther(s: State, t: State, u: State, k: Key, keep: set<CallId>)
    requires Follows(s, t, k, keep) && Follows(t, u, k, keep)
    ensures Follows(s, u, k, keep)
  {
    ReachesFurther(s, t, u, k);
  }

  /** One step of call d, which starts no other call. */
  lemma FollowsStep(s: State, d: CallId, x: Choice, k: Key, keep: set<CallId>) returns (t: State)
    requires Inv(s) && d in s.calls && CanStep(s, d, x) && !x.Child? && d !in keep
    ensures t == Advance(s, d, x) && Follows(s, t, k, keep)
    ensures StepsLeft(t.calls[d].pc) < StepsLeft(s.calls[d].pc)
    ensures IsLoader(s.calls[d].pc) ==> IsLoader(t.calls[d].pc) || t.calls[d].pc.Returned?
  {
    t := Advance(s, d, x);
    ReachesStep(s, d, x, k);
    ApplyKeepsInv(s, Step(d, x));
    StepFrame(s, d, x, k);
    OwnStepShortens(s, d, x);
    StepMovesAlone(s, d, x);
  }

  /** The step moves only the call itself, and a loader stays one until it returns. */
  ghost predicate MovesAlone(s: State, t: State, d: CallId)
    requires d in s.calls
  {
    && t.calls.Keys == s.calls.Keys
    && (IsLoader(s.calls[d].pc) ==> IsLoader(t.calls[d].pc) || t.calls[d].pc.Returned?)
  }

  lemma AskMovesAlone(s: State, d: CallId)
    requires d in s.calls && CanStep(s, d, Go) && !IsLoader(s.calls[d].pc)
    ensures MovesAlone(s, Ask(s, d), d)
  {
  }

  lemma SharedWorkMovesAlone(s: State, d: CallId)
    requires d in s.calls && CanStep(s, d, Go) && (s.calls[d].pc.Insert? || s.calls[d].pc.AwaitArchive?)
    ensures MovesAlone(s, Work(s, d), d)
  {
  }

  lemma PublishMovesAlone(s: State, d: CallId)
    requires d in s.calls && (s.calls[d].pc.Settle? || s.calls[d].pc.Erase?)
    ensures MovesAlone(s, Work(s, d), d)
  {
  }

  lemma NextPcIsALoader(pc: Pc, gen: nat, epoch: nat)
    requires Private(pc)
    ensures IsLoader(NextPc(pc, gen, epoch))
  {
  }

  lemma WorkMovesAlone(s: State, d: CallId)
    requires d in s.calls && CanStep(s, d, Go) && IsLoader(s.calls[d].pc)
    ensures MovesAlone(s, Work(s, d), d)
  {
    var pc := s.calls[d].pc;
    if pc.Insert? || pc.AwaitArchive? {
      SharedWorkMovesAlone(s, d);
    } else if pc.Settle? || pc.Erase? {
      PublishMovesAlone(s, d);
    } else {
      var gen := Gen(s, s.calls[d].key.name);
      NextPcIsALoader(pc, gen, s.epoch);
      assert Work(s, d) == Goto(s, d, NextPc(pc, gen, s.epoch));
    }
  }

  lemma StepMovesAlone(s: State, d: CallId, x: Choice)
    requires d in s.calls && CanStep(s, d, x) && !x.Child?
    ensures MovesAlone(s, Advance(s, d, x), d)
  {
    if x.Go? {
      if IsLoader(s.calls[d].pc) {
        WorkMovesAlone(s, d);
      } else {
        AskMovesAlone(s, d);
      }
    }
  }

  /** The step that brings a loader on its way without parsing. */
  function OnwardChoice(pc: Pc): Choice {
    if pc.Parse? || pc.Assemble? then Raise(0) else Go
  }

  /** A loader of an archive waits for nobody. */
  lemma {:induction false} RunArchiveLoader(s: State, m: CallId, k: Key, keep: set<CallId>) returns (t: State)
    requires Inv(s) && m in s.calls && m !in keep && s.calls[m].key.kind.ArchiveKind?
    requires IsLoader(s.calls[m].pc) || s.calls[m].pc.Returned?
    ensures Follows(s, t, k, keep) && t.calls[m].pc.Returned?
    decreases StepsLeft(s.calls[m].pc)
  {
    if s.calls[m].pc.Returned? {
      FollowsItself(s, k, keep);
      return s;
    }
    assert CallOk(s, m);
    var u := FollowsStep(s, m, OnwardChoice(s.calls[m].pc), k, keep);
    t := RunArchiveLoader(u, m, k, keep);
    FollowsFurther(s, u, t, k, keep);
  }

  /** An archive call returns, at once or after the loader it joined. */
  lemma RunArchiveCall(s: State, ch: CallId, k: Key, keep: set<CallId>) returns (t: State)
    requires Inv(s) && ch in s.calls && ch !in keep && s.calls[ch].key.kind.ArchiveKind?
    requires forall e :: e in keep && e in s.calls ==> s.calls[e].key.kind.DesignKind? || !IsLoader(s.calls[e].pc)
    ensures Follows(s, t, k, keep) && t.calls[ch].pc.Returned?
  {
    var pc := s.calls[ch].pc;
    if IsLoader(pc) || pc.Returned? {
      t := RunArchiveLoader(s, ch, k, keep);
    } else if pc.Join? {
      t := RunJoiner(s, ch, k, keep);
    } else if pc.Serve? || pc.TouchJoined? {
      t := FollowsStep(s, ch, Go, k, keep);
      assert t.calls[ch].pc.Returned?;
    } else {
      t := FollowsStep(s, ch, Raise(0), k, keep);
      assert t.calls[ch].pc.Returned?;
    }
  }

  /** A joiner becomes ready once its loader has run. */
  lemma ReadyJoiner(s: State, ch: CallId, k: Key, keep: set<CallId>) returns (t: State)
    requires Inv(s) && ch in s.calls && s.calls[ch].key.kind.ArchiveKind? && s.calls[ch].pc.Join?
    requires forall e :: e in keep && e in s.calls ==> s.calls[e].key.kind.DesignKind? || !IsLoader(s.calls[e].pc)
    ensures Follows(s, t, k, keep) && t.calls[ch] == s.calls[ch] && CanStep(t, ch, Go)
  {
    var m := s.calls[ch].pc.loader;
    assert CallOk(s, ch) && CallOk(s, m);
    if CanStep(s, ch, Go) {
      FollowsItself(s, k, keep);
      return s;
    }
    t := RunArchiveLoader(s, m, k, keep + {ch});
    assert CallOk(t, ch) && CallOk(t, m);
  }

  lemma JoinedReturns(s: State, ch: CallId, k: Key, keep: set<CallId>) returns (t: State)
    requires Inv(s) && ch in s.calls && ch !in keep && s.calls[ch].pc.Join? && CanStep(s, ch, Go)
    ensures Follows(s, t, k, keep) && t.calls[ch].pc.Returned?
  {
    var u := FollowsStep(s, ch, Go, k, keep);
    if u.calls[ch].pc.Returned? {
      return u;
    }
    assert u.calls[ch].pc.TouchJoined?;
    t := FollowsStep(u, ch, Go, k, keep);
    FollowsFurther(s, u, t, k, keep);
  }

  lemma RunJoiner(s: State, ch: CallId, k: Key, keep: set<CallId>) returns (t: State)
    requires Inv(s) && ch in s.calls && ch !in keep && s.calls[ch].key.kind.ArchiveKind? && s.calls[ch].pc.Join?
    requires forall e :: e in keep && e in s.calls ==> s.calls[e].key.kind.DesignKind? || !IsLoader(s.calls[e].pc)
    ensures Follows(s, t, k, keep) && t.calls[ch].pc.Returned?
  {
    var u := ReadyJoiner(s, ch, k, keep);
    t := JoinedReturns(u, ch, k, keep);
    FollowsFurther(s, u, t, k, keep);
  }

  /** A loader of a design returns, after its nested archive call if it waits for one. */
  lemma {:induction false} RunDesignLoader(s: State, d: CallId, k: Key, keep: set<CallId>) returns (t: State)
    requires Inv(s) && d in s.calls && d !in keep && s.calls[d].key.kind.DesignKind?
    requires IsLoader(s.calls[d].pc) || s.calls[d].pc.Returned?
    requires forall e :: e in keep && e in s.calls ==> s.calls[e].key.kind.DesignKind?
    ensures Follows(s, t, k, keep) && t.calls[d].pc.Returned?
    decreases StepsLeft(s.calls[d].pc)
  {
    var pc := s.calls[d].pc;
    if pc.Returned? {
      FollowsItself(s, k, keep);
      return s;
    }
    assert CallOk(s, d);
    var u := s;
    if pc.AwaitArchive? {
      u := RunArchiveCall(s, pc.child, k, keep + {d});
    } else {
      FollowsItself(s, k, keep);
    }
    var v := FollowsStep(u, d, OnwardChoice(pc), k, keep);
    t := RunDesignLoader(v, d, k, keep);
    FollowsFurther(s, u, v, k, keep);
    FollowsFurther(s, v, t, k, keep);
  }

  /** All other calls of the given kind. */
  function Others(s: State, kind: Kind, d: CallId): set<CallId> {
    set e | e in s.calls && e != d && s.calls[e].key.kind == kind
  }

  lemma OnlyItsLoader(s: State, k: Key)
    requires Inv(s) && k in s.inFlight
    ensures forall e :: CallFor(s, e, k) && IsLoader(s.calls[e].pc) ==> e == s.inFlight[k]
  {
    forall e | CallFor(s, e, k) && IsLoader(s.calls[e].pc)
      ensures e == s.inFlight[k]
    {
      assert CallOk(s, e);
    }
  }

  /** The loader of a key in flight can be run to its end, leaving all other calls for the
      key where they are; then the key is not in flight. */
  lemma LoaderCanLeave(s: State, k: Key) returns (t: State)
    requires Inv(s) && k in s.inFlight
    ensures Inv(t) && Reaches(s, t, k) && k !in t.inFlight
    ensures forall e :: CallFor(s, e, k) && e != s.inFlight[k] ==> CallFor(t, e, k) && t.calls[e] == s.calls[e]
  {
    var d := s.inFlight[k];
    assert FlightOk(s, k);
    var keep := Others(s, k.kind, d);
    if k.kind.ArchiveKind? {
      t := RunArchiveLoader(s, d, k, keep);
    } else {
      t := RunDesignLoader(s, d, k, keep);
    }
    OnlyItsLoader(s, k);
    assert k in t.inFlight ==> FlightOk(t, k);
  }

  // ---- exactly when another parse is possible ----

  /** From Announce one step leads to the parse, from Enroll two, from Capture three. */
  lemma AnnouncerParses(s: State, c: CallId, k: Key)
    requires CallFor(s, c, k) && (s.calls[c].pc.Announce? || s.calls[c].pc.Parse?)
    ensures CanStillParse(s, c, k)
  {
    ReachesItself(s, k);
    if s.calls[c].pc.Announce? {
      ReachesStep(s, c, Go, k);
    }
  }

  lemma EnrollerParses(s: State, c: CallId, k: Key)
    requires CallFor(s, c, k) && s.calls[c].pc.Enroll? && k !in s.inFlight
    ensures CanStillParse(s, c, k)
  {
    ReachesStep(s, c, Go, k);
    AnnouncerParses(Advance(s, c, Go), c, k);
    ParsesFurtherOn(s, Advance(s, c, Go), c, k);
  }

  lemma CapturerParses(s: State, c: CallId, k: Key)
    requires CallFor(s, c, k) && s.calls[c].pc.Capture? && k !in s.inFlight
    ensures CanStillParse(s, c, k)
  {
    ReachesStep(s, c, Go, k);
    EnrollerParses(Advance(s, c, Go), c, k);
    ParsesFurtherOn(s, Advance(s, c, Go), c, k);
  }

  lemma RacerParses(s: State, c: CallId, k: Key)
    requires Inv(s) && CallFor(s, c, k) && InTheRace(s.calls[c].pc)
    ensures CanStillParse(s, c, k)
  {
    var pc := s.calls[c].pc;
    if pc.Announce? || pc.Parse? {
      AnnouncerParses(s, c, k);
    } else {
      var t := s;
      if k in s.inFlight {
        assert FlightOk(s, k);
        t := LoaderCanLeave(s, k);
      } else {
        ReachesItself(s, k);
      }
      if pc.Enroll? {
        EnrollerParses(t, c, k);
      } else {
        CapturerParses(t, c, k);
      }
      ParsesFurtherOn(s, t, c, k);
    }
  }

  /** Exactly when one parse is not enough: in any reachable state with the key cached, a
      call for it can still parse it, in some continuation that leaves the key alone, if
      and only if it stands between its cache miss and its parse. */
  lemma ParsesAgainIff(tr: seq<State>, ls: seq<Label>, i: nat, c: CallId, k: Key)
    requires Run(tr, ls) && i < |tr| && k in tr[i].cache && CallFor(tr[i], c, k)
    ensures CanStillParse(tr[i], c, k) <==> InTheRace(tr[i].calls[c].pc)
  {
    var s := tr[i];
    InvAlways(tr, ls, i);
    if InTheRace(s.calls[c].pc) {
      RacerParses(s, c, k);
    } else if CanStillParse(s, c, k) {
      var t :| Reaches(s, t, k) && CallFor(t, c, k) && t.calls[c].pc.Parse?;
      var tr', ls' :| Connects(tr', ls', s, t, k);
      OutOfTheRaceForGood(tr', ls', c, k, |ls'|);
      assert false;
    }
  }
}
