/** What a call has seen, and that its outcome and its effect on the cache follow from it.
    The log of a call is read off the run alone: the generations and epochs it looked at,
    how its parse ended, and what the cache held after its insertion. */
module SingleFlightHistory {
  import opened Basics
  import opened CacheKeys
  import opened SingleFlight
  import opened SingleFlightResults

  datatype Log = Log(
    captured: Option<nat>,       // generation before registering
    enrolled: Option<nat>,       // epoch when it looked at the in-flight map
    parsed: Option<Outcome>,     // how its parse ended
    compared: Option<nat>,       // generation after the parse
    decided: Option<nat>,        // epoch after the parse
    kept: Option<Obj>,           // what the cache held for the key after its insertion
    interrupted: Option<nat>)    // exception outside the parse

  const BLANK: Log := Log(None, None, None, None, None, None, None)

  /** What step x of call c, taken in s and leading to t, adds to its log. */
  function Noted(log: Log, s: State, c: CallId, x: Choice, t: State): Log
    requires c in s.calls
  {
    var key := s.calls[c].key;
    match x
    case Found(o) => log.(parsed := Some(Value(o)))
    case Missing => log.(parsed := Some(Null))
    case Raise(e) =>
      if s.calls[c].pc.Parse? || s.calls[c].pc.Assemble? then log.(parsed := Some(Thrown(e)))
      else log.(interrupted := Some(e))
    case Child(_) => log
    case Go =>
      match s.calls[c].pc
      case Capture => log.(captured := Some(Gen(s, key.name)))
      case Enroll(_) => log.(enrolled := Some(s.epoch))
      case AwaitArchive(_, ch) =>
        if ch in s.calls && s.calls[ch].pc.Returned? && !s.calls[ch].pc.out.Value?
        then log.(parsed := Some(s.calls[ch].pc.out)) else log
      case Compare(_, _) => log.(compared := Some(Gen(s, key.name)))
      case Decide(_, _, _) => log.(decided := Some(s.epoch))
      case Insert(_) => log.(kept := CachedAt(t, key))
      case _ => log
  }

  /** The log of call c after the first i steps. */
  ghost function LogOf(tr: seq<State>, ls: seq<Label>, c: CallId, i: nat): Log
    requires |tr| == |ls| + 1 && i < |tr|
  {
    if i == 0 then BLANK
    else
      var log := LogOf(tr, ls, c, i - 1);
      if ls[i-1].Step? && ls[i-1].c == c && c in tr[i-1].calls
      then Noted(log, tr[i-1], c, ls[i-1].x, tr[i]) else log
  }

  /** The name was not invalidated, nor the cache cleared, between the two looks. */
  predicate Unchanged(log: Log) {
    && log.captured.Some? && log.captured == log.compared
    && log.enrolled.Some? && log.enrolled == log.decided
  }

  predicate Overtaken(log: Log) {
    log.decided.Some? && (log.captured != log.compared || log.enrolled != log.decided)
  }

  /** What a loader with this log has to answer. */
  predicate Answers(log: Log, o: Outcome) {
    if log.interrupted.Some? then o == Thrown(log.interrupted.value)
    else
      match log.parsed
      case None => false
      case Some(Value(v)) => o == Value(if log.kept.Some? then log.kept.value else v)
      case Some(other) => o == other
  }

  predicate Marked(log: Log, m: Mark) {
    log.captured == Some(m.gen) && log.enrolled == Some(m.epoch) && log.interrupted.None?
  }

  predicate Undecided(log: Log) {
    log.decided.None? && log.kept.None?
  }

  /** What the program point of a call says about its log. */
  predicate Remembers(pc: Pc, log: Log) {
    match pc
    case Lookup => log == BLANK
    case Serve(_) => log == BLANK
    case Capture => log == BLANK
    case Enroll(g) => log == BLANK.(captured := Some(g))
    case Join(_) => Undecided(log) && log.parsed.None?
    case TouchJoined(_, _) => Undecided(log) && log.parsed.None?
    case Announce(m) => Marked(log, m) && Undecided(log) && log.compared.None? && log.parsed.None?
    case Parse(m) => Marked(log, m) && Undecided(log) && log.compared.None? && log.parsed.None?
    case AwaitArchive(m, _) => Marked(log, m) && Undecided(log) && log.compared.None? && log.parsed.None?
    case Assemble(m, _) => Marked(log, m) && Undecided(log) && log.compared.None? && log.parsed.None?
    case Compare(m, v) => Marked(log, m) && Undecided(log) && log.compared.None? && log.parsed == Some(Value(v))
    case Decide(m, v, bumped) =>
      && Marked(log, m) && Undecided(log) && log.parsed == Some(Value(v))
      && log.compared.Some? && bumped == (log.compared.value != m.gen)
    case Insert(v) => Unchanged(log) && log.parsed == Some(Value(v)) && log.kept.None? && log.interrupted.None?
    case Charge(v) => Published(log, v)
    case Schedule(v) => Published(log, v)
    case RecordLoaded(v) => Published(log, v)
    case Settle(o, _) => Settled(log, o)
    case Bookkeep(o) => Settled(log, o)
    case Erase(o) => Settled(log, o)
    case Returned(o, via) =>
      && (via == Ran ==> Settled(log, o))
      && (via == Early ==> log.interrupted.Some? && o == Thrown(log.interrupted.value))
  }

  predicate Published(log: Log, v: Obj) {
    Unchanged(log) && log.parsed.Some? && log.parsed.value.Value? && log.kept == Some(v) && log.interrupted.None?
  }

  predicate Settled(log: Log, o: Outcome) {
    Answers(log, o) && (log.kept.Some? ==> Unchanged(log))
  }

  // ---- the log is kept ----

  lemma LookupRemembers(s: State, c: CallId, log: Log)
    requires c in s.calls && (s.calls[c].pc.Lookup? || s.calls[c].pc.Capture?) && Remembers(s.calls[c].pc, log)
    ensures var t := Ask(s, c); c in t.calls && Remembers(t.calls[c].pc, Noted(log, s, c, Go, t))
  {
  }

  lemma EnrollRemembers(s: State, c: CallId, log: Log)
    requires c in s.calls && s.calls[c].pc.Enroll? && Remembers(s.calls[c].pc, log)
    ensures var t := Ask(s, c); c in t.calls && Remembers(t.calls[c].pc, Noted(log, s, c, Go, t))
  {
  }

  lemma JoinRemembers(s: State, c: CallId, log: Log)
    requires c in s.calls && s.calls[c].pc.Join? && CanStep(s, c, Go) && Remembers(s.calls[c].pc, log)
    ensures var t := Ask(s, c); c in t.calls && Remembers(t.calls[c].pc, Noted(log, s, c, Go, t))
  {
  }

  lemma HandBackRemembers(s: State, c: CallId, log: Log)
    requires c in s.calls && (s.calls[c].pc.Serve? || s.calls[c].pc.TouchJoined?) && Remembers(s.calls[c].pc, log)
    ensures var t := Ask(s, c); c in t.calls && Remembers(t.calls[c].pc, Noted(log, s, c, Go, t))
  {
  }

  lemma AskRemembers(s: State, c: CallId, log: Log)
    requires c in s.calls && CanStep(s, c, Go) && !IsLoader(s.calls[c].pc) && Remembers(s.calls[c].pc, log)
    ensures var t := Ask(s, c); c in t.calls && Remembers(t.calls[c].pc, Noted(log, s, c, Go, t))
  {
    var pc := s.calls[c].pc;
    if pc.Enroll? {
      EnrollRemembers(s, c, log);
    } else if pc.Join? {
      JoinRemembers(s, c, log);
    } else if pc.Serve? || pc.TouchJoined? {
      HandBackRemembers(s, c, log);
    } else {
      LookupRemembers(s, c, log);
    }
  }

  lemma AwaitRemembers(s: State, c: CallId, log: Log)
    requires c in s.calls && CanStep(s, c, Go) && s.calls[c].pc.AwaitArchive? && Remembers(s.calls[c].pc, log)
    ensures var t := Work(s, c); c in t.calls && Remembers(t.calls[c].pc, Noted(log, s, c, Go, t))
  {
  }

  lemma InsertRemembers(s: State, c: CallId, log: Log)
    requires c in s.calls && s.calls[c].pc.Insert? && Remembers(s.calls[c].pc, log)
    ensures var t := Work(s, c); c in t.calls && Remembers(t.calls[c].pc, Noted(log, s, c, Go, t))
  {
    var k := s.calls[c].key;
    var kept := if k in s.cache then s.cache[k] else s.calls[c].pc.parsed;
    assert Work(s, c) == Goto(s, c, Charge(kept)).(cache := s.cache[k := kept]);
  }

  lemma PublishRemembers(s: State, c: CallId, log: Log)
    requires c in s.calls && (s.calls[c].pc.Settle? || s.calls[c].pc.Erase?) && Remembers(s.calls[c].pc, log)
    ensures var t := Work(s, c); c in t.calls && Remembers(t.calls[c].pc, Noted(log, s, c, Go, t))
  {
  }

  /** The note taken at a step that touches no shared map. */
  function PrivatelyNoted(log: Log, pc: Pc, gen: nat, epoch: nat): Log {
    if pc.Compare? then log.(compared := Some(gen))
    else if pc.Decide? then log.(decided := Some(epoch))
    else log
  }

  lemma NextPcRemembers(pc: Pc, gen: nat, epoch: nat, log: Log)
    requires Private(pc) && !pc.Parse? && !pc.Assemble? && Remembers(pc, log)
    ensures Remembers(NextPc(pc, gen, epoch), PrivatelyNoted(log, pc, gen, epoch))
  {
  }

  lemma PrivateRemembers(s: State, c: CallId, log: Log)
    requires c in s.calls && CanStep(s, c, Go) && Private(s.calls[c].pc) && Remembers(s.calls[c].pc, log)
    ensures var t := Work(s, c); c in t.calls && Remembers(t.calls[c].pc, Noted(log, s, c, Go, t))
  {
    var pc, gen := s.calls[c].pc, Gen(s, s.calls[c].key.name);
    var t := Work(s, c);
    NextPcRemembers(pc, gen, s.epoch, log);
    assert t == Goto(s, c, NextPc(pc, gen, s.epoch));
    assert Noted(log, s, c, Go, t) == PrivatelyNoted(log, pc, gen, s.epoch);
  }

  lemma OtherRemembers(s: State, c: CallId, x: Choice, log: Log)
    requires c in s.calls && CanStep(s, c, x) && !x.Go? && Remembers(s.calls[c].pc, log)
    ensures var t := Advance(s, c, x); c in t.calls && Remembers(t.calls[c].pc, Noted(log, s, c, x, t))
  {
  }

  lemma OwnStepRemembers(s: State, c: CallId, x: Choice, log: Log)
    requires c in s.calls && CanStep(s, c, x) && Remembers(s.calls[c].pc, log)
    ensures var t := Advance(s, c, x); c in t.calls && Remembers(t.calls[c].pc, Noted(log, s, c, x, t))
  {
    var pc := s.calls[c].pc;
    if !x.Go? {
      OtherRemembers(s, c, x, log);
    } else if !IsLoader(pc) {
      AskRemembers(s, c, log);
    } else if pc.AwaitArchive? {
      AwaitRemembers(s, c, log);
    } else if pc.Insert? {
      InsertRemembers(s, c, log);
    } else if pc.Settle? || pc.Erase? {
      PublishRemembers(s, c, log);
    } else {
      PrivateRemembers(s, c, log);
    }
  }

  lemma {:induction false} RemembersAlways(tr: seq<State>, ls: seq<Label>, c: CallId, i: nat)
    requires Run(tr, ls) && i < |tr|
    ensures if c in tr[i].calls then Remembers(tr[i].calls[c].pc, LogOf(tr, ls, c, i))
            else LogOf(tr, ls, c, i) == BLANK
  {
    if i > 0 {
      RemembersAlways(tr, ls, c, i - 1);
      var s, l := tr[i-1], ls[i-1];
      assert Leads(tr, ls, i - 1);
      if l.Step? {
        if l.c == c {
          OwnStepRemembers(s, c, l.x, LogOf(tr, ls, c, i - 1));
        } else {
          StepFrame(s, l.c, l.x, s.calls[l.c].key);
        }
      }
    }
  }

  // ---- what every run guarantees ----

  /** Step j is a step of call c. */
  predicate StepOf(tr: seq<State>, ls: seq<Label>, c: CallId, j: nat) {
    j < |ls| && j < |tr| && ls[j].Step? && ls[j].c == c && c in tr[j].calls
  }

  lemma OnlyInsertWrites(s: State, c: CallId, x: Choice)
    requires c in s.calls && CanStep(s, c, x) && Advance(s, c, x).cache != s.cache
    ensures x == Go && s.calls[c].pc.Insert? && s.calls[c].key !in s.cache
    ensures Advance(s, c, x).cache == s.cache[s.calls[c].key := s.calls[c].pc.parsed]
  {
    if x.Go? && !s.calls[c].pc.Insert? {
      QuietStepWritesNothing(s, c);
    }
  }

  lemma QuietStepWritesNothing(s: State, c: CallId)
    requires c in s.calls && CanStep(s, c, Go) && !s.calls[c].pc.Insert?
    ensures Advance(s, c, Go).cache == s.cache
  {
    if IsLoader(s.calls[c].pc) {
      WhereLoadersWrite(s, c);
    } else {
      WhereCallersWrite(s, c);
    }
  }

  /** Whatever a call writes into the cache is what its own parse found, under its own key,
      which was not cached; and its name was not invalidated between its two looks at the
      generation, nor the cache cleared between its two looks at the epoch. */
  lemma CacheWritesAreCurrent(tr: seq<State>, ls: seq<Label>, c: CallId, j: nat)
    requires Run(tr, ls) && StepOf(tr, ls, c, j) && tr[j+1].cache != tr[j].cache
    ensures var log, k := LogOf(tr, ls, c, j), tr[j].calls[c].key;
      && log.captured.Some? && log.captured == log.compared
      && log.enrolled.Some? && log.enrolled == log.decided
      && log.parsed.Some? && log.parsed.value.Value?
      && k !in tr[j].cache && tr[j+1].cache == tr[j].cache[k := log.parsed.value.obj]
  {
    RemembersAlways(tr, ls, c, j);
    assert Leads(tr, ls, j);
    OnlyInsertWrites(tr[j], c, ls[j].x);
  }

  /** The decision itself: after its look at the epoch a loader goes on to insert what it
      parsed if both looks agree, and otherwise settles with it. */
  lemma DecisionFollowsTheLog(tr: seq<State>, ls: seq<Label>, c: CallId, j: nat)
    requires Run(tr, ls) && StepOf(tr, ls, c, j) && ls[j].x == Go && tr[j].calls[c].pc.Decide?
    ensures var log := LogOf(tr, ls, c, j + 1);
      && c in tr[j+1].calls && log.parsed.Some? && log.parsed.value.Value? && log.decided == Some(tr[j].epoch)
      && tr[j+1].calls[c].pc ==
         (if log.captured == log.compared && log.enrolled == log.decided then Insert(log.parsed.value.obj)
          else Settle(log.parsed.value, Abandoned))
  {
    RemembersAlways(tr, ls, c, j);
    assert Leads(tr, ls, j);
    var s := tr[j];
    var pc, gen := s.calls[c].pc, Gen(s, s.calls[c].key.name);
    assert Work(s, c) == Goto(s, c, NextPc(pc, gen, s.epoch));
  }

  /** Once a call has decided, its looks are over. */
  lemma {:induction false} DecidedForGood(tr: seq<State>, ls: seq<Label>, c: CallId, i: nat, j: nat)
    requires Run(tr, ls) && i <= j < |tr| && LogOf(tr, ls, c, i).decided.Some?
    ensures var a, b := LogOf(tr, ls, c, i), LogOf(tr, ls, c, j);
      a.captured == b.captured && a.enrolled == b.enrolled && a.compared == b.compared && a.decided == b.decided
      && a.parsed == b.parsed
    decreases j
  {
    if i < j {
      DecidedForGood(tr, ls, c, i, j - 1);
      RemembersAlways(tr, ls, c, j - 1);
      assert Leads(tr, ls, j - 1);
    }
  }

  /** A load that was overtaken is abandoned: if a call's two looks at the generation or at
      the epoch differ, no step of it in the whole run changes the cache, and when it
      returns as a loader, it returns what its own parse found, unless an exception
      interrupted it. */
  lemma OvertakenLoadsAreAbandoned(tr: seq<State>, ls: seq<Label>, c: CallId, i: nat, j: nat)
    requires Run(tr, ls) && i < |tr| && Overtaken(LogOf(tr, ls, c, i))
    ensures StepOf(tr, ls, c, j) ==> tr[j+1].cache == tr[j].cache
    ensures j < |tr| && c in tr[j].calls && tr[j].calls[c].pc.Returned? && tr[j].calls[c].pc.via == Ran ==>
              var log, o := LogOf(tr, ls, c, j), tr[j].calls[c].pc.out;
              if log.interrupted.Some? then o == Thrown(log.interrupted.value) else log.parsed == Some(o)
  {
    if StepOf(tr, ls, c, j) && tr[j+1].cache != tr[j].cache {
      CacheWritesAreCurrent(tr, ls, c, j);
      SameDecision(tr, ls, c, i, j);
      assert false;
    }
    if j < |tr| && c in tr[j].calls && tr[j].calls[c].pc.Returned? && tr[j].calls[c].pc.via == Ran {
      RemembersAlways(tr, ls, c, j);
      if LogOf(tr, ls, c, j).kept.Some? {
        SameDecision(tr, ls, c, i, j);
      }
    }
  }

  lemma SameDecision(tr: seq<State>, ls: seq<Label>, c: CallId, i: nat, j: nat)
    requires Run(tr, ls) && i < |tr| && j < |tr|
    requires LogOf(tr, ls, c, i).decided.Some? && LogOf(tr, ls, c, j).decided.Some?
    ensures Overtaken(LogOf(tr, ls, c, i)) == Overtaken(LogOf(tr, ls, c, j))
  {
    if i <= j {
      DecidedForGood(tr, ls, c, i, j);
    } else {
      DecidedForGood(tr, ls, c, j, i);
    }
  }

  /** A loader answers as its own parse ended: with its exception, with nothing, or with an
      object, which is the one the cache held after its insertion if it got that far; an
      exception outside the parse takes precedence. A call that never registered and
      threw answers with that exception. */
  lemma LoadersAnswerAsTheyParsed(tr: seq<State>, ls: seq<Label>, c: CallId, i: nat)
    requires Run(tr, ls) && i < |tr| && c in tr[i].calls && tr[i].calls[c].pc.Returned?
    ensures var log, pc := LogOf(tr, ls, c, i), tr[i].calls[c].pc;
      && (pc.via == Ran ==>
            if log.interrupted.Some? then pc.out == Thrown(log.interrupted.value)
            else log.parsed.Some? && pc.out ==
                 if log.parsed.value.Value? && log.kept.Some? then Value(log.kept.value) else log.parsed.value)
      && (pc.via == Early ==> log.interrupted.Some? && pc.out == Thrown(log.interrupted.value))
  {
    RemembersAlways(tr, ls, c, i);
  }
}
