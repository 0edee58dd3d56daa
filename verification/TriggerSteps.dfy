/**
  The trigger under every interleaving: any number of callers of `Trigger`, each between its critical
  section and its send, the one waiter, a clock that never runs backwards, and `Shutdown`.
 */
module TriggerSteps {
  import opened Trigger

  /** What has happened so far, oldest first. */
  datatype Event =
    | Requested
    | Stamped(at: int, folds: int)
    | Started
    | Finished
    | Woken
    | ShutdownRan

  datatype Pc = Top | Check | Sleeping(until: int) | Stamp | Call | Running | Select | Closing | Stopped {
    /** The waiter has taken the flag and will start a run. */
    predicate OnTheWay() { Check? || Sleeping? || Stamp? || Call? }
    predicate Over() { Closing? || Stopped? }
  }

  /** `sending`: how many callers are between setting the flag and sending the token. */
  datatype State = State(f: Fields, pc: Pc, sending: nat, now: int, log: seq<Event>)

  datatype Step = Request | Send | Shutdown | Tick(dt: nat) | Work | SeeClosed

  function Init(p: Params, now: int): State {
    State(NewFields(p, now), Top, 0, now, [])
  }

  /** `Work` is the waiter's next step; at `Select` it takes the token, and `SeeClosed` the other case. */
  predicate Enabled(s: State, step: Step) {
    match step
    case Request => true
    case Send => s.sending > 0
    case Shutdown => !s.f.closed
    case Tick(_) => true
    case Work =>
      (match s.pc
       case Sleeping(until) => s.now >= until
       case Select => s.f.slot
       case Stopped => false
       case _ => true)
    case SeeClosed => s.pc.Select? && s.f.closed
  }

  function WaiterStep(p: Params, s: State): State {
    match s.pc
    case Top => s.(f := TakeOf(s.f), pc := if s.f.flag then Check else Select)
    case Check => s.(pc := if DelayNeeded(p, s.f, s.now) then Sleeping(s.now - Lateness(p, s.f, s.now)) else Stamp)
    case Sleeping(_) => s.(pc := Stamp)
    case Stamp => s.(f := StampOf(s.f, s.now), pc := Call)
    case Call => s.(pc := Running)
    case Running => s.(pc := Select)
    case Select => s.(f := ReceiveOf(s.f), pc := Top)
    case Closing => s.(pc := Stopped)
    case Stopped => s
  }

  function Effect(p: Params, s: State, step: Step): State {
    match step
    case Request => s.(f := RequestOf(s.f), sending := s.sending + 1)
    case Send => if s.sending > 0 then s.(f := WakeOf(s.f), sending := s.sending - 1) else s
    case Shutdown => s.(f := s.f.(closed := true))
    case Tick(dt) => s.(now := s.now + dt)
    case Work => WaiterStep(p, s)
    case SeeClosed => s.(pc := Closing)
  }

  /** What a step adds to the log. */
  function Emit(p: Params, s: State, step: Step): seq<Event> {
    match step
    case Request => [Requested]
    case Work =>
      (match s.pc
       case Stamp => [Stamped(s.now, s.f.numFolds)]
       case Call => [Started]
       case Running => [Finished]
       case Select => [Woken]
       case Closing => if p.hasShutdownFunc then [ShutdownRan] else []
       case _ => [])
    case _ => []
  }

  function Do(p: Params, s: State, step: Step): State {
    Effect(p, s, step).(log := s.log + Emit(p, s, step))
  }

  // ------------------------------------------------------------ runs

  function After(p: Params, s: State, steps: seq<Step>): State {
    if steps == [] then s else Do(p, After(p, s, steps[..|steps| - 1]), steps[|steps| - 1])
  }

  /** Every step of the run is possible where it is made. */
  predicate Possible(p: Params, s: State, steps: seq<Step>) {
    steps == [] ||
    (Possible(p, s, steps[..|steps| - 1]) && Enabled(After(p, s, steps[..|steps| - 1]), steps[|steps| - 1]))
  }

  /** The state that a run of the trigger has reached. */
  function At(p: Params, now: nat, steps: seq<Step>): State {
    After(p, Init(p, now), steps)
  }

  predicate IsRun(p: Params, now: nat, steps: seq<Step>) {
    Possible(p, Init(p, now), steps)
  }

  // ------------------------------------------------------------ counting over the log

  function Sum(log: seq<Event>, weight: Event -> int): int {
    if log == [] then 0 else Sum(log[..|log| - 1], weight) + weight(log[|log| - 1])
  }

  function Weigh(es: seq<Event>, weight: Event -> int): int {
    if es == [] then 0 else weight(es[0])
  }

  /** One step adds to a sum the weight of what it emits. */
  lemma SumAppend(log: seq<Event>, es: seq<Event>, weight: Event -> int)
    requires |es| <= 1
    ensures Sum(log + es, weight) == Sum(log, weight) + Weigh(es, weight)
  {
    if es == [] {
      assert log + es == log;
    } else {
      assert (log + es)[..|log|] == log && (log + es)[|log|] == es[0];
    }
  }

  function IsRequest(e: Event): int { if e.Requested? then 1 else 0 }
  function IsStart(e: Event): int { if e.Started? then 1 else 0 }
  function IsShutdown(e: Event): int { if e.ShutdownRan? then 1 else 0 }
  function FoldsOf(e: Event): int { if e.Stamped? then e.folds else 0 }
  function InProgress(e: Event): int { if e.Started? then 1 else if e.Finished? then -1 else 0 }

  /** Every request is followed by the start of a run. */
  ghost predicate Served(log: seq<Event>) {
    forall i | 0 <= i < |log| && log[i].Requested? :: exists j :: i < j < |log| && log[j].Started?
  }

  /** The recorded starting times of runs, in order. */
  function Stamps(log: seq<Event>): seq<int> {
    if log == [] then []
    else
      var init, e := Stamps(log[..|log| - 1]), log[|log| - 1];
      if e.Stamped? then init + [e.at] else init
  }

  ghost predicate Apart(stamps: seq<int>, min: int) {
    forall i, j | 0 <= i < j < |stamps| && j == i + 1 :: stamps[i] + min <= stamps[j]
  }

  // ------------------------------------------------------------ invariants

  function Bit(b: bool): int { if b then 1 else 0 }

  /** Requests since the last recorded start. */
  function Since(log: seq<Event>): nat {
    if log == [] then 0
    else
      var e := log[|log| - 1];
      if e.Stamped? then 0 else Since(log[..|log| - 1]) + IsRequest(e)
  }

  ghost predicate CountInv(s: State) {
    && s.f.numFolds == Since(s.log)
    && (forall i | 0 <= i < |s.log| && s.log[i].Stamped? :: s.log[i].folds == Since(s.log[..i]))
    && Sum(s.log, FoldsOf) + s.f.numFolds == Sum(s.log, IsRequest)
    && Sum(s.log, IsStart) + Bit(s.f.flag) + Bit(s.pc.OnTheWay()) <= Sum(s.log, IsRequest)
  }

  /** How a step changes the fields, told by what it emits. */
  predicate CountLink(s: State, t: State, es: seq<Event>) {
    && t.log == s.log + es && |es| <= 1
    && Weigh(es, FoldsOf) + t.f.numFolds == s.f.numFolds + Weigh(es, IsRequest)
    && (t.f.numFolds == if es != [] && es[0].Stamped? then 0 else s.f.numFolds + Weigh(es, IsRequest))
    && (es != [] && es[0].Stamped? ==> es[0].folds == s.f.numFolds)
    && Weigh(es, IsStart) + Bit(t.f.flag) + Bit(t.pc.OnTheWay())
       <= Bit(s.f.flag) + Bit(s.pc.OnTheWay()) + Weigh(es, IsRequest)
  }

  lemma CountLinked(p: Params, s: State, step: Step)
    requires Enabled(s, step)
    ensures CountLink(s, Do(p, s, step), Emit(p, s, step))
  {
  }

  lemma CountStep(s: State, t: State, es: seq<Event>)
    requires CountInv(s) && CountLink(s, t, es)
    ensures CountInv(t)
  {
    SumAppend(s.log, es, FoldsOf);
    SumAppend(s.log, es, IsRequest);
    SumAppend(s.log, es, IsStart);
    SinceStep(s, es);
  }

  lemma SinceStep(s: State, es: seq<Event>)
    requires |es| <= 1 && (es != [] && es[0].Stamped? ==> es[0].folds == Since(s.log))
    requires forall i | 0 <= i < |s.log| && s.log[i].Stamped? :: s.log[i].folds == Since(s.log[..i])
    ensures Since(s.log + es) == if es == [] then Since(s.log) else if es[0].Stamped? then 0 else Since(s.log) + IsRequest(es[0])
    ensures forall i | 0 <= i < |s.log + es| && (s.log + es)[i].Stamped? :: (s.log + es)[i].folds == Since((s.log + es)[..i])
  {
    if es == [] {
      assert s.log + es == s.log;
    } else {
      assert (s.log + es)[..|s.log|] == s.log;
      forall i | 0 <= i < |s.log + es| && (s.log + es)[i].Stamped?
        ensures (s.log + es)[i].folds == Since((s.log + es)[..i])
      {
        assert (s.log + es)[..i] == s.log[..i];
      }
    }
  }

  ghost predicate WakeInv(s: State) {
    && (s.f.flag ==> s.f.slot || s.sending > 0 || s.pc.Top? || s.pc.Over())
    && (Served(s.log) || s.f.flag || s.pc.OnTheWay())
  }

  lemma WakeStep(p: Params, s: State, step: Step)
    requires WakeInv(s) && Enabled(s, step)
    ensures WakeInv(Do(p, s, step))
  {
    var es := Emit(p, s, step);
    if es != [] && es[0].Started? {
      assert (s.log + es)[|s.log|].Started?;
    } else if Served(s.log) && !step.Request? {
      StillServed(s.log, es);
    }
  }

  lemma StillServed(log: seq<Event>, es: seq<Event>)
    requires Served(log) && forall e | e in es :: !e.Requested?
    ensures Served(log + es)
  {
    assert forall k | 0 <= k < |es| :: es[k] in es;
    forall i | 0 <= i < |log + es| && (log + es)[i].Requested?
      ensures exists j :: i < j < |log + es| && (log + es)[j].Started?
    {
      var j :| i < j < |log| && log[j].Started?;
      assert (log + es)[j].Started?;
    }
  }

  ghost predicate RateInv(p: Params, s: State) {
    && 0 <= s.now && s.f.last <= s.now
    && Apart(Stamps(s.log), p.minInterval)
    && (if Stamps(s.log) == [] then !DelayNeeded(p, s.f, s.now) else Stamps(s.log)[|Stamps(s.log)| - 1] == s.f.last)
    && (s.pc.Sleeping? ==> s.pc.until == s.f.last + p.minInterval)
    && (s.pc.Stamp? ==> s.now >= s.f.last + p.minInterval)
  }

  predicate RateLink(p: Params, s: State, t: State, es: seq<Event>) {
    && t.log == s.log + es && |es| <= 1
    && t.now >= s.now
    && (if es != [] && es[0].Stamped?
        then es[0].at == t.f.last == t.now == s.now && s.now >= s.f.last + p.minInterval
        else t.f.last == s.f.last)
    && (t.pc.Sleeping? ==> s.pc == t.pc || t.pc.until == s.f.last + p.minInterval)
    && (t.pc.Stamp? ==> s.pc.Stamp? || t.now >= s.f.last + p.minInterval)
    && (t.pc.Stamp? || t.pc.Sleeping? ==> t.f.last == s.f.last)
  }

  lemma RateLinked(p: Params, s: State, step: Step)
    requires RateInv(p, s) && Enabled(s, step)
    ensures RateLink(p, s, Do(p, s, step), Emit(p, s, step))
  {
  }

  lemma RateStep(p: Params, s: State, t: State, es: seq<Event>)
    requires RateInv(p, s) && RateLink(p, s, t, es)
    ensures RateInv(p, t)
  {
    if es == [] {
      assert t.log == s.log;
    } else {
      assert t.log[..|s.log|] == s.log && t.log[|s.log|] == es[0];
    }
  }

  /** Runs of the function follow one another, and the shutdown function comes last and once. */
  ghost predicate SerialInv(p: Params, s: State) {
    && Sum(s.log, InProgress) == Bit(s.pc.Running?)
    && (forall k | 0 <= k <= |s.log| :: 0 <= Sum(s.log[..k], InProgress) <= 1)
    && Sum(s.log, IsShutdown) == Bit(s.pc.Stopped? && p.hasShutdownFunc)
    && (s.pc.Over() ==> s.f.closed)
  }

  predicate SerialLink(p: Params, s: State, t: State, es: seq<Event>) {
    && t.log == s.log + es && |es| <= 1
    && Bit(s.pc.Running?) + Weigh(es, InProgress) == Bit(t.pc.Running?)
    && Bit(s.pc.Stopped? && p.hasShutdownFunc) + Weigh(es, IsShutdown) == Bit(t.pc.Stopped? && p.hasShutdownFunc)
    && (t.pc.Over() ==> s.pc.Over() || t.f.closed) && (s.f.closed ==> t.f.closed)
  }

  lemma SerialLinked(p: Params, s: State, step: Step)
    requires Enabled(s, step)
    ensures SerialLink(p, s, Do(p, s, step), Emit(p, s, step))
  {
  }

  lemma SerialStep(p: Params, s: State, t: State, es: seq<Event>)
    requires SerialInv(p, s) && SerialLink(p, s, t, es)
    ensures SerialInv(p, t)
  {
    SumAppend(s.log, es, InProgress);
    SumAppend(s.log, es, IsShutdown);
    PrefixStep(s.log, es);
  }

  lemma PrefixStep(log: seq<Event>, es: seq<Event>)
    requires |es| <= 1 && 0 <= Sum(log + es, InProgress) <= 1
    requires forall k | 0 <= k <= |log| :: 0 <= Sum(log[..k], InProgress) <= 1
    ensures forall k | 0 <= k <= |log + es| :: 0 <= Sum((log + es)[..k], InProgress) <= 1
  {
    forall k | 0 <= k <= |log + es| ensures 0 <= Sum((log + es)[..k], InProgress) <= 1 {
      assert (log + es)[..k] == if k <= |log| then log[..k] else log + es;
    }
  }

  ghost predicate Inv(p: Params, s: State) {
    CountInv(s) && WakeInv(s) && RateInv(p, s) && SerialInv(p, s)
  }

  lemma InvStep(p: Params, s: State, step: Step)
    requires Inv(p, s) && Enabled(s, step)
    ensures Inv(p, Do(p, s, step))
  {
    var t, es := Do(p, s, step), Emit(p, s, step);
    CountLinked(p, s, step);
    CountStep(s, t, es);
    WakeStep(p, s, step);
    RateLinked(p, s, step);
    RateStep(p, s, t, es);
    SerialLinked(p, s, step);
    SerialStep(p, s, t, es);
  }

  lemma {:induction false} RunInv(p: Params, now: nat, steps: seq<Step>)
    requires IsRun(p, now, steps)
    ensures Inv(p, At(p, now, steps))
  {
    if steps != [] {
      RunInv(p, now, steps[..|steps| - 1]);
      InvStep(p, At(p, now, steps[..|steps| - 1]), steps[|steps| - 1]);
    }
  }

  // ------------------------------------------------------------ main results

  /** No lost trigger: until the waiter sees the shutdown, every request has been followed by the start
      of a run, or a run is about to start, or the flag is up and a token is there or on its way. */
  lemma NoLostTrigger(p: Params, now: nat, steps: seq<Step>)
    requires IsRun(p, now, steps)
    ensures var s := At(p, now, steps);
            s.pc.Over() || Served(s.log) || s.pc.OnTheWay() || (s.f.flag && (s.f.slot || s.sending > 0 || s.pc.Top?))
  {
    RunInv(p, now, steps);
  }

  /** So when the waiter is blocked and no caller is in the middle of a call, all is served. */
  lemma BlockedMeansServed(p: Params, now: nat, steps: seq<Step>)
    requires IsRun(p, now, steps)
    ensures var s := At(p, now, steps);
            s.pc.Select? && !s.f.slot && s.sending == 0 ==> Served(s.log)
  {
    RunInv(p, now, steps);
  }

  /** Each recorded start reports exactly the requests since the one before, so none is reported twice
      or forgotten, and there are never more runs than requests. */
  lemma FoldAccounting(p: Params, now: nat, steps: seq<Step>)
    requires IsRun(p, now, steps)
    ensures var s := At(p, now, steps);
            && (forall i | 0 <= i < |s.log| && s.log[i].Stamped? :: s.log[i].folds == Since(s.log[..i]))
            && Sum(s.log, FoldsOf) + s.f.numFolds == Sum(s.log, IsRequest)
            && Sum(s.log, IsStart) + Bit(s.f.flag) <= Sum(s.log, IsRequest)
  {
    RunInv(p, now, steps);
  }

  /** Recorded starts are `minInterval` apart, until the first one there is no delay, and afterwards none is
      longer than needed. */
  lemma RateLimited(p: Params, now: nat, steps: seq<Step>)
    requires IsRun(p, now, steps)
    ensures var s := At(p, now, steps);
            && Apart(Stamps(s.log), p.minInterval)
            && (Stamps(s.log) == [] ==> !DelayNeeded(p, s.f, s.now))
            && (s.pc.Sleeping? && Stamps(s.log) != [] ==> s.pc.until == Stamps(s.log)[|Stamps(s.log)| - 1] + p.minInterval)
  {
    RunInv(p, now, steps);
  }

  /** Runs follow one another, since the one waiter makes them: at no moment have more started than
      finished, except one. */
  lemma RunsNeverOverlap(p: Params, now: nat, steps: seq<Step>)
    requires IsRun(p, now, steps)
    ensures var log := At(p, now, steps).log;
            forall k | 0 <= k <= |log| :: 0 <= Sum(log[..k], InProgress) <= 1
  {
    RunInv(p, now, steps);
  }

  // ------------------------------------------------------------ shutdown

  lemma ClosedStep(p: Params, s: State, step: Step)
    ensures Do(p, s, step).f.closed <==> s.f.closed || step == Shutdown
  {
  }

  /** The close channel is closed by `Shutdown` and by nothing else, and only then does the waiter stop. */
  lemma {:induction false} ClosedIff(p: Params, now: nat, steps: seq<Step>)
    requires IsRun(p, now, steps)
    ensures At(p, now, steps).f.closed <==> Shutdown in steps
    ensures At(p, now, steps).pc.Over() ==> Shutdown in steps
  {
    RunInv(p, now, steps);
    if steps != [] {
      var before, last := steps[..|steps| - 1], steps[|steps| - 1];
      ClosedIff(p, now, before);
      ClosedStep(p, At(p, now, before), last);
      assert steps == before + [last];
    }
  }

  function Requests(steps: seq<Step>): nat {
    if steps == [] then 0
    else Requests(steps[..|steps| - 1]) + if steps[|steps| - 1].Request? then 1 else 0
  }

  /** Steps of the waiter. */
  function Moves(steps: seq<Step>): nat {
    if steps == [] then 0
    else
      var last := steps[|steps| - 1];
      Moves(steps[..|steps| - 1]) + if last.Work? || last.SeeClosed? then 1 else 0
  }

  /** Further passes of the waiter's loop that are possible without new requests. */
  function Tokens(s: State): nat {
    s.sending + if s.f.slot then 1 else 0
  }

  function Rank(pc: Pc): nat {
    match pc
    case Top => 8 case Check => 7 case Sleeping(_) => 6 case Stamp => 5 case Call => 4
    case Running => 3 case Select => 2 case Closing => 1 case Stopped => 0
  }

  function Measure(s: State): nat {
    7 * Tokens(s) + Rank(s.pc)
  }

  function IsPass(e: Event): int { if e.Woken? then 1 else 0 }

  lemma TokenStep(p: Params, s: State, step: Step)
    requires Enabled(s, step)
    ensures Weigh(Emit(p, s, step), IsPass) + Tokens(Do(p, s, step)) <= Tokens(s) + if step.Request? then 1 else 0
  {
  }

  /** The waiter passes its wake-up at most once for each token buffered, about to be sent, or requested later. */
  lemma {:induction false} PassesBounded(p: Params, s: State, steps: seq<Step>)
    requires Possible(p, s, steps)
    ensures Sum(After(p, s, steps).log, IsPass) + Tokens(After(p, s, steps)) <= Sum(s.log, IsPass) + Tokens(s) + Requests(steps)
  {
    if steps != [] {
      var m, last := After(p, s, steps[..|steps| - 1]), steps[|steps| - 1];
      PassesBounded(p, s, steps[..|steps| - 1]);
      SumAppend(m.log, Emit(p, m, last), IsPass);
      TokenStep(p, m, last);
    }
  }

  lemma MoveStep(p: Params, s: State, step: Step)
    requires Enabled(s, step)
    ensures Measure(Do(p, s, step)) + (if step.Work? || step.SeeClosed? then 1 else 0) <= Measure(s) + if step.Request? then 7 else 0
  {
  }

  /** Every step of the waiter uses up part of a measure that only requests add to. */
  lemma {:induction false} MovesBounded(p: Params, s: State, steps: seq<Step>)
    requires Possible(p, s, steps)
    ensures Moves(steps) + Measure(After(p, s, steps)) <= Measure(s) + 7 * Requests(steps)
  {
    if steps != [] {
      MovesBounded(p, s, steps[..|steps| - 1]);
      MoveStep(p, After(p, s, steps[..|steps| - 1]), steps[|steps| - 1]);
    }
  }

  /** The waiter can make a step, now or when its sleep is over. */
  ghost predicate CanMove(p: Params, s: State) {
    exists dt: nat :: Enabled(Do(p, s, Tick(dt)), Work) || Enabled(Do(p, s, Tick(dt)), SeeClosed)
  }

  /** It is stuck only when it has stopped, or waits for a token before the shutdown. */
  lemma StuckIff(p: Params, s: State)
    ensures !CanMove(p, s) <==> s.pc.Stopped? || (s.pc.Select? && !s.f.slot && !s.f.closed)
  {
    var dt: nat := match s.pc case Sleeping(until) => if until > s.now then until - s.now else 0 case _ => 0;
    if !(s.pc.Stopped? || (s.pc.Select? && !s.f.slot && !s.f.closed)) {
      assert Enabled(Do(p, s, Tick(dt)), Work) || Enabled(Do(p, s, Tick(dt)), SeeClosed);
    }
  }

  /** Without new requests the waiter comes to rest after finitely many steps, by `MovesBounded`; where
      it rests with no caller in the middle of a call and without having stopped, all is served. */
  lemma RestIsServed(p: Params, now: nat, steps: seq<Step>)
    requires IsRun(p, now, steps)
    ensures var s := At(p, now, steps);
            CanMove(p, s) || s.sending > 0 || s.pc.Stopped? || Served(s.log)
  {
    StuckIff(p, At(p, now, steps));
    BlockedMeansServed(p, now, steps);
  }

  lemma {:induction false} StaysClosed(p: Params, s: State, steps: seq<Step>)
    requires s.f.closed && Possible(p, s, steps)
    ensures After(p, s, steps).f.closed
  {
    if steps != [] {
      StaysClosed(p, s, steps[..|steps| - 1]);
    }
  }

  /** After the shutdown, whatever the interleaving, the waiter has stopped, or it can go on and has not
      used up a bound that grows with requests only; so with finitely many of them it stops. */
  lemma ShutdownTerminates(p: Params, s: State, steps: seq<Step>)
    requires s.f.closed && Possible(p, s, steps)
    ensures var t := After(p, s, steps);
            t.pc.Stopped? || (CanMove(p, t) && Moves(steps) < Measure(s) + 7 * Requests(steps))
  {
    StaysClosed(p, s, steps);
    MovesBounded(p, s, steps);
    StuckIff(p, After(p, s, steps));
  }

  lemma {:induction false} StaysStopped(p: Params, s: State, steps: seq<Step>)
    requires s.pc.Stopped? && Possible(p, s, steps)
    ensures After(p, s, steps).pc.Stopped?
    ensures Sum(After(p, s, steps).log, IsStart) == Sum(s.log, IsStart)
    ensures Sum(After(p, s, steps).log, IsShutdown) == Sum(s.log, IsShutdown)
  {
    if steps != [] {
      var m, last := After(p, s, steps[..|steps| - 1]), steps[|steps| - 1];
      StaysStopped(p, s, steps[..|steps| - 1]);
      SumAppend(m.log, Emit(p, m, last), IsStart);
      SumAppend(m.log, Emit(p, m, last), IsShutdown);
    }
  }

  /** The shutdown function has run exactly once by then, if there is one, and nothing runs afterwards. */
  lemma ShutdownRunsOnce(p: Params, now: nat, steps: seq<Step>, more: seq<Step>)
    requires IsRun(p, now, steps) && At(p, now, steps).pc.Stopped?
    requires Possible(p, At(p, now, steps), more)
    ensures var log := After(p, At(p, now, steps), more).log;
            && Sum(log, IsShutdown) == Bit(p.hasShutdownFunc)
            && Sum(log, IsStart) == Sum(At(p, now, steps).log, IsStart)
  {
    RunInv(p, now, steps);
    StaysStopped(p, At(p, now, steps), more);
  }
}
