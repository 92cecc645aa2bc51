// Triggerrable: a worker thread woken through a bounded semaphore, with a
// time-out (uno/agent/triggerable.py).  Threads interleave at the granularity of
// the locked sections, semaphore operations and flag tests.
module Trigger {
  import opened Prelude

  datatype Runner =
    | Stopped                        // no worker thread
    | Looping                        // about to test _service_active
    | Waiting                        // in acquire()
    | Awake(permit: bool)            // acquire() returned, with a permit or timed out
    | Deciding(triggered: bool)      // flag read and cleared
    | Handling(triggered: bool)      // in _handle_trigger()

  datatype State = State(
    flag: bool,          // _triggered
    permits: nat,        // value of the semaphore, bounded by 1
    releasing: nat,      // trigger() calls between setting the flag and release()
    runner: Runner,
    active: bool,        // _service_active
    accepted: nat,       // trigger() calls that found the flag unset
    handled: nat,        // of those, the ones the worker went on to handle
    discarded: nat,      // of those, the ones read after the service was deactivated
    overReleased: nat)   // release() calls refused by the bounded semaphore

  const INITIAL := State(false, 0, 0, Stopped, false, 0, 0, 0, 0)

  datatype Step =
    | SetFlag            // trigger(), locked section
    | Release            // trigger(), release()
    | TestActive         // loop condition
    | Acquire            // acquire() gets the permit
    | TimeOut            // acquire() gives up
    | Clear              // locked section of the worker
    | Decide(late: bool) // late: trigger_delay >= max_trigger_delay
    | Handled            // _handle_trigger() returned
    | HandlerFails       // _handle_trigger() raised
    | StartThread
    | Deactivate         // first statement of stop_trigger_thread()

  ghost predicate Enabled(s: State, e: Step) {
    match e
    case SetFlag => true
    case Release => s.releasing > 0
    case TestActive => s.runner.Looping?
    case Acquire => s.runner.Waiting? && s.permits > 0
    case TimeOut => s.runner.Waiting? && s.permits == 0
    case Clear => s.runner.Awake?
    case Decide(_) => s.runner.Deciding?
    case Handled => s.runner.Handling?
    case HandlerFails => s.runner.Handling?
    case StartThread => s.runner.Stopped?
    case Deactivate => true
  }

  ghost function Next(s: State, e: Step): (r: State)
    requires Enabled(s, e)
  {
    match e
    case SetFlag =>
      if s.flag then s else s.(flag := true, releasing := s.releasing + 1, accepted := s.accepted + 1)
    case Release =>
      if s.permits == 0 then s.(permits := 1, releasing := s.releasing - 1)
      else s.(releasing := s.releasing - 1, overReleased := s.overReleased + 1)
    case TestActive => s.(runner := if s.active then Waiting else Stopped)
    case Acquire => s.(permits := s.permits - 1, runner := Awake(true))
    case TimeOut => s.(runner := Awake(false))
    case Clear => s.(flag := false, runner := Deciding(s.flag))
    case Decide(late) =>
      if s.active && (s.runner.triggered || late) then
        s.(runner := Handling(s.runner.triggered), handled := s.handled + (if s.runner.triggered then 1 else 0))
      else s.(runner := Looping, discarded := s.discarded + (if s.runner.triggered then 1 else 0))
    case Handled => s.(runner := Looping)
    case HandlerFails => s.(runner := Stopped, active := false)
    case StartThread => s.(runner := Looping, active := true)
    case Deactivate => s.(active := false)
  }

  // An execution: states linked by enabled steps, starting from a fresh object.
  ghost predicate Run(states: seq<State>, steps: seq<Step>) {
    && |states| == |steps| + 1
    && states[0] == INITIAL
    && forall i :: 0 <= i < |steps| ==> Enabled(states[i], steps[i]) && states[i + 1] == Next(states[i], steps[i])
  }

  // A set flag always has a wake-up on its way, and every accepted trigger is
  // accounted for.
  ghost predicate NothingLost(s: State) {
    && s.permits <= 1
    && (s.flag ==> s.permits == 1 || s.releasing > 0 || s.runner.Awake?)
    && s.accepted == s.handled + s.discarded + (if s.flag then 1 else 0) + (if s.runner == Deciding(true) then 1 else 0)
  }

  lemma {:induction false} NothingIsLost(states: seq<State>, steps: seq<Step>)
    requires Run(states, steps)
    ensures NothingLost(states[|steps|])
    decreases |steps|
  {
    if |steps| > 0 {
      var n := |steps| - 1;
      NothingIsLost(states[..n + 1], steps[..n]);
      assert states[..n + 1][n] == states[n];
      assert states[n + 1] == Next(states[n], steps[n]);
    }
  }

  // As long as nobody deactivates the service and no handler fails, every accepted
  // trigger is handled or still pending: none is discarded.
  lemma {:induction false} NothingIsDiscarded(states: seq<State>, steps: seq<Step>)
    requires Run(states, steps)
    requires forall i :: 0 <= i < |steps| ==> !steps[i].Deactivate? && !steps[i].HandlerFails?
    ensures states[|steps|].discarded == 0
    ensures !states[|steps|].runner.Stopped? ==> states[|steps|].active
    decreases |steps|
  {
    if |steps| > 0 {
      var n := |steps| - 1;
      NothingIsDiscarded(states[..n + 1], steps[..n]);
      assert states[..n + 1][n] == states[n];
      assert states[n + 1] == Next(states[n], steps[n]);
    }
  }

  // trigger() leaves the flag set, and a trigger is accepted exactly if it was not.
  lemma TriggerIsPending(s: State)
    ensures Next(s, SetFlag).flag && Next(s, SetFlag).accepted == s.accepted + (if s.flag then 0 else 1)
    ensures Next(s, SetFlag).releasing == s.releasing + (if s.flag then 0 else 1)
  {
  }

  // Steps of the worker and releases that are under way; no time-out, no new trigger.
  ghost predicate Serves(s: State, steps: seq<Step>, t: State)
    decreases |steps|
  {
    if steps == [] then t == s
    else
      && !steps[0].SetFlag? && !steps[0].TimeOut? && !steps[0].Deactivate? && !steps[0].HandlerFails?
      && Enabled(s, steps[0])
      && Serves(Next(s, steps[0]), steps[1..], t)
  }

  lemma ServesMore(s: State, e: Step, m: State, rest: seq<Step>, t: State)
    requires !e.SetFlag? && !e.TimeOut? && !e.Deactivate? && !e.HandlerFails?
    requires Enabled(s, e) && m == Next(s, e) && Serves(m, rest, t)
    ensures Serves(s, [e] + rest, t)
  {
    hide Next, Enabled;
    assert ([e] + rest)[0] == e && ([e] + rest)[1..] == rest;
  }

  // How far the worker is from handling a pending trigger.
  function Distance(s: State): (d: nat) {
    match s.runner
    case Awake(_) => 1
    case Waiting => if s.permits > 0 then 2 else 3
    case Looping => 4
    case Handling(_) => 5
    case Deciding(_) => 6
    case Stopped => 7
  }

  // What the worker, or a release that it waits for, does next.
  function Forward(s: State): (e: Step) {
    match s.runner
    case Awake(_) => Clear
    case Waiting => if s.permits > 0 then Acquire else Release
    case Looping => TestActive
    case Handling(_) => Handled
    case Deciding(_) => Decide(false)
    case Stopped => StartThread
  }

  lemma ForwardAdvances(s: State)
    requires NothingLost(s) && s.flag && s.active && !s.runner.Stopped? && !s.runner.Awake?
    ensures Enabled(s, Forward(s))
    ensures var m := Next(s, Forward(s));
            && NothingLost(m) && m.flag && m.active && !m.runner.Stopped?
            && m.handled >= s.handled && Distance(m) < Distance(s)
  {
  }

  // A pending trigger of a running service is handled as soon as the worker gets to run:
  // from every state, its own steps and the releases under way lead there.
  lemma PendingIsHandled(s: State) returns (steps: seq<Step>, t: State)
    requires NothingLost(s) && s.flag && s.active && !s.runner.Stopped?
    ensures Serves(s, steps, t) && t.handled > s.handled && !t.flag && t.runner == Handling(true)
    decreases Distance(s)
  {
    if s.runner.Awake? {
      var m := Next(s, Clear);
      t := Next(m, Decide(false));
      assert Serves(t, [], t);
      ServesMore(m, Decide(false), t, [], t);
      ServesMore(s, Clear, m, [Decide(false)] + [], t);
      steps := [Clear] + ([Decide(false)] + []);
    } else {
      ForwardAdvances(s);
      var rest;
      var m := Next(s, Forward(s));
      rest, t := PendingIsHandled(m);
      hide Serves;
      ServesMore(s, Forward(s), m, rest, t);
      steps := [Forward(s)] + rest;
    }
  }

  // ----- Over-release of the bounded semaphore -----

  // Wake-ups under way equal pending triggers.
  ghost predicate Balanced(s: State) {
    s.permits + s.releasing + (if s.runner == Awake(true) then 1 else 0) == if s.flag then 1 else 0
  }

  // A timed-out worker takes a trigger whose permit it did not consume.
  ghost predicate Steals(s: State, e: Step) {
    e.Clear? && s.runner == Awake(false) && s.flag
  }

  // Exactly the stealing step breaks the balance.
  lemma BalanceKeptIff(s: State, e: Step)
    requires Balanced(s) && Enabled(s, e)
    ensures Balanced(Next(s, e)) <==> !Steals(s, e)
    ensures Next(s, e).overReleased == s.overReleased
  {
  }

  // Without a stealing time-out the semaphore is never released beyond its bound;
  // in particular when no acquire times out at all.
  lemma {:induction false} NeverOverReleased(states: seq<State>, steps: seq<Step>)
    requires Run(states, steps)
    requires forall i :: 0 <= i < |steps| ==> !Steals(states[i], steps[i])
    ensures Balanced(states[|steps|]) && states[|steps|].overReleased == 0
    decreases |steps|
  {
    hide Next, Enabled, Steals, Balanced;
    if |steps| > 0 {
      var n := |steps| - 1;
      assert forall i :: 0 <= i < n ==> states[..n + 1][i] == states[i] && steps[..n][i] == steps[i];
      NeverOverReleased(states[..n + 1], steps[..n]);
      assert states[..n + 1][n] == states[n];
      BalanceKeptIff(states[n], steps[n]);
    } else {
      InitiallyBalanced();
    }
  }

  lemma InitiallyBalanced()
    ensures Balanced(INITIAL)
  {
  }

  lemma {:induction false} NoTimeOutNoTheft(states: seq<State>, steps: seq<Step>)
    requires Run(states, steps) && forall i :: 0 <= i < |steps| ==> !steps[i].TimeOut?
    ensures states[|steps|].runner != Awake(false)
    ensures forall i :: 0 <= i < |steps| ==> !Steals(states[i], steps[i])
    decreases |steps|
  {
    if |steps| > 0 {
      var n := |steps| - 1;
      assert forall i :: 0 <= i < n ==> states[..n + 1][i] == states[i] && steps[..n][i] == steps[i];
      NoTimeOutNoTheft(states[..n + 1], steps[..n]);
      assert states[..n + 1][n] == states[n];
      forall i | 0 <= i < |steps|
        ensures !Steals(states[i], steps[i])
      {
        if i < n {
          assert !Steals(states[..n + 1][i], steps[..n][i]);
        }
      }
    }
  }

  // What calls of trigger() alone lead to: they set the flag and release.
  ghost predicate TriggersLead(s: State, steps: seq<Step>, t: State)
    decreases |steps|
  {
    if steps == [] then t == s
    else
      && (steps[0].SetFlag? || steps[0].Release?)
      && Enabled(s, steps[0])
      && TriggersLead(Next(s, steps[0]), steps[1..], t)
  }

  lemma LeadOne(s: State, e: Step, t: State)
    requires (e.SetFlag? || e.Release?) && Enabled(s, e) && t == Next(s, e)
    ensures TriggersLead(s, [e], t)
  {
    assert [e][1..] == [];
  }

  lemma LeadMore(s: State, e: Step, m: State, rest: seq<Step>, t: State)
    requires (e.SetFlag? || e.Release?) && Enabled(s, e) && m == Next(s, e) && TriggersLead(m, rest, t)
    ensures TriggersLead(s, [e] + rest, t)
  {
    hide Next, Enabled;
    assert ([e] + rest)[0] == e && ([e] + rest)[1..] == rest;
  }

  // After a theft two more calls of trigger() at most release once too often.
  lemma TheftOverReleases(s: State) returns (steps: seq<Step>, t: State)
    requires !s.flag && s.permits + s.releasing == 1
    ensures TriggersLead(s, steps, t) && t.overReleased == s.overReleased + 1
    decreases s.releasing
  {
    if s.permits == 1 {
      var a := Next(s, SetFlag);
      t := Next(a, Release);
      hide TriggersLead;
      LeadOne(a, Release, t);
      LeadMore(s, SetFlag, a, [Release], t);
      steps := [SetFlag] + [Release];
    } else {
      var b := Next(s, Release);
      var rest;
      rest, t := TheftOverReleases(b);
      hide TriggersLead;
      LeadMore(s, Release, b, rest, t);
      steps := [Release] + rest;
    }
  }

  // While the balance holds, trigger() cannot release too often.
  lemma {:induction false} BalancedIsSafe(s: State, steps: seq<Step>, t: State)
    requires Balanced(s) && TriggersLead(s, steps, t)
    ensures t.overReleased == s.overReleased
    decreases |steps|
  {
    if steps != [] {
      BalanceKeptIff(s, steps[0]);
      BalancedIsSafe(Next(s, steps[0]), steps[1..], t);
    }
  }

  // Some calls of trigger() release once too often.
  ghost predicate Releasable(s: State) {
    exists steps, t :: TriggersLead(s, steps, t) && t.overReleased > s.overReleased
  }

  // The stealing step is exactly what makes an over-release possible: from a state
  // in balance, the calls of trigger() that follow a step can release once too
  // often if and only if the step steals.
  lemma OverReleaseIff(s: State, e: Step)
    requires Balanced(s) && Enabled(s, e)
    ensures Releasable(Next(s, e)) <==> Steals(s, e)
  {
    var n := Next(s, e);
    BalanceKeptIff(s, e);
    if Steals(s, e) {
      var steps, t := TheftOverReleases(n);
    } else if Releasable(n) {
      var steps, t :| TriggersLead(n, steps, t) && t.overReleased > n.overReleased;
      BalancedIsSafe(n, steps, t);
    }
  }

  // So in every run up to its first theft, an over-release can follow the last step
  // if and only if that step is the theft.
  lemma FirstTheftIsExact(states: seq<State>, steps: seq<Step>)
    requires Run(states, steps) && |steps| > 0
    requires forall i :: 0 <= i < |steps| - 1 ==> !Steals(states[i], steps[i])
    ensures Releasable(states[|steps|]) <==> Steals(states[|steps| - 1], steps[|steps| - 1])
  {
    hide Next, Enabled, Steals, Balanced, Releasable;
    var n := |steps| - 1;
    assert forall i :: 0 <= i < n ==> states[..n + 1][i] == states[i] && steps[..n][i] == steps[i];
    NeverOverReleased(states[..n + 1], steps[..n]);
    assert states[..n + 1][n] == states[n];
    OverReleaseIff(states[n], steps[n]);
  }

  // A concrete run: the worker times out, clears the flag before the release
  // arrives, and a second trigger releases again.
  function TheftState(i: nat): (s: State) {
    if i == 0 then INITIAL
    else if i == 1 then State(false, 0, 0, Looping, true, 0, 0, 0, 0)
    else if i == 2 then State(false, 0, 0, Waiting, true, 0, 0, 0, 0)
    else if i == 3 then State(false, 0, 0, Awake(false), true, 0, 0, 0, 0)
    else if i == 4 then State(true, 0, 1, Awake(false), true, 1, 0, 0, 0)
    else if i == 5 then State(false, 0, 1, Deciding(true), true, 1, 0, 0, 0)
    else if i == 6 then State(false, 1, 0, Deciding(true), true, 1, 0, 0, 0)
    else if i == 7 then State(true, 1, 1, Deciding(true), true, 2, 0, 0, 0)
    else State(true, 1, 0, Deciding(true), true, 2, 0, 0, 1)
  }

  ghost predicate Leads(s: State, e: Step, t: State) {
    Enabled(s, e) && t == Next(s, e)
  }

  lemma TheftBegins()
    ensures Leads(TheftState(0), StartThread, TheftState(1))
    ensures Leads(TheftState(1), TestActive, TheftState(2))
    ensures Leads(TheftState(2), TimeOut, TheftState(3))
  {
  }

  lemma TheftHappens()
    ensures Leads(TheftState(3), SetFlag, TheftState(4))
    ensures Leads(TheftState(4), Clear, TheftState(5))
    ensures Leads(TheftState(5), Release, TheftState(6))
  {
  }

  lemma TheftTells()
    ensures Leads(TheftState(6), SetFlag, TheftState(7))
    ensures Leads(TheftState(7), Release, TheftState(8))
  {
  }

  lemma RunGrows(states: seq<State>, steps: seq<Step>, e: Step, t: State) returns (more: seq<State>, longer: seq<Step>)
    requires Run(states, steps) && Leads(states[|steps|], e, t)
    ensures Run(more, longer) && |longer| == |steps| + 1 && more[|longer|] == t
  {
    hide Next, Enabled;
    more, longer := states + [t], steps + [e];
  }

  lemma OverReleaseHappens() returns (states: seq<State>, steps: seq<Step>)
    ensures Run(states, steps) && states[|steps|].overReleased == 1
  {
    assert TheftState(8).overReleased == 1 && TheftState(0) == INITIAL;
    states, steps := [INITIAL], [];
    assert Run(states, steps);
    TheftBegins();
    TheftHappens();
    TheftTells();
    assert |states| == |steps| + 1;
    hide Next, Enabled, TheftState, Leads;
    states, steps := RunGrows(states, steps, StartThread, TheftState(1));
    states, steps := RunGrows(states, steps, TestActive, TheftState(2));
    states, steps := RunGrows(states, steps, TimeOut, TheftState(3));
    states, steps := RunGrows(states, steps, SetFlag, TheftState(4));
    states, steps := RunGrows(states, steps, Clear, TheftState(5));
    states, steps := RunGrows(states, steps, Release, TheftState(6));
    states, steps := RunGrows(states, steps, SetFlag, TheftState(7));
    states, steps := RunGrows(states, steps, Release, TheftState(8));
  }
}
