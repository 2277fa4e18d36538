/**
 The once-only gate of isal_self_tests in FIPS mode: any number of threads call it
 concurrently, one of them runs the two test suites, the others wait for its verdict.

 The protocol is a state machine.  Every atomic load, compare-exchange and store is one
 step, and each test suite is one step whose outcome the environment picks.  A schedule
 lists which thread takes the next step and the outcome it would see if that step runs
 a suite, so a theorem about every schedule is a theorem about every interleaving.
 */
module SelfTestGate {
  import Bytes

  datatype Status = DoneAndOk | DoneAndFail | NotDone | Running

  datatype Verdict = Success | SelfTestError

  /** Where a thread stands inside isal_self_tests; Idle is outside of it. */
  datatype Pc =
    | Idle
    | LoadOk
    | LoadFail
    | Exchange
    | AesSuite
    | ShaSuite
    | StoreFail
    | StoreOk
    | Spin
    | FinalLoad

  datatype Return = Return(thread: nat, verdict: Verdict)

  /** aes and sha record the outcome of every execution of a suite, verdicts every finished call. */
  datatype State = State(
    status: Status, pc: seq<Pc>, aes: seq<bool>, sha: seq<bool>, verdicts: seq<Return>)

  datatype Choice = Choice(thread: nat, passes: bool)

  type Schedule = seq<Choice>

  predicate ForThreads(sched: Schedule, n: nat) {
    forall i :: 0 <= i < |sched| ==> sched[i].thread < n
  }

  function Init(n: nat): (s: State)
    ensures |s.pc| == n && forall t :: 0 <= t < n ==> s.pc[t] == Idle
  {
    State(NotDone, seq(n, _ => Idle), [], [], [])
  }

  function Leave(s: State, t: nat, v: Verdict): State
    requires t < |s.pc|
  {
    s.(pc := s.pc[t := Idle], verdicts := s.verdicts + [Return(t, v)])
  }

  function Step(s: State, c: Choice): (s': State)
    requires c.thread < |s.pc|
    ensures |s'.pc| == |s.pc|
  {
    var t := c.thread;
    match s.pc[t]
    case Idle => s.(pc := s.pc[t := LoadOk])
    case LoadOk =>
      if s.status == DoneAndOk then Leave(s, t, Success) else s.(pc := s.pc[t := LoadFail])
    case LoadFail =>
      if s.status == DoneAndFail then Leave(s, t, SelfTestError) else s.(pc := s.pc[t := Exchange])
    case Exchange =>
      if s.status == NotDone then s.(status := Running, pc := s.pc[t := AesSuite])
      else s.(pc := s.pc[t := Spin])
    case AesSuite =>
      s.(aes := s.aes + [c.passes], pc := s.pc[t := if c.passes then ShaSuite else StoreFail])
    case ShaSuite =>
      s.(sha := s.sha + [c.passes], pc := s.pc[t := if c.passes then StoreOk else StoreFail])
    case StoreFail => Leave(s.(status := DoneAndFail), t, SelfTestError)
    case StoreOk => Leave(s.(status := DoneAndOk), t, Success)
    case Spin =>
      if s.status == Running then s else s.(pc := s.pc[t := FinalLoad])
    case FinalLoad =>
      Leave(s, t, if s.status == DoneAndOk then Success else SelfTestError)
  }

  function Run(s: State, sched: Schedule): (s': State)
    requires ForThreads(sched, |s.pc|)
    ensures |s'.pc| == |s.pc|
  {
    if sched == [] then s else Step(Run(s, sched[..|sched| - 1]), sched[|sched| - 1])
  }

  lemma {:induction false} RunConcat(s: State, x: Schedule, y: Schedule)
    requires ForThreads(x, |s.pc|) && ForThreads(y, |s.pc|)
    ensures ForThreads(x + y, |s.pc|)
    ensures Run(s, x + y) == Run(Run(s, x), y)
    decreases |y|
  {
    if y == [] {
      assert x + y == x;
    } else {
      var y' := y[..|y| - 1];
      RunConcat(s, x, y');
      assert (x + y)[..|x + y| - 1] == x + y';
    }
  }

  lemma RunMore(n: nat, sched: Schedule, c: Choice)
    requires ForThreads(sched, n) && c.thread < n
    ensures ForThreads(sched + [c], n) && Run(Init(n), sched + [c]) == Step(Run(Init(n), sched), c)
  {
    assert (sched + [c])[..|sched|] == sched;
  }

  // ----- the invariant -----

  /** The section between a successful compare-exchange and the store of the verdict. */
  predicate InSuites(p: Pc) {
    p.AesSuite? || p.ShaSuite? || p.StoreFail? || p.StoreOk?
  }

  predicate Final(st: Status) {
    st == DoneAndOk || st == DoneAndFail
  }

  ghost predicate AllReturned(s: State, v: Verdict) {
    forall i :: 0 <= i < |s.verdicts| ==> s.verdicts[i].verdict == v
  }

  /** What the runner knows about the suites at each of its program points. */
  ghost predicate RunnerKnows(s: State, p: Pc) {
    match p
    case AesSuite => s.aes == [] && s.sha == []
    case ShaSuite => s.aes == [true] && s.sha == []
    case StoreOk => s.aes == [true] && s.sha == [true]
    case StoreFail => (s.aes == [false] && s.sha == []) || (s.aes == [true] && s.sha == [false])
    case _ => true
  }

  /** Exactly while the status is Running, exactly one thread is inside the suites. */
  ghost predicate OneRunner(s: State) {
    && (forall t, u :: 0 <= t < |s.pc| && 0 <= u < |s.pc| && InSuites(s.pc[t]) && InSuites(s.pc[u]) ==> t == u)
    && (s.status == Running <==> exists t :: 0 <= t < |s.pc| && InSuites(s.pc[t]))
  }

  ghost predicate Knowledge(s: State) {
    forall t :: 0 <= t < |s.pc| ==> RunnerKnows(s, s.pc[t])
  }

  /** A thread whose exchange failed sees Running or a final status; past the wait loop, a final one. */
  ghost predicate Waiters(s: State) {
    && (forall t :: 0 <= t < |s.pc| && s.pc[t] == Spin ==> s.status != NotDone)
    && (forall t :: 0 <= t < |s.pc| && s.pc[t] == FinalLoad ==> Final(s.status))
  }

  ghost predicate Outcome(s: State) {
    match s.status
    case NotDone => s.aes == [] && s.sha == [] && s.verdicts == []
    case Running => s.verdicts == []
    case DoneAndOk => s.aes == [true] && s.sha == [true] && AllReturned(s, Success)
    case DoneAndFail =>
      && ((s.aes == [false] && s.sha == []) || (s.aes == [true] && s.sha == [false]))
      && AllReturned(s, SelfTestError)
  }

  ghost predicate Inv(s: State) {
    OneRunner(s) && Knowledge(s) && Waiters(s) && Outcome(s)
  }

  lemma StepKeepsOneRunner(s: State, c: Choice)
    requires c.thread < |s.pc| && OneRunner(s)
    ensures OneRunner(Step(s, c))
  {
    var t, s' := c.thread, Step(s, c);
    assert forall u :: 0 <= u < |s.pc| && u != t ==> s'.pc[u] == s.pc[u];
    assert InSuites(s.pc[t]) ==> s.status == Running;
    if s'.status == Running {
      if s.status == Running {
        var r :| 0 <= r < |s.pc| && InSuites(s.pc[r]);
        assert InSuites(s'.pc[r]);
      } else {
        assert InSuites(s'.pc[t]);
      }
    } else if s.status != Running {
      assert forall u :: 0 <= u < |s.pc| ==> !InSuites(s.pc[u]);
    }
  }

  /** A step by a thread that is not the runner leaves what the runner knows alone. */
  lemma StepKeepsKnowledge(s: State, c: Choice)
    requires c.thread < |s.pc| && OneRunner(s) && Knowledge(s) && Outcome(s)
    ensures Knowledge(Step(s, c))
  {
    var t, s' := c.thread, Step(s, c);
    assert RunnerKnows(s, s.pc[t]);
    forall u | 0 <= u < |s.pc|
      ensures RunnerKnows(s', s'.pc[u])
    {
      assert RunnerKnows(s, s.pc[u]);
      if u != t && InSuites(s.pc[t]) {
        assert !InSuites(s.pc[u]);
      }
    }
  }

  lemma StepKeepsInv(s: State, c: Choice)
    requires Inv(s) && c.thread < |s.pc|
    ensures Inv(Step(s, c))
  {
    StepKeepsOneRunner(s, c);
    StepKeepsKnowledge(s, c);
    var t, s' := c.thread, Step(s, c);
    assert forall u :: 0 <= u < |s.pc| && u != t ==> s'.pc[u] == s.pc[u];
    assert RunnerKnows(s, s.pc[t]);
    assert InSuites(s.pc[t]) ==> s.status == Running;
  }

  lemma {:induction false} ReachableInv(n: nat, sched: Schedule)
    requires ForThreads(sched, n)
    ensures Inv(Run(Init(n), sched))
    decreases |sched|
  {
    if sched != [] {
      var before := sched[..|sched| - 1];
      ReachableInv(n, before);
      StepKeepsInv(Run(Init(n), before), sched[|sched| - 1]);
    }
  }

  lemma {:induction false} RunKeepsInv(s: State, sched: Schedule)
    requires Inv(s) && ForThreads(sched, |s.pc|)
    ensures Inv(Run(s, sched))
    decreases |sched|
  {
    if sched != [] {
      RunKeepsInv(s, sched[..|sched| - 1]);
      StepKeepsInv(Run(s, sched[..|sched| - 1]), sched[|sched| - 1]);
    }
  }

  // ----- safety, over every schedule of any number of threads -----

  /** At most one thread is ever inside the suites, and each suite is executed at most once. */
  lemma SuitesRunOnce(n: nat, sched: Schedule, t: nat, u: nat)
    requires ForThreads(sched, n) && t < n && u < n
    ensures var s := Run(Init(n), sched);
            && |s.aes| <= 1 && |s.sha| <= 1
            && (InSuites(s.pc[t]) && InSuites(s.pc[u]) ==> t == u)
  {
    ReachableInv(n, sched);
    var s := Run(Init(n), sched);
    if s.status == Running {
      var r :| 0 <= r < |s.pc| && InSuites(s.pc[r]);
      assert RunnerKnows(s, s.pc[r]);
    }
  }

  /** Success is returned to any caller exactly when both suites ran and passed; so all callers agree. */
  lemma VerdictIsTheSuites(n: nat, sched: Schedule, i: nat)
    requires ForThreads(sched, n) && i < |Run(Init(n), sched).verdicts|
    ensures var s := Run(Init(n), sched);
            && Final(s.status)
            && (s.verdicts[i].verdict == Success <==> s.aes == [true] && s.sha == [true])
            && (s.verdicts[i].verdict == SelfTestError <==> false in s.aes + s.sha)
  {
    ReachableInv(n, sched);
    var s := Run(Init(n), sched);
    if s.status == DoneAndOk {
      assert s.aes + s.sha == [true, true];
    } else if s.aes == [false] {
      assert (s.aes + s.sha)[0] == false;
    } else {
      assert (s.aes + s.sha)[1] == false;
    }
  }

  function Rank(st: Status): nat {
    match st
    case NotDone => 0
    case Running => 1
    case _ => 2
  }

  lemma StepAdvances(s: State, c: Choice)
    requires Inv(s) && c.thread < |s.pc|
    ensures Rank(s.status) <= Rank(Step(s, c).status) <= Rank(s.status) + 1
    ensures Final(s.status) ==> Step(s, c).status == s.status
    ensures s.verdicts <= Step(s, c).verdicts
  {
    assert InSuites(s.pc[c.thread]) ==> s.status == Running;
  }

  /** No step skips a status: a final value is only stored after Running. */
  lemma StepMovesOne(n: nat, sched: Schedule, c: Choice)
    requires ForThreads(sched, n) && c.thread < n
    ensures var s := Run(Init(n), sched);
            && Rank(s.status) <= Rank(Step(s, c).status) <= Rank(s.status) + 1
            && (Final(s.status) ==> Step(s, c).status == s.status)
  {
    ReachableInv(n, sched);
    StepAdvances(Run(Init(n), sched), c);
  }

  /** The status only moves NotDone, Running, one final value, and a final value is never left. */
  lemma {:induction false} StatusOnlyAdvances(n: nat, sched: Schedule, more: Schedule)
    requires ForThreads(sched, n) && ForThreads(more, n)
    ensures var s, s' := Run(Init(n), sched), Run(Init(n), sched + more);
            && Rank(s.status) <= Rank(s'.status)
            && (Final(s.status) ==> s'.status == s.status)
            && s.verdicts <= s'.verdicts
    decreases |more|
  {
    if more == [] {
      assert sched + more == sched;
    } else {
      var more', last := more[..|more| - 1], more[|more| - 1];
      StatusOnlyAdvances(n, sched, more');
      assert sched + more == (sched + more') + [last];
      RunMore(n, sched + more', last);
      ReachableInv(n, sched + more');
      StepAdvances(Run(Init(n), sched + more'), last);
    }
  }

  /** A thread whose compare-exchange failed never again sees the tests as not done. */
  lemma NoNotDoneAfterFailedExchange(n: nat, sched: Schedule, t: nat)
    requires ForThreads(sched, n) && t < n
    ensures var s := Run(Init(n), sched);
            && (s.pc[t] == Spin ==> s.status != NotDone)
            && (s.pc[t] == FinalLoad ==> Final(s.status))
  {
    ReachableInv(n, sched);
  }

  /** Thread t is outside, or in one of the two loads that can return the final status. */
  ghost predicate AtLoads(s: State, t: nat) {
    && t < |s.pc| && Final(s.status)
    && (s.pc[t] == Idle || s.pc[t] == LoadOk || (s.pc[t] == LoadFail && s.status == DoneAndFail))
  }

  lemma {:induction false} LoadsAnswer(s: State, sched: Schedule, t: nat)
    requires Inv(s) && AtLoads(s, t) && ForThreads(sched, |s.pc|)
    ensures AtLoads(Run(s, sched), t) && Run(s, sched).status == s.status
    decreases |sched|
  {
    if sched != [] {
      var before, last := sched[..|sched| - 1], sched[|sched| - 1];
      LoadsAnswer(s, before, t);
      RunKeepsInv(s, before);
      StepAdvances(Run(s, before), last);
    }
  }

  /** A call that is made once the outcome is settled returns it from one of the two loads: it tries no exchange. */
  lemma LateCallsReadOnly(n: nat, sched: Schedule, more: Schedule, t: nat)
    requires ForThreads(sched, n) && ForThreads(more, n) && t < n
    requires Final(Run(Init(n), sched).status) && Run(Init(n), sched).pc[t] == Idle
    ensures ForThreads(sched + more, n) && Run(Init(n), sched + more).pc[t] in {Idle, LoadOk, LoadFail}
    ensures Run(Init(n), sched + more).pc[t] == LoadFail ==> Run(Init(n), sched).status == DoneAndFail
  {
    ReachableInv(n, sched);
    LoadsAnswer(Run(Init(n), sched), more, t);
    RunConcat(Init(n), sched, more);
  }

  // ----- who gets to the wait loop -----

  /** Thread t never took a step while the status was Running. */
  ghost predicate Unmet(n: nat, sched: Schedule, t: nat)
    requires ForThreads(sched, n)
  {
    forall i :: 0 <= i < |sched| && sched[i].thread == t ==> Run(Init(n), sched[..i]).status != Running
  }

  /** Thread t is about to fail its exchange against a final status. */
  ghost predicate MeetsFinal(n: nat, sched: Schedule, t: nat) {
    && ForThreads(sched, n) && t < n
    && Run(Init(n), sched).pc[t] == Exchange && Final(Run(Init(n), sched).status)
  }

  /** And it has never met the running status: it will wait all the same. */
  ghost predicate WaitsUnmet(n: nat, sched: Schedule, t: nat) {
    && MeetsFinal(n, sched, t) && Unmet(n, sched, t)
    && forall b :: Step(Run(Init(n), sched), Choice(t, b)).pc[t] == Spin
  }

  lemma OneMoreStep(n: nat, sched: Schedule, c: Choice, t: nat)
    requires ForThreads(sched, n) && c.thread < n
    requires Unmet(n, sched, t) && (c.thread == t ==> Run(Init(n), sched).status != Running)
    ensures ForThreads(sched + [c], n) && Run(Init(n), sched + [c]) == Step(Run(Init(n), sched), c)
    ensures Unmet(n, sched + [c], t)
  {
    RunMore(n, sched, c);
    var longer := sched + [c];
    assert longer[..|sched|] == sched;
    forall i | 0 <= i < |longer| && longer[i].thread == t
      ensures Run(Init(n), longer[..i]).status != Running
    {
      if i < |sched| {
        assert longer[..i] == sched[..i];
      }
    }
  }

  /** The schedule leads to s, and thread t has not met the running status on the way. */
  ghost predicate LeadsTo(n: nat, sched: Schedule, s: State, t: nat) {
    ForThreads(sched, n) && Run(Init(n), sched) == s && Unmet(n, sched, t)
  }

  lemma Take(n: nat, sched: Schedule, s: State, c: Choice, t: nat) returns (sched': Schedule, s': State)
    requires LeadsTo(n, sched, s, t) && c.thread < n && (c.thread == t ==> s.status != Running)
    ensures LeadsTo(n, sched', s', t) && s' == Step(s, c)
  {
    OneMoreStep(n, sched, c, t);
    sched', s' := sched + [c], Step(s, c);
  }

  /** Thread 1 enters and does its two loads. */
  lemma EarlyLoads(n: nat) returns (sched: Schedule, s: State)
    requires n >= 2
    ensures LeadsTo(n, sched, s, 1)
    ensures s.pc[0] == Idle && s.pc[1] == Exchange && s.status == NotDone
  {
    sched, s := [], Init(n);
    sched, s := Take(n, sched, s, Choice(1, true), 1);
    sched, s := Take(n, sched, s, Choice(1, true), 1);
    sched, s := Take(n, sched, s, Choice(1, true), 1);
  }

  /** Then thread 0 comes in and wins the exchange. */
  lemma FirstWins(n: nat, sched: Schedule, s: State) returns (sched': Schedule, s': State)
    requires n >= 2 && LeadsTo(n, sched, s, 1)
    requires s.pc[0] == Idle && s.pc[1] == Exchange && s.status == NotDone
    ensures LeadsTo(n, sched', s', 1)
    ensures s'.pc[0] == AesSuite && s'.pc[1] == Exchange && s'.status == Running
  {
    sched', s' := Take(n, sched, s, Choice(0, true), 1);
    sched', s' := Take(n, sched', s', Choice(0, true), 1);
    sched', s' := Take(n, sched', s', Choice(0, true), 1);
    sched', s' := Take(n, sched', s', Choice(0, true), 1);
  }

  /** And runs the suites to the end before thread 1 tries the exchange. */
  lemma LateExchange(n: nat) returns (sched: Schedule)
    requires n >= 2
    ensures WaitsUnmet(n, sched, 1)
  {
    var s;
    sched, s := EarlyLoads(n);
    sched, s := FirstWins(n, sched, s);
    sched, s := Take(n, sched, s, Choice(0, true), 1);
    sched, s := Take(n, sched, s, Choice(0, true), 1);
    sched, s := Take(n, sched, s, Choice(0, true), 1);
  }

  /** What a thread that calls alone can see. */
  ghost predicate AloneKnows(s: State) {
    forall t :: 0 <= t < |s.pc| ==>
      match s.pc[t]
      case Exchange => s.status == NotDone
      case LoadFail => s.status == NotDone || s.status == DoneAndFail
      case Spin => false
      case FinalLoad => false
      case Idle => s.status != Running
      case LoadOk => s.status != Running
      case _ => s.status == Running
  }

  lemma {:induction false} AloneNeverWaits(n: nat, sched: Schedule)
    requires n <= 1 && ForThreads(sched, n)
    ensures AloneKnows(Run(Init(n), sched))
    decreases |sched|
  {
    if sched != [] {
      AloneNeverWaits(n, sched[..|sched| - 1]);
    }
  }

  /**
   The source's comment at the wait loop says that only a thread that met the running status gets
   there.  With two threads or more it is not so: a thread that did both loads early may fail its
   exchange against a final status without ever having met Running.  It is so exactly for at most
   one thread.  (The verdict such a thread returns is right all the same.)
   */
  lemma WaitersMetRunningExactly(n: nat)
    ensures (exists sched, t :: WaitsUnmet(n, sched, t)) <==> n >= 2
    ensures (exists sched, t :: MeetsFinal(n, sched, t)) <==> n >= 2
  {
    if n >= 2 {
      var sched := LateExchange(n);
      assert WaitsUnmet(n, sched, 1) && MeetsFinal(n, sched, 1);
    } else {
      forall sched: Schedule, t: nat
        ensures !MeetsFinal(n, sched, t)
      {
        if ForThreads(sched, n) && t < n {
          AloneNeverWaits(n, sched);
        }
      }
    }
  }

  // ----- progress -----

  /** Steps a thread may still take inside its call, not counting turns of the wait loop. */
  function Remaining(p: Pc): nat {
    match p
    case Idle => 0
    case LoadOk => 7
    case LoadFail => 6
    case Exchange => 5
    case AesSuite => 3
    case ShaSuite => 2
    case StoreFail => 1
    case StoreOk => 1
    case Spin => 2
    case FinalLoad => 1
  }

  function Work(pc: seq<Pc>): nat {
    if pc == [] then 0 else Remaining(pc[0]) + Work(pc[1..])
  }

  lemma {:induction false} WorkUpdate(pc: seq<Pc>, t: nat, p: Pc)
    requires t < |pc|
    ensures Work(pc[t := p]) + Remaining(pc[t]) == Work(pc) + Remaining(p)
  {
    if t == 0 {
      assert pc[t := p][1..] == pc[1..];
    } else {
      WorkUpdate(pc[1..], t - 1, p);
      assert pc[t := p][1..] == pc[1..][t - 1 := p];
    }
  }

  predicate Spins(s: State, c: Choice)
    requires c.thread < |s.pc|
  {
    s.pc[c.thread] == Spin && s.status == Running
  }

  predicate Enters(s: State, c: Choice)
    requires c.thread < |s.pc|
  {
    s.pc[c.thread] == Idle
  }

  /** Every step inside a call other than a turn of the wait loop uses up work; entering adds seven units. */
  lemma StepUsesWork(s: State, c: Choice)
    requires c.thread < |s.pc|
    ensures Enters(s, c) ==> Work(Step(s, c).pc) == Work(s.pc) + 7
    ensures Spins(s, c) ==> Step(s, c) == s
    ensures !Enters(s, c) && !Spins(s, c) ==> Work(Step(s, c).pc) < Work(s.pc)
  {
    WorkUpdate(s.pc, c.thread, Step(s, c).pc[c.thread]);
    assert Step(s, c).pc == s.pc[c.thread := Step(s, c).pc[c.thread]];
  }

  lemma {:induction false} BusyHasWork(pc: seq<Pc>, t: nat)
    requires t < |pc| && pc[t] != Idle
    ensures Work(pc) > 0
  {
    if t > 0 {
      BusyHasWork(pc[1..], t - 1);
    }
  }

  function Count(s: State, sched: Schedule, entering: bool): nat
    requires ForThreads(sched, |s.pc|)
  {
    if sched == [] then 0 else
    var before, last := sched[..|sched| - 1], sched[|sched| - 1];
    var at := Run(s, before);
    Count(s, before, entering)
    + if entering then (if Enters(at, last) then 1 else 0)
      else if !Enters(at, last) && !Spins(at, last) then 1 else 0
  }

  /** Over any schedule, the productive steps number at most seven for each call made. */
  lemma {:induction false} BoundedWork(n: nat, sched: Schedule)
    requires ForThreads(sched, n)
    ensures Count(Init(n), sched, false) + Work(Run(Init(n), sched).pc) <= 7 * Count(Init(n), sched, true)
    decreases |sched|
  {
    if sched == [] {
      IdleHasNoWork(Init(n).pc);
    } else {
      var before, last := sched[..|sched| - 1], sched[|sched| - 1];
      BoundedWork(n, before);
      StepUsesWork(Run(Init(n), before), last);
    }
  }

  lemma {:induction false} IdleHasNoWork(pc: seq<Pc>)
    requires forall t :: 0 <= t < |pc| ==> pc[t] == Idle
    ensures Work(pc) == 0
  {
    if pc != [] {
      IdleHasNoWork(pc[1..]);
    }
  }

  /** While any call is open some thread has a productive step; if all wait, it is the runner. */
  lemma SomeThreadCanProgress(s: State, t: nat) returns (c: Choice)
    requires Inv(s) && t < |s.pc| && s.pc[t] != Idle
    ensures c.thread < |s.pc| && !Enters(s, c) && !Spins(s, c)
    ensures s.pc[t] == Spin && s.status == Running ==> InSuites(s.pc[c.thread])
  {
    if s.status == Running {
      var r :| 0 <= r < |s.pc| && InSuites(s.pc[r]);
      c := Choice(r, true);
    } else {
      c := Choice(t, true);
    }
  }

  ghost predicate AllIdle(s: State) {
    forall t :: 0 <= t < |s.pc| ==> s.pc[t] == Idle
  }

  lemma OneStepRun(s: State, c: Choice)
    requires c.thread < |s.pc|
    ensures ForThreads([c], |s.pc|) && Run(s, [c]) == Step(s, c)
  {
    assert [c][..0] == [];
    assert Run(s, []) == s;
  }

  lemma {:induction false} CallsCanReturn(s: State) returns (more: Schedule)
    requires Inv(s)
    ensures ForThreads(more, |s.pc|) && |more| <= Work(s.pc) && AllIdle(Run(s, more))
    decreases Work(s.pc)
  {
    if AllIdle(s) {
      more := [];
    } else {
      var t: nat :| t < |s.pc| && s.pc[t] != Idle;
      var c := SomeThreadCanProgress(s, t);
      StepUsesWork(s, c);
      StepKeepsInv(s, c);
      var rest := CallsCanReturn(Step(s, c));
      OneStepRun(s, c);
      RunConcat(s, [c], rest);
      more := [c] + rest;
    }
  }

  /** From every reachable state, without a new call, all open calls can return: no deadlock. */
  lemma OpenCallsCanReturn(n: nat, sched: Schedule) returns (more: Schedule)
    requires ForThreads(sched, n)
    ensures ForThreads(more, n) && ForThreads(sched + more, n)
    ensures |more| <= Work(Run(Init(n), sched).pc)
    ensures AllIdle(Run(Init(n), sched + more))
  {
    ReachableInv(n, sched);
    more := CallsCanReturn(Run(Init(n), sched));
    RunConcat(Init(n), sched, more);
  }

  // ----- every fair schedule -----

  /** No step of sched enters a new call. */
  ghost predicate NoEntries(s: State, sched: Schedule)
    requires ForThreads(sched, |s.pc|)
  {
    forall i :: 0 <= i < |sched| ==> !Enters(Run(s, sched[..i]), sched[i])
  }

  ghost predicate Steps(sched: Schedule, t: nat) {
    exists i :: 0 <= i < |sched| && sched[i].thread == t
  }

  /** A round enters no new call, and every thread whose call is open takes at least one step. */
  ghost predicate FairRound(s: State, round: Schedule) {
    && ForThreads(round, |s.pc|) && NoEntries(s, round)
    && forall t: nat :: t < |s.pc| && s.pc[t] != Idle ==> Steps(round, t)
  }

  ghost predicate FairRounds(s: State, rounds: seq<Schedule>)
    decreases |rounds|
  {
    rounds == [] || (FairRound(s, rounds[0]) && FairRounds(Run(s, rounds[0]), rounds[1..]))
  }

  /** Where every step uses up work or changes nothing, the work goes down or nothing changed at all. */
  lemma {:induction false} DownOrSame<S>(at: nat -> S, work: S -> nat, n: nat)
    requires forall k: nat :: k < n ==> work(at(k + 1)) < work(at(k)) || at(k + 1) == at(k)
    ensures work(at(n)) < work(at(0)) || forall k: nat :: k <= n ==> at(k) == at(0)
  {
    if n > 0 {
      DownOrSame(at, work, n - 1);
    }
  }

  /** The states a schedule goes through. */
  function StateAt(s: State, sched: Schedule): nat -> State
    requires ForThreads(sched, |s.pc|)
  {
    (k: nat) => if k <= |sched| then Run(s, sched[..k]) else s
  }

  function WorkIn(s: State): nat {
    Work(s.pc)
  }

  lemma StepDownOrSame(s: State, sched: Schedule, k: nat)
    requires ForThreads(sched, |s.pc|) && NoEntries(s, sched) && k < |sched|
    ensures var now, next := StateAt(s, sched)(k), StateAt(s, sched)(k + 1);
            WorkIn(next) < WorkIn(now) || (next == now && |now.pc| == |s.pc| && Spins(now, sched[k]))
  {
    assert sched[..k + 1][..k] == sched[..k];
    StepUsesWork(Run(s, sched[..k]), sched[k]);
  }

  lemma WorkDownOrSame(s: State, sched: Schedule, at: nat -> State)
    requires ForThreads(sched, |s.pc|) && NoEntries(s, sched) && at == StateAt(s, sched)
    ensures WorkIn(at(|sched|)) < WorkIn(at(0)) || forall k: nat :: k <= |sched| ==> at(k) == at(0)
  {
    forall k: nat | k < |sched|
      ensures WorkIn(at(k + 1)) < WorkIn(at(k)) || at(k + 1) == at(k)
    {
      StepDownOrSame(s, sched, k);
    }
    DownOrSame(at, WorkIn, |sched|);
  }

  lemma StateEnds(s: State, sched: Schedule, at: nat -> State)
    requires ForThreads(sched, |s.pc|) && at == StateAt(s, sched)
    ensures at(0) == s && at(|sched|) == Run(s, sched)
  {
    assert sched[..|sched|] == sched;
  }

  /** Without new calls, either some work is used up or every step is a turn of the wait loop. */
  lemma WorkOrSpins(s: State, sched: Schedule)
    requires ForThreads(sched, |s.pc|) && NoEntries(s, sched)
    ensures Work(Run(s, sched).pc) < Work(s.pc)
         || (Run(s, sched) == s && forall i :: 0 <= i < |sched| ==> Spins(s, sched[i]))
  {
    var at := StateAt(s, sched);
    StateEnds(s, sched, at);
    WorkDownOrSame(s, sched, at);
    if WorkIn(at(|sched|)) >= WorkIn(s) {
      forall i | 0 <= i < |sched|
        ensures Spins(s, sched[i])
      {
        StepDownOrSame(s, sched, i);
        assert at(i) == s && at(i + 1) == s;
      }
    }
  }

  /** A fair round uses up work while any call is open, and changes nothing when none is. */
  lemma RoundUsesWork(s: State, round: Schedule)
    requires Inv(s) && FairRound(s, round)
    ensures Work(Run(s, round).pc) < Work(s.pc) || (Work(s.pc) == 0 && Run(s, round) == s)
  {
    WorkOrSpins(s, round);
    if AllIdle(s) {
      IdleHasNoWork(s.pc);
    } else {
      var t: nat :| t < |s.pc| && s.pc[t] != Idle;
      var c := SomeThreadCanProgress(s, t);
      assert Steps(round, c.thread);
    }
  }

  lemma {:induction false} RoundsReturn(s: State, rounds: seq<Schedule>)
    requires Inv(s) && FairRounds(s, rounds) && Work(s.pc) <= |rounds|
    ensures ForThreads(Bytes.Flatten(rounds), |s.pc|) && AllIdle(Run(s, Bytes.Flatten(rounds)))
    decreases |rounds|
  {
    if rounds == [] {
      forall t: nat | t < |s.pc|
        ensures s.pc[t] == Idle
      {
        if s.pc[t] != Idle {
          BusyHasWork(s.pc, t);
        }
      }
    } else {
      RoundUsesWork(s, rounds[0]);
      RunKeepsInv(s, rounds[0]);
      RoundsReturn(Run(s, rounds[0]), rounds[1..]);
      RunConcat(s, rounds[0], Bytes.Flatten(rounds[1..]));
    }
  }

  /**
   Under any fair scheduler every open call returns: whatever happened before and whatever the
   scheduler does, as many fair rounds as there is work left are enough.
   */
  lemma FairSchedulesReturn(n: nat, sched: Schedule, rounds: seq<Schedule>)
    requires ForThreads(sched, n) && FairRounds(Run(Init(n), sched), rounds)
    requires Work(Run(Init(n), sched).pc) <= |rounds|
    ensures ForThreads(Bytes.Flatten(rounds), n) && ForThreads(sched + Bytes.Flatten(rounds), n)
    ensures AllIdle(Run(Init(n), sched + Bytes.Flatten(rounds)))
  {
    ReachableInv(n, sched);
    RoundsReturn(Run(Init(n), sched), rounds);
    RunConcat(Init(n), sched, Bytes.Flatten(rounds));
  }
}
