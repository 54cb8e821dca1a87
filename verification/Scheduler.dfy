/** The daemon's request loop: document notifications run inline, features are
    spawned, and lifecycle requests are barriers. The schedule decides which
    task moves next; every schedule is allowed. */
module Scheduler {

  datatype Request =
    | Initialize | Shutdown
    | DidOpen | DidChange | DidSave | DidClose
    | JuliaActivateEnvironment | JuliaRefreshLanguageServer
    | ReloadConfiguration | DidChangeWatchedFiles | ServerResponse
    | InstallServer
    | Feature(name: string)
  {
    predicate PreservesDocumentOrder() {
      || Initialize? || Shutdown?
      || DidOpen? || DidChange? || DidSave? || DidClose?
      || JuliaActivateEnvironment? || JuliaRefreshLanguageServer?
      || ReloadConfiguration? || DidChangeWatchedFiles? || ServerResponse?
    }
    predicate IsLifecycleBarrier() { Initialize? || Shutdown? }
    predicate IsInstall() { InstallServer? }
  }

  /** What the daemon does on behalf of the i-th request: its inline handler
      starts and finishes; a handler or a spawned task acts, which includes
      queueing a reply. */
  datatype Event = Start(i: nat) | Finish(i: nat) | Act(i: nat)

  datatype Main = Idle | Draining(i: nat) | Handling(i: nat) | Stopped

  // ---- the promises, about the log of a run ----

  /** Only features and installations run beside the loop. */
  ghost predicate Spawned(req: Request) { req.Feature? || req.InstallServer? }

  /** Inline handlers run one at a time, in input order. */
  ghost predicate OneAtATime(log: seq<Event>) {
    forall p, q | 0 <= p < q < |log| && log[p].Start? && log[q].Start? ::
      log[p].i < log[q].i && Finish(log[p].i) in log[p..q]
  }

  /** And act only between their start and their finish. */
  ghost predicate Inline(input: seq<Request>, log: seq<Event>) {
    forall q | 0 <= q < |log| && log[q].Act? && log[q].i < |input| && !Spawned(input[log[q].i]) ::
      Start(log[q].i) in log[..q] && Finish(log[q].i) !in log[..q]
  }

  /** A spawned request moves only after every ordered request read before it
      has been handled completely. */
  ghost predicate AfterEarlierOrdered(input: seq<Request>, log: seq<Event>) {
    forall q, i | 0 <= q < |log| && log[q].Act? && 0 <= i < log[q].i < |input|
                  && !Spawned(input[i]) && Spawned(input[log[q].i]) ::
      Finish(i) in log[..q]
  }

  /** Once a barrier's handler has started, no feature request accepted before
      it moves or replies. */
  ghost predicate BarriersHold(input: seq<Request>, log: seq<Event>) {
    forall p, q | 0 <= p < q < |log| && log[p].Start? && log[q].Act? && log[q].i < log[p].i < |input|
                  && (input[log[p].i].Initialize? || input[log[p].i].Shutdown?) ::
      !input[log[q].i].Feature?
  }

  ghost predicate Promises(input: seq<Request>, log: seq<Event>) {
    OneAtATime(log) && Inline(input, log) && AfterEarlierOrdered(input, log) && BarriersHold(input, log)
  }

  // ---- what each kind of event needs ----

  lemma Before(log: seq<Event>, e: Event, p: nat, q: nat)
    requires p <= q <= |log|
    ensures (log + [e])[p..q] == log[p..q]
  {
  }

  lemma PromisesNow(input: seq<Request>, log: seq<Event>, e: Event)
    requires Promises(input, log)
    requires e.Start? ==> forall i: nat | Start(i) in log :: i < e.i && Finish(i) in log
    requires e.Act? && e.i < |input| && !Spawned(input[e.i]) ==>
               Start(e.i) in log && Finish(e.i) !in log
    requires e.Act? && e.i < |input| && Spawned(input[e.i]) ==>
               forall i: nat | i < e.i && !Spawned(input[i]) :: Finish(i) in log
    requires e.Act? && e.i < |input| && input[e.i].Feature? ==>
               forall b: nat | Start(b) in log && b < |input| && (input[b].Initialize? || input[b].Shutdown?) :: b < e.i
    requires e.Start? ==> FinishedLater(log)
    ensures Promises(input, log + [e])
  {
    var log' := log + [e];
    assert log'[..|log|] == log;
    StartsKept(log, e);
    ActsKept(input, log, e);
    assert BarriersHold(input, log');
  }

  /** Every finish comes after its start. */
  ghost predicate FinishedLater(log: seq<Event>) {
    forall p, q | 0 <= p < |log| && 0 <= q < |log| && log[p].Start? && log[q] == Finish(log[p].i) :: p < q
  }

  lemma StartsKept(log: seq<Event>, e: Event)
    requires OneAtATime(log)
    requires e.Start? ==> FinishedLater(log) && forall i: nat | Start(i) in log :: i < e.i && Finish(i) in log
    ensures OneAtATime(log + [e])
  {
    var log' := log + [e];
    forall p, q | 0 <= p < q < |log'| && log'[p].Start? && log'[q].Start?
      ensures log'[p].i < log'[q].i && Finish(log'[p].i) in log'[p..q]
    {
      Before(log, e, p, q);
      if q == |log| {
        var i := log[p].i;
        assert Start(i) in log;
        var r :| 0 <= r < |log| && log[r] == Finish(i);
        assert log[p..q][r - p] == Finish(i);
      }
    }
  }

  lemma ActsKept(input: seq<Request>, log: seq<Event>, e: Event)
    requires Inline(input, log) && AfterEarlierOrdered(input, log)
    requires e.Act? && e.i < |input| && !Spawned(input[e.i]) ==>
               Start(e.i) in log && Finish(e.i) !in log
    requires e.Act? && e.i < |input| && Spawned(input[e.i]) ==>
               forall i: nat | i < e.i && !Spawned(input[i]) :: Finish(i) in log
    ensures Inline(input, log + [e]) && AfterEarlierOrdered(input, log + [e])
  {
    forall q | 0 <= q <= |log| ensures (log + [e])[..q] == log[..q] {
      Before(log, e, 0, q);
    }
    assert log[..|log|] == log;
  }

  // ---- the loop's state, and who moves next ----

  datatype Loop = Loop(next: nat, main: Main, requestTasks: set<nat>, installTasks: set<nat>, log: seq<Event>)
  {
    function Logged(e: Event): Loop { this.(log := log + [e]) }

    /** The request the loop is busy with, if any. */
    function Busy(): int { if main.Idle? then -1 else next - 1 }
  }

  const FRESH := Loop(0, Idle, {}, {}, [])

  datatype Choice =
    | ReadNext
    | FinishDraining            // every aborted feature task has been joined
    | LetHandlerAct | LetHandlerFinish
    | LetTaskAct(t: nat)        // aborted or not: a task is only gone once joined
    | LetTaskEnd(t: nat)
    | StopReading               // end of input, or a stalled output drops the handler

  predicate Possible(input: seq<Request>, s: Loop, c: Choice) {
    match c
    case ReadNext => s.main.Idle? && s.next < |input|
    case FinishDraining => s.main.Draining? && s.requestTasks == {}
    case LetHandlerAct => s.main.Handling?
    case LetHandlerFinish => s.main.Handling?
    case LetTaskAct(t) => t in s.requestTasks || t in s.installTasks
    case LetTaskEnd(t) => t in s.requestTasks || t in s.installTasks
    case StopReading => s.main.Idle? || s.main.Handling?
  }

  function Accept(s: Loop, req: Request): Loop {
    var i, s' := s.next, s.(next := s.next + 1);
    if req.IsLifecycleBarrier() then s'.(main := Draining(i))
    else if req.PreservesDocumentOrder() then s'.(main := Handling(i)).Logged(Start(i))
    else if req.IsInstall() then s'.(installTasks := s.installTasks + {i})
    else s'.(requestTasks := s.requestTasks + {i})
  }

  function Move(input: seq<Request>, s: Loop, c: Choice): Loop
    requires Possible(input, s, c)
  {
    match c
    case ReadNext => Accept(s, input[s.next])
    case FinishDraining => s.(main := Handling(s.main.i)).Logged(Start(s.main.i))
    case LetHandlerAct => s.Logged(Act(s.main.i))
    case LetHandlerFinish => s.(main := Idle).Logged(Finish(s.main.i))
    case LetTaskAct(t) => s.Logged(Act(t))
    case LetTaskEnd(t) => s.(requestTasks := s.requestTasks - {t}, installTasks := s.installTasks - {t})
    case StopReading => s.(main := Stopped)
  }

  /** A choice that is not possible is skipped. */
  function RunOf(input: seq<Request>, schedule: seq<Choice>): Loop {
    if schedule == [] then FRESH
    else
      var s, c := RunOf(input, schedule[..|schedule| - 1]), schedule[|schedule| - 1];
      if Possible(input, s, c) then Move(input, s, c) else s
  }

  /** The daemon itself: it spawns into and drains two task sets. */
  class Daemon {
    var next: nat
    var main: Main
    var requestTasks: set<nat>
    var installTasks: set<nat>
    var log: seq<Event>

    constructor ()
      ensures View() == FRESH
    {
      next, main, requestTasks, installTasks, log := 0, Idle, {}, {}, [];
    }

    function View(): Loop
      reads this
    {
      Loop(next, main, requestTasks, installTasks, log)
    }

    method Read(req: Request)
      modifies this
      ensures View() == Accept(old(View()), req)
    {
      var i := next;
      next := next + 1;
      if req.IsLifecycleBarrier() {
        main := Draining(i);
      } else if req.PreservesDocumentOrder() {
        main := Handling(i);
        log := log + [Start(i)];
      } else if req.IsInstall() {
        installTasks := installTasks + {i};
      } else {
        requestTasks := requestTasks + {i};
      }
    }

    method Step(input: seq<Request>, c: Choice)
      requires Possible(input, View(), c)
      modifies this
      ensures View() == Move(input, old(View()), c)
    {
      match c
      case ReadNext => Read(input[next]);
      case FinishDraining => main, log := Handling(main.i), log + [Start(main.i)];
      case LetHandlerAct => log := log + [Act(main.i)];
      case LetHandlerFinish => main, log := Idle, log + [Finish(main.i)];
      case LetTaskAct(t) => log := log + [Act(t)];
      case LetTaskEnd(t) => requestTasks, installTasks := requestTasks - {t}, installTasks - {t};
      case StopReading => main := Stopped;
    }

    method Serve(input: seq<Request>, schedule: seq<Choice>)
      requires View() == FRESH
      modifies this
      ensures View() == RunOf(input, schedule)
      ensures Promises(input, log)
    {
      hide Promises, Move;
      for k := 0 to |schedule|
        invariant View() == RunOf(input, schedule[..k])
      {
        assert schedule[..k + 1][..k] == schedule[..k];
        if Possible(input, View(), schedule[k]) {
          Step(input, schedule[k]);
        }
      }
      assert schedule[..|schedule|] == schedule;
      EveryRun(input, schedule);
    }
  }

  // ---- all runs ----

  ghost predicate Inv(input: seq<Request>, s: Loop) {
    && s.next <= |input|
    && (forall t <- s.requestTasks :: t < s.next && input[t].Feature?)
    && (forall t <- s.installTasks :: t < s.next && input[t].InstallServer?)
    && (s.main.Handling? || s.main.Draining? ==> s.main.i + 1 == s.next && !Spawned(input[s.main.i]))
    && (s.main.Draining? ==> (input[s.main.i].Initialize? || input[s.main.i].Shutdown?)
                             && Start(s.main.i) !in s.log && Finish(s.main.i) !in s.log)
    && (s.main.Handling? ==> Start(s.main.i) in s.log && Finish(s.main.i) !in s.log)
    && (forall i: nat | i < s.next && i != s.Busy() && !Spawned(input[i]) :: Finish(i) in s.log)
    && (forall e <- s.log :: e.i < s.next)
    && (forall i: nat | Start(i) in s.log :: !Spawned(input[i]))
    && (forall i: nat | Start(i) in s.log && (input[i].Initialize? || input[i].Shutdown?) :: forall t <- s.requestTasks :: i < t)
    && FinishedLater(s.log) && Promises(input, s.log)
  }

  lemma MoveInv(input: seq<Request>, s: Loop, c: Choice)
    requires Inv(input, s) && Possible(input, s, c)
    ensures Inv(input, Move(input, s, c))
  {
    match c
    case ReadNext => AcceptInv(input, s);
    case FinishDraining => StartInv(input, s);
    case LetHandlerAct => ActInv(input, s, s.main.i);
    case LetHandlerFinish => FinishInv(input, s);
    case LetTaskAct(t) => ActInv(input, s, t);
    case _ => hide Promises;
  }

  /** A barrier's handler starts once every feature task has been joined. */
  lemma StartInv(input: seq<Request>, s: Loop)
    requires Inv(input, s) && Possible(input, s, FinishDraining)
    ensures Inv(input, Move(input, s, FinishDraining))
  {
    hide Promises;
    PromisesNow(input, s.log, Start(s.main.i));
  }

  lemma FinishInv(input: seq<Request>, s: Loop)
    requires Inv(input, s) && Possible(input, s, LetHandlerFinish)
    ensures Inv(input, Move(input, s, LetHandlerFinish))
  {
    hide Promises;
    PromisesNow(input, s.log, Finish(s.main.i));
  }

  /** The handler that runs, or a spawned task, acts. */
  lemma ActInv(input: seq<Request>, s: Loop, i: nat)
    requires Inv(input, s)
    requires (s.main.Handling? && i == s.main.i) || i in s.requestTasks || i in s.installTasks
    ensures Inv(input, s.Logged(Act(i)))
  {
    hide Promises;
    PromisesNow(input, s.log, Act(i));
  }

  lemma AcceptInv(input: seq<Request>, s: Loop)
    requires Inv(input, s) && Possible(input, s, ReadNext)
    ensures Inv(input, Accept(s, input[s.next]))
  {
    hide Promises;
    if input[s.next].PreservesDocumentOrder() && !input[s.next].IsLifecycleBarrier() {
      PromisesNow(input, s.log, Start(s.next));
    }
  }

  /** Nothing that is read is lost, and each kind of request goes its own way. */
  lemma Accepted(input: seq<Request>, s: Loop)
    requires Possible(input, s, ReadNext)
    ensures var (i, s') := (s.next, Move(input, s, ReadNext));
      match input[i]
      case Feature(_) => s' == s.(next := i + 1, requestTasks := s.requestTasks + {i})
      case InstallServer => s' == s.(next := i + 1, installTasks := s.installTasks + {i})
      case Initialize => s' == s.(next := i + 1, main := Draining(i))
      case Shutdown => s' == s.(next := i + 1, main := Draining(i))
      case _ => s' == s.(next := i + 1, main := Handling(i), log := s.log + [Start(i)])
  {
  }

  /** Under every schedule, for every input, the log keeps all four promises. */
  lemma {:induction false} EveryRun(input: seq<Request>, schedule: seq<Choice>)
    ensures Inv(input, RunOf(input, schedule)) && Promises(input, RunOf(input, schedule).log)
  {
    if schedule != [] {
      var s, c := RunOf(input, schedule[..|schedule| - 1]), schedule[|schedule| - 1];
      EveryRun(input, schedule[..|schedule| - 1]);
      if Possible(input, s, c) {
        MoveInv(input, s, c);
      }
    }
  }

  // ---- the loop can always go on ----

  lemma RunOfSnoc(input: seq<Request>, schedule: seq<Choice>, c: Choice)
    requires Possible(input, RunOf(input, schedule), c)
    ensures RunOf(input, schedule + [c]) == Move(input, RunOf(input, schedule), c)
  {
    assert (schedule + [c])[..|schedule|] == schedule;
  }

  /** The choice that brings the loop nearer to its end. */
  ghost function Onwards(input: seq<Request>, s: Loop): (c: Choice)
    requires !s.main.Stopped? && s.next <= |input|
    requires !(s.main.Idle? && s.next == |input| && Tasks(s) == {})
    ensures Possible(input, s, c)
  {
    if s.main.Handling? then LetHandlerFinish
    else if s.main.Idle? && s.next < |input| then ReadNext
    else if s.main.Draining? && s.requestTasks == {} then FinishDraining
    else if s.main.Draining? then var t :| t in s.requestTasks; LetTaskEnd(t)
    else var t :| t in Tasks(s); LetTaskEnd(t)
  }

  ghost function Stage(m: Main): nat { if m.Draining? then 2 else if m.Handling? then 1 else 0 }

  ghost function Tasks(s: Loop): set<nat> { s.requestTasks + s.installTasks }

  lemma Nearer(input: seq<Request>, s: Loop)
    requires s.next <= |input| && !s.main.Stopped?
    requires !(s.main.Idle? && s.next == |input| && Tasks(s) == {})
    ensures var s' := Move(input, s, Onwards(input, s));
      && !s'.main.Stopped? && s.next <= s'.next <= |input|
      && (s'.next > s.next || Stage(s'.main) < Stage(s.main)
          || (Stage(s'.main) == Stage(s.main) && |Tasks(s')| < |Tasks(s)|))
  {
    var c := Onwards(input, s);
    if c.LetTaskEnd? {
      assert Tasks(Move(input, s, c)) == Tasks(s) - {c.t};
    }
  }

  lemma AllHandled(input: seq<Request>, s: Loop)
    requires Inv(input, s) && s.main.Idle? && s.next == |input|
    ensures forall i: nat | i < |input| && !input[i].Feature? && !input[i].InstallServer? :: Finish(i) in s.log
  {
    hide Promises, FinishedLater;
  }

  /** Whatever has happened so far, unless reading has stopped, the run can go on
      until every request has been read, every ordered one has been handled and
      every task has ended: nothing waits for what cannot happen. */
  lemma CanComplete(input: seq<Request>, schedule: seq<Choice>) returns (more: seq<Choice>)
    requires !RunOf(input, schedule).main.Stopped?
    ensures var s := RunOf(input, schedule + more);
      && s.next == |input| && s.main.Idle? && s.requestTasks == {} && s.installTasks == {}
      && forall i: nat | i < |input| && !input[i].Feature? && !input[i].InstallServer? :: Finish(i) in s.log
    decreases |input| - RunOf(input, schedule).next, Stage(RunOf(input, schedule).main), |Tasks(RunOf(input, schedule))|
  {
    hide RunOf, Promises, Inv, Move, Onwards, Possible, Stage;
    var s := RunOf(input, schedule);
    EveryRun(input, schedule);
    if s.main.Idle? && s.next == |input| && Tasks(s) == {} {
      assert schedule + [] == schedule;
      AllHandled(input, s);
      return [];
    }
    assert s.next <= |input| by { ReadSoFar(input, s); }
    Nearer(input, s);
    var c := Onwards(input, s);
    RunOfSnoc(input, schedule, c);
    more := CanComplete(input, schedule + [c]);
    assert schedule + ([c] + more) == schedule + [c] + more;
    more := [c] + more;
  }

  lemma ReadSoFar(input: seq<Request>, s: Loop)
    requires Inv(input, s)
    ensures s.next <= |input|
  {
  }
}
