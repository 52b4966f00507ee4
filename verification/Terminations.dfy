/** What a terminate command achieves: every request it names is terminated, answered if no thread had
    claimed it, and its search is told to stop. */
module Terminations {
  import opened Grid
  import opened RequestLifecycle

  // ----- a terminated search is told to stop

  /** If thread i is searching a terminated request, its bot has been told to stop, or is about to be. */
  predicate ToldToStop(s: State, i: int)
  {
    At(s, i) && s.threads[i].Searching? && Status(s, s.threads[i].req) == TERMINATED ==>
      s.stop[i] || (s.command.Stopping? && s.command.thread == i && s.command.req == s.threads[i].req)
  }

  ghost predicate AllTold(s: State)
  {
    forall i :: 0 <= i < |s.threads| ==> ToldToStop(s, i)
  }

  /** Only the search's own thread can be the value of its request's status. */
  lemma SearchingFacts(s: State, i: int)
    requires Inv(s) && 0 <= i < |s.threads| && s.threads[i].Searching?
    ensures At(s, i) && s.threads[i].req in s.requests
    ensures Status(s, s.threads[i].req) == i || Status(s, s.threads[i].req) == TERMINATED
    ensures forall j :: 0 <= j < |s.threads| && j != i ==> !Holds(s.threads[j], s.threads[i].req)
    ensures s.threads[i].req !in s.queue && 0 <= s.threads[i].req < s.nextId
  {
    hide LooseOk, CommandOk, UnclaimedOk, Somewhere;
    assert PhaseOk(s, i) && KnownOk(s, s.threads[i].req);
    assert Holds(s.threads[i], s.threads[i].req);
  }

  lemma CommandKeepsTold(s: State, e: Step, i: int)
    requires Inv(s) && AllTold(s) && Enabled(s, e) && 0 <= i < |s.threads| && Actor(e) == -1
    ensures |Apply(s, e).threads| == |s.threads| && ToldToStop(Apply(s, e), i)
  {
    hide Inv;
    OnlyActorMoves(s, e);
    InvSizes(s);
    assert ToldToStop(s, i);
    if s.threads[i].Searching? {
      SearchingFacts(s, i);
      hide CommandOk, NewIds, AllTold;
      IdsAre(s.nextId, if e.Open? then e.n else 0);
    }
  }

  lemma ThreadKeepsTold(s: State, e: Step, i: int)
    requires Inv(s) && AllTold(s) && Enabled(s, e) && 0 <= i < |s.threads| && Actor(e) != -1
    ensures |Apply(s, e).threads| == |s.threads| && ToldToStop(Apply(s, e), i)
  {
    hide Inv, Apply, CommandOk;
    InvSizes(s);
    assert ToldToStop(s, i);
    if s.threads[i].Searching? {
      SearchingFacts(s, i);
    }
    match e
    case Claim(j) => ClaimWrites(s, j);
    case Begin(j) => BeginWrites(s, j);
    case Delete(j) => DeleteWrites(s, j);
    case Report(j) => ReportingWritesNothing(s, e);
    case Recheck(j) => ReportingWritesNothing(s, e);
    case Erase(j) => ReportingWritesNothing(s, e);
    case _ => TakingWritesNothing(s, e);
  }

  lemma StepKeepsTold(s: State, e: Step, i: int)
    requires Inv(s) && AllTold(s) && Enabled(s, e) && 0 <= i < |Apply(s, e).threads|
    ensures ToldToStop(Apply(s, e), i)
  {
    hide Inv, AllTold, Enabled, Apply, ToldToStop;
    OnlyActorMoves(s, e);
    if Actor(e) == -1 {
      CommandKeepsTold(s, e, i);
    } else {
      ThreadKeepsTold(s, e, i);
    }
  }

  lemma {:induction false} RunKeepsTold(states: seq<State>, steps: seq<Step>, k: nat)
    requires Run(states, steps) && k < |states|
    ensures AllTold(states[k])
  {
    hide Inv, Enabled, Apply, ToldToStop;
    if k == 0 {
      FirstTold(states[0]);
    } else {
      RunKeepsTold(states, steps, k - 1);
      RunKeepsInv(states, steps, k - 1);
      forall i | 0 <= i < |states[k].threads|
        ensures ToldToStop(states[k], i)
      {
        StepKeepsTold(states[k - 1], steps[k - 1], i);
      }
    }
  }

  lemma FirstTold(s: State)
    requires Init(s)
    ensures AllTold(s)
  {
  }

  /** In every run, a search goes on for a terminated request only until the command thread's stop arrives. */
  lemma TerminatedSearchIsStopped(states: seq<State>, steps: seq<Step>, k: nat, i: int, r: int)
    requires Run(states, steps) && k < |states| && 0 <= i < |states[k].threads| && states[k].threads[i] == Searching(r)
    requires Status(states[k], r) == TERMINATED
    requires !(states[k].command.Stopping? && states[k].command.thread == i && states[k].command.req == r)
    ensures i < |states[k].stop| && states[k].stop[i]
  {
    hide Inv, Init, Enabled, Apply;
    RunKeepsTold(states, steps, k);
    RunKeepsInv(states, steps, k);
    InvSizes(states[k]);
    assert ToldToStop(states[k], i);
  }

  // ----- a terminate command reaches every request it names, and no other

  /** The requests the command thread still has to terminate. */
  function Todo(s: State): set<int>
  {
    match s.command
    case Scanning(todo) => todo
    case Answering(todo, _) => todo
    case Stopping(todo, _, _) => todo
    case _ => {}
  }

  /** Part of the way through a terminate command that began in state first and names the requests which. */
  ghost predicate Terminating(first: State, s: State, which: set<int>)
  {
    && Locked(s) && Todo(s) <= which
    && (forall r :: r in which ==> r in s.open && (r in Todo(s) || Status(s, r) == TERMINATED))
    && (forall r :: r !in which && Status(s, r) == TERMINATED ==> Status(first, r) == TERMINATED)
  }

  /** The steps of the command thread while it holds the mutex, up to the end of the command. */
  lemma CommandWorks(s: State, e: Step, r: int)
    requires Enabled(s, e) && Locked(s) && e != EndTerminate && Actor(e) == -1
    ensures Apply(s, e).open == s.open && Locked(Apply(s, e)) && Todo(Apply(s, e)) <= Todo(s)
    ensures Status(Apply(s, e), r) == if e == TerminateOne(r) then TERMINATED else Status(s, r)
    ensures e == TerminateOne(r) ==> r in Todo(s)
    ensures r in Todo(s) && r !in Todo(Apply(s, e)) ==> e == TerminateOne(r)
  {
    hide NewIds;
    assert e.TerminateOne? || e.Answer? || e.StopBot?;
  }

  // ----- what the steps of the other threads write

  lemma ClaimWrites(s: State, i: int)
    requires Enabled(s, Claim(i))
    ensures var t, r := Apply(s, Claim(i)), s.threads[i].req;
      && t.open == s.open && t.command == s.command && t.stop == s.stop
      && t.requests == (if Status(s, r) == IN_QUEUE then s.requests[r := POPPED] else s.requests)
      && t.threads == s.threads[i := t.threads[i]] && !t.threads[i].Searching?
  {
  }

  lemma BeginWrites(s: State, i: int)
    requires Enabled(s, Begin(i))
    ensures var t, r := Apply(s, Begin(i)), s.threads[i].req;
      && t.open == s.open && t.command == s.command && t.threads == s.threads[i := Searching(r)]
      && (if Status(s, r) == POPPED then t.requests == s.requests[r := i] && t.stop == s.stop[i := false]
          else t.requests == s.requests && t.stop == s.stop[i := true])
  {
  }

  lemma DeleteWrites(s: State, i: int)
    requires Enabled(s, Delete(i))
    ensures var t, r := Apply(s, Delete(i)), s.threads[i].req;
      && t.open == s.open && t.command == s.command && t.requests == s.requests - {r} && t.stop == s.stop
      && t.threads == s.threads[i := Waiting]
  {
  }

  /** Neither a status word nor a stop flag is written, and no search begins. */
  ghost predicate WritesNothing(s: State, t: State)
  {
    && t.requests == s.requests && t.command == s.command && t.stop == s.stop && |t.threads| == |s.threads|
    && (Locked(s) ==> t.open == s.open)
    && forall i :: 0 <= i < |s.threads| && t.threads[i].Searching? ==> t.threads[i] == s.threads[i]
  }

  lemma GoingWritesNothing(s: State, i: int, p: Phase)
    requires 0 <= i < |s.threads| && !p.Searching?
    ensures WritesNothing(s, Goto(s, i, p))
  {
  }

  lemma TakingWritesNothing(s: State, e: Step)
    requires Enabled(s, e) && (e.Pop? || e.Interim? || e.Return? || e.Exit?)
    ensures WritesNothing(s, Apply(s, e))
  {
    match e
    case Pop(i, r) => GoingWritesNothing(s, i, Claiming(r));
    case Interim(i) =>
    case Return(i, hasOutput) => GoingWritesNothing(s, i, Reporting(s.threads[i].req, hasOutput));
    case Exit(i) => GoingWritesNothing(s, i, Exited);
  }

  lemma ReportingWritesNothing(s: State, e: Step)
    requires Enabled(s, e) && (e.Report? || e.Recheck? || e.Erase?)
    ensures WritesNothing(s, Apply(s, e))
  {
    hide Status;
    match e
    case Report(i) => GoingWritesNothing(s, i, Apply(s, e).threads[i]);
    case Recheck(i) => GoingWritesNothing(s, i, Closing(s.threads[i].req));
    case Erase(i) => GoingWritesNothing(s, i, Deleting(s.threads[i].req));
  }

  // ----- while the mutex is held

  /** While the mutex is held no other thread closes a request or undoes a termination. */
  lemma ThreadWorks(s: State, e: Step, r: int)
    requires Inv(s) && Enabled(s, e) && Locked(s) && Actor(e) != -1
    ensures Apply(s, e).open == s.open && Apply(s, e).command == s.command
    ensures r in s.open && Status(s, r) == TERMINATED ==> Status(Apply(s, e), r) == TERMINATED
    ensures Status(Apply(s, e), r) == TERMINATED ==> Status(s, r) == TERMINATED
  {
    hide Inv, Apply;
    match e
    case Claim(i) => ClaimWrites(s, i);
    case Begin(i) => BeginWrites(s, i);
    case Delete(i) => DeleteWrites(s, i); NotDeletedOpen(s, i);
    case Report(i) => ReportingWritesNothing(s, e);
    case Recheck(i) => ReportingWritesNothing(s, e);
    case Erase(i) => ReportingWritesNothing(s, e);
    case _ => TakingWritesNothing(s, e);
  }

  lemma NotDeletedOpen(s: State, i: int)
    requires Inv(s) && Enabled(s, Delete(i))
    ensures s.threads[i].req !in s.open
  {
    InvParts(s, i, s.threads[i].req);
    hide Inv, CommandOk, KnownOk;
  }

  lemma StepTerminates(first: State, s: State, e: Step, which: set<int>)
    requires Inv(s) && Enabled(s, e) && Terminating(first, s, which) && e != EndTerminate
    ensures Terminating(first, Apply(s, e), which)
  {
    hide Inv, Status, Enabled, Apply, Locked;
    var t := Apply(s, e);
    if Actor(e) == -1 {
      CommandWorks(s, e, 0);
      forall r
        ensures r in which ==> r in Todo(t) || Status(t, r) == TERMINATED
        ensures r !in which && Status(t, r) == TERMINATED ==> Status(first, r) == TERMINATED
      {
        CommandWorks(s, e, r);
      }
    } else {
      ThreadWorks(s, e, 0);
      SameCommand(s, t);
      forall r
        ensures r in which ==> r in Todo(t) || Status(t, r) == TERMINATED
        ensures r !in which && Status(t, r) == TERMINATED ==> Status(first, r) == TERMINATED
      {
        ThreadWorks(s, e, r);
      }
    }
  }

  lemma SameCommand(s: State, t: State)
    requires t.command == s.command
    ensures Todo(t) == Todo(s) && Locked(t) == Locked(s)
  {
  }

  lemma {:induction false} RunTerminates(states: seq<State>, steps: seq<Step>, j: nat, k: nat, which: set<int>)
    requires Run(states, steps) && j < k < |states| && steps[j] == Terminate(which)
    requires forall i :: j < i < k ==> steps[i] != EndTerminate
    ensures Terminating(states[j], states[k], which)
  {
    hide Inv, Init, Enabled, Apply, Terminating;
    if k == j + 1 {
      TerminateBegins(states[j], which);
    } else {
      RunTerminates(states, steps, j, k - 1, which);
      RunKeepsInv(states, steps, k - 1);
      StepTerminates(states[j], states[k - 1], steps[k - 1], which);
    }
  }

  lemma TerminateBegins(s: State, which: set<int>)
    requires Enabled(s, Terminate(which))
    ensures Terminating(s, Apply(s, Terminate(which)), which)
  {
  }

  /** When a terminate command is done, every request it names is terminated and nothing else has been: one
      that is still unclaimed has its final report, and the bot searching one has been told to stop. */
  lemma TerminateReachesAll(states: seq<State>, steps: seq<Step>, j: nat, k: nat, which: set<int>, r: int)
    requires Run(states, steps) && j < k < |steps| && steps[j] == Terminate(which) && steps[k] == EndTerminate
    requires forall i :: j < i < k ==> steps[i] != EndTerminate
    ensures r in which ==> r in states[k].open && Status(states[k], r) == TERMINATED
    ensures r !in which && Status(states[k], r) == TERMINATED ==> Status(states[j], r) == TERMINATED
    ensures r in which && r in states[k].queue ==> states[k].finals[r] == 1
    ensures forall i :: r in which && 0 <= i < |states[k].threads| && states[k].threads[i] == Claiming(r) ==>
      states[k].finals[r] == 1
    ensures forall i :: r in which && 0 <= i < |states[k].threads| && states[k].threads[i] == Searching(r) ==>
      i < |states[k].stop| && states[k].stop[i]
  {
    hide Inv, Init, Terminating;
    var s := states[k];
    RunTerminates(states, steps, j, k, which);
    assert s.command == Scanning({});
    hide Enabled, Apply;
    AllReached(states[j], s, which, r);
    RunKeepsInv(states, steps, k);
    if r in which {
      ReportedUnclaimed(s, r);
      forall i | 0 <= i < |s.threads| && s.threads[i] == Searching(r)
        ensures i < |s.stop| && s.stop[i]
      {
        TerminatedSearchIsStopped(states, steps, k, i, r);
      }
    }
  }

  lemma AllReached(first: State, s: State, which: set<int>, r: int)
    requires Terminating(first, s, which) && s.command == Scanning({})
    ensures r in which ==> r in s.open && Status(s, r) == TERMINATED
    ensures r !in which && Status(s, r) == TERMINATED ==> Status(first, r) == TERMINATED
  {
  }

  /** A terminated request that no thread has claimed has had its final report, unless it is just owed. */
  lemma ReportedUnclaimed(s: State, r: int)
    requires Inv(s) && Status(s, r) == TERMINATED && !Owes(s, r)
    ensures r in s.queue ==> s.finals[r] == 1
    ensures forall i :: 0 <= i < |s.threads| && s.threads[i] == Claiming(r) ==> s.finals[r] == 1
  {
    hide Separate, CommandOk, KnownOk;
    assert LooseOk(s, r);
    forall i | 0 <= i < |s.threads| && s.threads[i] == Claiming(r)
      ensures s.finals[r] == 1
    {
      assert PhaseOk(s, i);
    }
  }

  // ----- shutting down

  /** The engine quits without waiting exactly if its input ended with the request to. */
  lemma {:induction false} QuitsOnRequest(states: seq<State>, steps: seq<Step>, k: nat)
    requires Run(states, steps) && k < |states|
    ensures states[k].quitting <==> exists j :: 0 <= j < k && steps[j] == EndOfInput(true)
    ensures states[k].command == Ended <==> exists j :: 0 <= j < k && steps[j].EndOfInput?
  {
    hide Enabled, Apply;
    if k > 0 {
      QuitsOnRequest(states, steps, k - 1);
      EndsOnce(states[k - 1], steps[k - 1]);
    }
  }

  lemma EndsOnce(s: State, e: Step)
    requires Enabled(s, e)
    ensures Apply(s, e).quitting == if e.EndOfInput? then e.quit else s.quitting
    ensures Apply(s, e).command == Ended <==> e.EndOfInput? || s.command == Ended
    ensures e.EndOfInput? ==> s.command != Ended
  {
    hide Status, NewIds;
  }

  /** Then every bot can be interrupted, and an interrupted search may return without output. */
  lemma InterruptsWhenQuitting(states: seq<State>, steps: seq<Step>, j: nat, k: nat, i: int)
    requires Run(states, steps) && j < k < |states| && steps[j] == EndOfInput(true)
    requires 0 <= i < |states[k].threads|
    ensures Enabled(states[k], Interrupt(i))
    ensures var t := Apply(states[k], Interrupt(i));
      t.threads == states[k].threads && (t.threads[i].Searching? ==> Enabled(t, Return(i, false)))
  {
    QuitsOnRequest(states, steps, k);
    RunKeepsInv(states, steps, k);
    InvSizes(states[k]);
    hide Inv, Init, CommandOk;
  }
}
