/** The life of an analysis request, shared between the thread that reads commands, the analysis threads
    and their bots. Each step of the machine is one atomic action of one thread: an operation on a
    request's status word, a critical section, or an operation on a queue. */
module RequestLifecycle {
  import opened Grid

  // ----- values of a request's status word; other values are thread indices

  const IN_QUEUE := -1
  const POPPED := -2
  const TERMINATED := -3

  /** Where an analysis thread is in its loop, and with which request. */
  datatype Phase =
    | Waiting                                // for an item of the queue
    | Claiming(req: int)                     // took the request, has not tried to claim it
    | Preparing(req: int)                    // claimed it, the search has not begun
    | Searching(req: int)                    // the search has begun
    | Reporting(req: int, hasOutput: bool)   // the search has returned
    | Unreported(req: int)                   // there was nothing to report
    | Closing(req: int)                      // about to erase it from the open requests
    | Deleting(req: int)                     // about to delete it
    | Exited

  /** Where the command thread is. While it terminates requests it holds the mutex. */
  datatype Command =
    | Reading
    | Pushing(rest: seq<int>)                             // new requests not in the queue yet
    | Scanning(todo: set<int>)                            // requests still to be terminated
    | Answering(todo: set<int>, req: int)                 // owes the final report of req
    | Stopping(todo: set<int>, thread: int, req: int)     // about to stop the bot of a thread
    | Ended

  datatype State = State(
    requests: map<int, int>,   // the status words of the requests allocated
    open: set<int>,            // the open requests
    queue: multiset<int>,
    threads: seq<Phase>,
    stop: seq<bool>,           // whether each thread's bot has been told to stop its search
    command: Command,
    finals: multiset<int>,     // the final reports written, by request
    nextId: nat,
    quitting: bool             // shutting down without waiting
  )

  datatype Step =
    | Open(n: nat) | Push | Terminate(which: set<int>) | TerminateOne(req: int) | Answer | StopBot | EndTerminate
    | EndOfInput(quit: bool) | Interrupt(i: int)
    | Pop(i: int, req: int) | Claim(i: int) | Begin(i: int) | Interim(i: int) | Return(i: int, hasOutput: bool)
    | Report(i: int) | Recheck(i: int) | Erase(i: int) | Delete(i: int) | Exit(i: int)

  predicate Locked(s: State)
  {
    s.command.Scanning? || s.command.Answering? || s.command.Stopping?
  }

  /** The status word of a request; anything at all once it has been deleted. */
  function Status(s: State, r: int): int
  {
    if r in s.requests then s.requests[r] else 0
  }

  predicate Init(s: State)
  {
    && s.requests == map[] && s.open == {} && s.queue == multiset{} && s.finals == multiset{}
    && (forall i :: 0 <= i < |s.threads| ==> s.threads[i] == Waiting)
    && |s.stop| == |s.threads| && s.command == Reading && s.nextId == 0 && !s.quitting
  }

  predicate At(s: State, i: int)
  {
    0 <= i < |s.threads| && i < |s.stop|
  }

  /** When a step can be taken: this depends on where the threads are, on the mutex and on the queue. */
  predicate Enabled(s: State, e: Step)
  {
    match e
    case Open(n) => s.command == Reading
    case Push => s.command.Pushing? && |s.command.rest| > 0
    case Terminate(which) => s.command == Reading && which <= s.open
    case TerminateOne(r) => s.command.Scanning? && r in s.command.todo
    case Answer => s.command.Answering?
    case StopBot => s.command.Stopping?
    case EndTerminate => s.command == Scanning({})
    case EndOfInput(quit) => s.command == Reading
    case Interrupt(i) => s.command == Ended && s.quitting && At(s, i)
    case Pop(i, r) => At(s, i) && s.threads[i] == Waiting && r in s.queue
    case Claim(i) => At(s, i) && s.threads[i].Claiming?
    case Begin(i) => At(s, i) && s.threads[i].Preparing?
    case Interim(i) => At(s, i) && s.threads[i].Searching?
    case Return(i, hasOutput) => At(s, i) && s.threads[i].Searching? && (hasOutput || s.stop[i])
    case Report(i) => At(s, i) && s.threads[i].Reporting?
    case Recheck(i) => At(s, i) && s.threads[i].Unreported?
    case Erase(i) => At(s, i) && s.threads[i].Closing? && !Locked(s)
    case Delete(i) => At(s, i) && s.threads[i].Deleting?
    case Exit(i) => At(s, i) && s.threads[i] == Waiting && s.command == Ended && s.queue == multiset{}
  }

  function NewIds(from: nat, n: nat): (r: seq<int>)
    ensures |r| == n && forall k :: 0 <= k < n ==> r[k] == from + k
  {
    seq(n, k => from + k)
  }

  lemma IdsAre(from: nat, n: nat)
    ensures forall r :: r in NewIds(from, n) <==> from <= r < from + n
  {
    var ids := NewIds(from, n);
    forall r | from <= r < from + n
      ensures r in ids
    {
      assert ids[r - from] == r;
    }
  }

  function SetStatus(s: State, r: int, status: int): State
  {
    s.(requests := s.requests[r := status])
  }

  function Goto(s: State, i: int, p: Phase): State
    requires 0 <= i < |s.threads|
  {
    s.(threads := s.threads[i := p])
  }

  /** The state after a step. */
  function Apply(s: State, e: Step): State
    requires Enabled(s, e)
  {
    match e
    case Open(n) =>
      var ids := NewIds(s.nextId, n);
      s.(requests := s.requests + (map r | r in ids :: IN_QUEUE), open := s.open + (set r | r in ids),
         command := if n == 0 then Reading else Pushing(ids), nextId := s.nextId + n)
    case Push =>
      var r, rest := s.command.rest[0], s.command.rest[1..];
      s.(queue := s.queue + multiset{r}, command := if rest == [] then Reading else Pushing(rest))
    case Terminate(which) => s.(command := Scanning(which))
    case TerminateOne(r) =>
      var prev, todo := Status(s, r), s.command.todo - {r};
      SetStatus(s, r, TERMINATED).(command :=
        if prev == TERMINATED then Scanning(todo)
        else if prev == IN_QUEUE then Answering(todo, r)
        else if prev == POPPED then Scanning(todo)
        else Stopping(todo, prev, r))
    case Answer => s.(finals := s.finals + multiset{s.command.req}, command := Scanning(s.command.todo))
    case StopBot =>
      var j := s.command.thread;
      s.(stop := if 0 <= j < |s.stop| then s.stop[j := true] else s.stop, command := Scanning(s.command.todo))
    case EndTerminate => s.(command := Reading)
    case EndOfInput(quit) => s.(command := Ended, quitting := quit)
    case Interrupt(i) => s.(stop := s.stop[i := true])
    case Pop(i, r) => Goto(s, i, Claiming(r)).(queue := s.queue - multiset{r})
    case Claim(i) =>
      var r := s.threads[i].req;
      if Status(s, r) == IN_QUEUE then SetStatus(Goto(s, i, Preparing(r)), r, POPPED) else Goto(s, i, Closing(r))
    case Begin(i) =>
      var r := s.threads[i].req;
      if Status(s, r) == POPPED then SetStatus(Goto(s, i, Searching(r)), r, i).(stop := s.stop[i := false])
      else Goto(s, i, Searching(r)).(stop := s.stop[i := true])
    case Interim(i) => s
    case Return(i, hasOutput) => Goto(s, i, Reporting(s.threads[i].req, hasOutput))
    case Report(i) =>
      var r := s.threads[i].req;
      if s.threads[i].hasOutput then Goto(s, i, Closing(r)).(finals := s.finals + multiset{r}) else Goto(s, i, Unreported(r))
    case Recheck(i) =>
      var r := s.threads[i].req;
      if Status(s, r) == TERMINATED then Goto(s, i, Closing(r)).(finals := s.finals + multiset{r}) else Goto(s, i, Closing(r))
    case Erase(i) => Goto(s, i, Deleting(s.threads[i].req)).(open := s.open - {s.threads[i].req})
    case Delete(i) => Goto(s, i, Waiting).(requests := s.requests - {s.threads[i].req})
    case Exit(i) => Goto(s, i, Exited)
  }

  /** The requests whose memory a step reads or writes. */
  function Touched(s: State, e: Step): set<int>
    requires Enabled(s, e)
  {
    match e
    case TerminateOne(r) => {r}
    case Answer => {s.command.req}
    case Claim(i) => {s.threads[i].req}
    case Begin(i) => {s.threads[i].req}
    case Interim(i) => {s.threads[i].req}
    case Report(i) => {s.threads[i].req}
    case Recheck(i) => {s.threads[i].req}
    case Erase(i) => {s.threads[i].req}
    case Delete(i) => {s.threads[i].req}
    case _ => {}
  }

  // ----- the invariant

  predicate Holds(p: Phase, r: int)
  {
    match p
    case Waiting => false
    case Exited => false
    case Claiming(q) => q == r
    case Preparing(q) => q == r
    case Searching(q) => q == r
    case Reporting(q, _) => q == r
    case Unreported(q) => q == r
    case Closing(q) => q == r
    case Deleting(q) => q == r
  }

  predicate Owes(s: State, r: int)
  {
    s.command.Answering? && s.command.req == r
  }

  predicate InHand(s: State, r: int)
  {
    s.command.Pushing? && r in s.command.rest
  }

  /** A request that no thread has claimed: reported at once if it was terminated. */
  predicate UnclaimedOk(s: State, r: int)
  {
    && r in s.requests
    && if s.requests[r] == IN_QUEUE then s.finals[r] == 0 && !Owes(s, r)
       else s.requests[r] == TERMINATED && (if Owes(s, r) then s.finals[r] == 0 else s.finals[r] == 1)
  }

  /** What holds of the request of thread i, by its phase. */
  predicate PhaseOk(s: State, i: int)
    requires At(s, i)
  {
    match s.threads[i]
    case Waiting => true
    case Exited => true
    case Claiming(r) => UnclaimedOk(s, r) && r in s.open
    case Preparing(r) =>
      r in s.requests && r in s.open && (s.requests[r] == POPPED || s.requests[r] == TERMINATED) && s.finals[r] == 0 && !Owes(s, r)
    case Searching(r) => SearchedOk(s, i, r)
    case Reporting(r, hasOutput) => SearchedOk(s, i, r) && (hasOutput || s.stop[i])
    case Unreported(r) => SearchedOk(s, i, r) && s.stop[i]
    case Closing(r) =>
      && r in s.requests && r in s.open && (s.requests[r] == i || s.requests[r] == TERMINATED)
      && (if Owes(s, r) then s.requests[r] == TERMINATED && s.finals[r] == 0 else s.finals[r] == 1 || (s.quitting && s.finals[r] == 0))
    case Deleting(r) => r in s.requests && r !in s.open && !Owes(s, r) && (s.finals[r] == 1 || (s.quitting && s.finals[r] == 0))
  }

  predicate SearchedOk(s: State, i: int, r: int)
    requires At(s, i)
  {
    && r in s.requests && r in s.open && (s.requests[r] == i || s.requests[r] == TERMINATED) && s.finals[r] == 0 && !Owes(s, r)
    && (s.stop[i] && !s.quitting ==> s.requests[r] == TERMINATED)
  }

  /** Each request is in one place at most. */
  ghost predicate Separate(s: State)
  {
    && (forall r :: s.queue[r] <= 1)
    && (forall r :: r in s.queue ==> !InHand(s, r))
    && (forall i, r :: 0 <= i < |s.threads| && Holds(s.threads[i], r) ==> r !in s.queue && !InHand(s, r))
    && (forall i, j, r :: 0 <= i < j < |s.threads| && Holds(s.threads[i], r) ==> !Holds(s.threads[j], r))
    && (s.command.Pushing? ==> forall k, l :: 0 <= k < l < |s.command.rest| ==> s.command.rest[k] != s.command.rest[l])
  }

  ghost predicate CommandOk(s: State)
  {
    && (s.quitting ==> s.command == Ended)
    && match s.command
      case Scanning(todo) => todo <= s.open
      case Answering(todo, r) => todo <= s.open && r in s.open && r in s.requests && s.requests[r] == TERMINATED && s.finals[r] == 0
      case Stopping(todo, i, r) =>
        && todo <= s.open && r in s.open && r in s.requests && s.requests[r] == TERMINATED && At(s, i) && Holds(s.threads[i], r)
        && (s.threads[i].Searching? || s.threads[i].Reporting? || s.threads[i].Unreported? || s.threads[i].Closing?)
      case _ => true
  }

  predicate HeldByThread(s: State, r: int)
  {
    exists i :: 0 <= i < |s.threads| && Holds(s.threads[i], r)
  }

  predicate Somewhere(s: State, r: int)
  {
    r in s.queue || InHand(s, r) || HeldByThread(s, r)
  }

  predicate KnownOk(s: State, r: int)
  {
    && (r in s.open ==> r in s.requests)
    && (r in s.requests ==> 0 <= r < s.nextId && Somewhere(s, r))
    && s.finals[r] <= 1 && (r >= s.nextId || r < 0 ==> s.finals[r] == 0)
    && (0 <= r < s.nextId && r !in s.requests ==> s.finals[r] == 1 || s.quitting)
  }

  predicate LooseOk(s: State, r: int)
  {
    r in s.queue || InHand(s, r) ==> UnclaimedOk(s, r) && r in s.open
  }

  ghost predicate Inv(s: State)
  {
    && |s.stop| == |s.threads| && Separate(s) && CommandOk(s)
    && (forall r :: LooseOk(s, r))
    && (forall i :: 0 <= i < |s.threads| ==> PhaseOk(s, i))
    && (forall r :: KnownOk(s, r))
  }

  lemma InitInv(s: State)
    requires Init(s)
    ensures Inv(s)
  {
  }

  // ----- what one step leaves alone

  /** Everything said about request q is the same in both states. */
  predicate SameFor(s: State, t: State, q: int)
  {
    && (q in s.requests <==> q in t.requests) && Status(s, q) == Status(t, q) && s.finals[q] == t.finals[q]
    && (q in s.open <==> q in t.open) && (Owes(s, q) <==> Owes(t, q))
  }

  lemma OtherPhaseOk(s: State, t: State, j: int, q: int)
    requires At(s, j) && At(t, j) && PhaseOk(s, j) && t.threads[j] == s.threads[j] && t.stop[j] == s.stop[j]
    requires s.quitting ==> t.quitting
    requires s.threads[j] != Waiting && s.threads[j] != Exited ==> Holds(s.threads[j], q) && SameFor(s, t, q)
    ensures PhaseOk(t, j)
  {
  }

  function ReqOf(p: Phase): int
  {
    match p
    case Waiting => -1
    case Exited => -1
    case Claiming(q) => q
    case Preparing(q) => q
    case Searching(q) => q
    case Reporting(q, _) => q
    case Unreported(q) => q
    case Closing(q) => q
    case Deleting(q) => q
  }

  lemma ReqHeld(p: Phase)
    ensures p != Waiting && p != Exited ==> Holds(p, ReqOf(p))
    ensures forall r :: Holds(p, r) ==> r == ReqOf(p) && p != Waiting && p != Exited
  {
  }

  /** Thread i works on its request r and leaves everything else alone. */
  lemma WorkKeeps(s: State, t: State, i: int, r: int)
    requires Inv(s) && At(s, i) && Holds(s.threads[i], r) && |t.threads| == |s.threads| && Holds(t.threads[i], r)
    requires t.threads == s.threads[i := t.threads[i]] && |t.stop| == |s.stop| && t.stop == s.stop[i := t.stop[i]]
    requires t.queue == s.queue && t.command == s.command && t.nextId == s.nextId && t.quitting == s.quitting
    requires forall q :: q != r ==> SameFor(s, t, q)
    requires r in s.requests && r in t.requests && t.finals[r] <= 1 && PhaseOk(t, i) && CommandOk(t)
    ensures Inv(t)
  {
    hide PhaseOk, CommandOk, UnclaimedOk;
    forall j | 0 <= j < |t.threads|
      ensures PhaseOk(t, j)
    {
      if j != i {
        ReqHeld(s.threads[j]);
        OtherPhaseOk(s, t, j, ReqOf(s.threads[j]));
      }
    }
    HoldersSame(s, t, i, r);
    assert r !in s.queue && !InHand(s, r) && HeldByThread(s, r);
    hide Separate, HeldByThread;
    forall q
      ensures KnownOk(t, q)
      ensures LooseOk(t, q)
    {
      assert KnownOk(s, q) && LooseOk(s, q);
      assert InHand(t, q) <==> InHand(s, q);
      if q != r {
        assert SameFor(s, t, q);
        UnclaimedSame(s, t, q);
        assert Somewhere(s, q) ==> Somewhere(t, q);
      }
    }
  }

  lemma UnclaimedSame(s: State, t: State, q: int)
    ensures SameFor(s, t, q) && UnclaimedOk(s, q) ==> UnclaimedOk(t, q)
  {
  }

  lemma HoldersSame(s: State, t: State, i: int, r: int)
    requires At(s, i) && Holds(s.threads[i], r) && |t.threads| == |s.threads| && Holds(t.threads[i], r)
    requires t.threads == s.threads[i := t.threads[i]] && t.queue == s.queue && t.command == s.command
    ensures forall j, q :: 0 <= j < |s.threads| ==> (Holds(t.threads[j], q) <==> Holds(s.threads[j], q))
    ensures forall q :: HeldByThread(t, q) <==> HeldByThread(s, q)
    ensures Separate(s) ==> Separate(t)
  {
    ReqHeld(s.threads[i]);
    ReqHeld(t.threads[i]);
    assert forall j, q :: 0 <= j < |s.threads| ==> (Holds(t.threads[j], q) <==> Holds(s.threads[j], q));
  }

  lemma SearchKeeps(s: State, e: Step, i: int)
    requires Inv(s) && Enabled(s, e)
    requires e == Claim(i) || e == Begin(i) || e == Interim(i) || (e.Return? && e.i == i)
    ensures Inv(Apply(s, e))
  {
    hide Inv, Separate;
    var r := s.threads[i].req;
    InvParts(s, i, r);
    WorkKeeps(s, Apply(s, e), i, r);
  }

  lemma FinishKeeps(s: State, e: Step, i: int)
    requires Inv(s) && Enabled(s, e) && (e == Report(i) || e == Recheck(i) || e == Erase(i))
    ensures Inv(Apply(s, e))
  {
    hide Inv, Separate;
    var r := s.threads[i].req;
    InvParts(s, i, r);
    WorkKeeps(s, Apply(s, e), i, r);
  }

  lemma InvParts(s: State, i: int, r: int)
    requires Inv(s) && 0 <= i < |s.threads|
    ensures At(s, i) && PhaseOk(s, i) && CommandOk(s) && KnownOk(s, r)
  {
  }

  // ----- taking a request up, and letting it go

  lemma PopKeeps(s: State, i: int, r: int)
    requires Inv(s) && Enabled(s, Pop(i, r))
    ensures Inv(Apply(s, Pop(i, r)))
  {
    var t := Apply(s, Pop(i, r));
    PopPlaces(s, i, r);
    hide Separate, UnclaimedOk, CommandOk;
    assert LooseOk(s, r);
    UnclaimedSame(s, t, r);
    forall j | 0 <= j < |t.threads|
      ensures PhaseOk(t, j)
    {
      if j != i {
        ReqHeld(s.threads[j]);
        OtherPhaseOk(s, t, j, ReqOf(s.threads[j]));
      }
    }
    forall q
      ensures KnownOk(t, q) && LooseOk(t, q)
    {
      assert KnownOk(s, q) && LooseOk(s, q);
      UnclaimedSame(s, t, q);
    }
    CommandSame(s, t);
  }

  lemma PopPlaces(s: State, i: int, r: int)
    requires Inv(s) && Enabled(s, Pop(i, r))
    ensures Separate(Apply(s, Pop(i, r)))
    ensures forall q :: Somewhere(s, q) ==> Somewhere(Apply(s, Pop(i, r)), q)
  {
    hide PhaseOk, CommandOk, KnownOk, LooseOk, UnclaimedOk;
    var t := Apply(s, Pop(i, r));
    assert s.queue[r] == 1;
    assert Holds(t.threads[i], r);
    forall q | Somewhere(s, q)
      ensures Somewhere(t, q)
    {
      if j :| 0 <= j < |s.threads| && Holds(s.threads[j], q) {
        assert t.threads[j] == s.threads[j];
      }
    }
  }

  /** The command thread's obligations concern only threads with a claimed request. */
  lemma CommandSame(s: State, t: State)
    requires CommandOk(s) && t.command == s.command && |t.threads| == |s.threads| && |t.stop| == |s.stop|
    requires s.open <= t.open && t.requests == s.requests && t.finals == s.finals && t.quitting == s.quitting
    requires forall i :: 0 <= i < |s.threads| && s.threads[i] != Waiting ==> t.threads[i] == s.threads[i]
    ensures CommandOk(t)
  {
  }

  lemma DeleteKeeps(s: State, i: int)
    requires Inv(s) && Enabled(s, Delete(i))
    ensures Inv(Apply(s, Delete(i)))
  {
    var t, r := Apply(s, Delete(i)), s.threads[i].req;
    DeletePlaces(s, i);
    hide Separate, UnclaimedOk, CommandOk;
    forall j | 0 <= j < |t.threads|
      ensures PhaseOk(t, j)
    {
      if j != i {
        ReqHeld(s.threads[j]);
        OtherPhaseOk(s, t, j, ReqOf(s.threads[j]));
      }
    }
    forall q
      ensures KnownOk(t, q) && LooseOk(t, q)
    {
      assert PhaseOk(s, i);
      assert KnownOk(s, q) && LooseOk(s, q);
      UnclaimedSame(s, t, q);
    }
  }

  lemma DeletePlaces(s: State, i: int)
    requires Inv(s) && Enabled(s, Delete(i))
    ensures Separate(Apply(s, Delete(i))) && CommandOk(Apply(s, Delete(i)))
    ensures var r := s.threads[i].req;
      !(r in s.queue || InHand(s, r)) && forall j :: 0 <= j < |s.threads| && j != i ==> !Holds(s.threads[j], r)
    ensures forall q :: q != s.threads[i].req && Somewhere(s, q) ==> Somewhere(Apply(s, Delete(i)), q)
  {
    assert PhaseOk(s, i) && Holds(s.threads[i], s.threads[i].req);
    hide KnownOk, LooseOk, UnclaimedOk, PhaseOk;
    var t, r := Apply(s, Delete(i)), s.threads[i].req;
    assert CommandOk(t) by {
      DeleteCommand(s, i);
    }
    hide CommandOk;
    forall q | q != r && Somewhere(s, q)
      ensures Somewhere(t, q)
    {
      if j :| 0 <= j < |s.threads| && Holds(s.threads[j], q) {
        assert j != i && t.threads[j] == s.threads[j];
      }
    }
  }

  /** The command thread owes nothing to a request that is about to be deleted. */
  lemma DeleteCommand(s: State, i: int)
    requires CommandOk(s) && Enabled(s, Delete(i)) && PhaseOk(s, i)
    ensures CommandOk(Apply(s, Delete(i)))
  {
  }

  lemma ExitKeeps(s: State, i: int)
    requires Inv(s) && Enabled(s, Exit(i))
    ensures Inv(Apply(s, Exit(i)))
  {
    hide UnclaimedOk, CommandOk;
    var t := Apply(s, Exit(i));
    forall j | 0 <= j < |t.threads|
      ensures PhaseOk(t, j)
    {
      if j != i {
        ReqHeld(s.threads[j]);
        OtherPhaseOk(s, t, j, ReqOf(s.threads[j]));
      }
    }
    forall q
      ensures KnownOk(t, q) && LooseOk(t, q)
    {
      assert KnownOk(s, q) && LooseOk(s, q);
      if j :| 0 <= j < |s.threads| && Holds(s.threads[j], q) {
        assert t.threads[j] == s.threads[j];
      }
    }
    CommandSame(s, t);
  }

  // ----- the command thread

  /** The command thread acts without touching the threads' requests, except for r. */
  lemma CommandActs(s: State, t: State, r: int)
    requires Inv(s) && t.threads == s.threads && |t.stop| == |s.stop|
    requires t.queue == s.queue && t.nextId == s.nextId && t.quitting == s.quitting
    requires !s.command.Pushing? && !t.command.Pushing? && t.open == s.open
    requires forall q :: q != r ==> SameFor(s, t, q)
    requires forall j :: 0 <= j < |s.threads| && Holds(s.threads[j], r) ==> PhaseOk(t, j)
    requires forall j :: 0 <= j < |s.threads| && !Holds(s.threads[j], r) ==> t.stop[j] == s.stop[j]
    requires (r in s.requests <==> r in t.requests) && t.finals[r] <= 1
    requires (r in s.queue ==> UnclaimedOk(t, r)) && CommandOk(t)
    requires r in s.requests
    ensures Inv(t)
  {
    hide PhaseOk, CommandOk, UnclaimedOk;
    forall j | 0 <= j < |t.threads|
      ensures PhaseOk(t, j)
    {
      if !Holds(s.threads[j], r) {
        ReqHeld(s.threads[j]);
        OtherPhaseOk(s, t, j, ReqOf(s.threads[j]));
      }
    }
    assert forall q :: HeldByThread(t, q) <==> HeldByThread(s, q);
    forall q
      ensures KnownOk(t, q)
      ensures LooseOk(t, q)
    {
      assert KnownOk(s, q) && LooseOk(s, q);
      if q != r {
        assert SameFor(s, t, q);
        UnclaimedSame(s, t, q);
      }
    }
  }

  /** Where an open request can be, and in what state. */
  lemma OpenRequest(s: State, r: int) returns (i: int)
    requires Inv(s) && r in s.open
    ensures r in s.requests
    ensures r in s.queue || InHand(s, r) ==> UnclaimedOk(s, r)
    ensures !(r in s.queue || InHand(s, r)) ==> At(s, i) && Holds(s.threads[i], r) && PhaseOk(s, i)
    ensures forall j :: 0 <= j < |s.threads| && Holds(s.threads[j], r) ==> j == i && !(r in s.queue || InHand(s, r))
  {
    hide PhaseOk, CommandOk, UnclaimedOk;
    assert KnownOk(s, r) && LooseOk(s, r);
    i := -1;
    if !(r in s.queue || InHand(s, r)) {
      i :| 0 <= i < |s.threads| && Holds(s.threads[i], r);
    }
  }

  lemma TerminateOneKeeps(s: State, r: int)
    requires Inv(s) && Enabled(s, TerminateOne(r))
    ensures Inv(Apply(s, TerminateOne(r)))
  {
    assert CommandOk(s) && KnownOk(s, r);
    hide Inv, Separate, KnownOk, LooseOk;
    var t := Apply(s, TerminateOne(r));
    var i := OpenRequest(s, r);
    CommandActs(s, t, r);
  }

  lemma AnswerKeeps(s: State)
    requires Inv(s) && Enabled(s, Answer)
    ensures Inv(Apply(s, Answer))
  {
    assert CommandOk(s);
    hide Inv, Separate, KnownOk, LooseOk;
    var t, r := Apply(s, Answer), s.command.req;
    var i := OpenRequest(s, r);
    CommandActs(s, t, r);
  }

  lemma StopBotKeeps(s: State)
    requires Inv(s) && Enabled(s, StopBot)
    ensures Inv(Apply(s, StopBot))
  {
    assert CommandOk(s) && PhaseOk(s, s.command.thread);
    hide Inv, Separate, KnownOk, LooseOk;
    var t, r := Apply(s, StopBot), s.command.req;
    var i := OpenRequest(s, r);
    CommandActs(s, t, r);
  }

  lemma NothingHeld(s: State, t: State)
    requires Inv(s) && t.threads == s.threads && t.queue == s.queue && t.nextId == s.nextId && t.requests == s.requests
    requires t.finals == s.finals && t.open == s.open && (s.quitting ==> t.quitting)
    requires !Locked(s) || s.command.Scanning?
    requires !Locked(t) || t.command.Scanning?
    requires !s.command.Pushing? && !t.command.Pushing?
    requires |t.stop| == |s.stop| && (t.quitting || t.stop == s.stop)
    requires forall j :: 0 <= j < |s.stop| && s.stop[j] ==> t.stop[j]
    requires CommandOk(t)
    ensures Inv(t)
  {
    hide CommandOk;
    forall j | 0 <= j < |t.threads|
      ensures PhaseOk(t, j)
    {
      assert PhaseOk(s, j);
    }
    hide PhaseOk, UnclaimedOk;
    assert forall q :: HeldByThread(t, q) <==> HeldByThread(s, q);
    forall q
      ensures KnownOk(t, q)
      ensures LooseOk(t, q)
    {
      assert KnownOk(s, q) && LooseOk(s, q);
      assert SameFor(s, t, q);
      UnclaimedSame(s, t, q);
    }
  }

  lemma IdleKeeps(s: State, e: Step)
    requires Inv(s) && Enabled(s, e) && (e.Terminate? || e.EndTerminate? || e.EndOfInput? || e.Interrupt?)
    ensures Inv(Apply(s, e))
  {
    hide Inv;
    InvSizes(s);
    NothingHeld(s, Apply(s, e));
  }

  lemma InvSizes(s: State)
    requires Inv(s)
    ensures |s.stop| == |s.threads| && CommandOk(s)
  {
  }

  lemma PushKeeps(s: State)
    requires Inv(s) && Enabled(s, Push)
    ensures Inv(Apply(s, Push))
  {
    hide CommandOk;
    var t, r := Apply(s, Push), s.command.rest[0];
    PushPlaces(s);
    forall j | 0 <= j < |t.threads|
      ensures PhaseOk(t, j)
    {
      assert PhaseOk(s, j);
    }
    hide PhaseOk, UnclaimedOk, Separate;
    forall q
      ensures KnownOk(t, q)
      ensures LooseOk(t, q)
    {
      assert KnownOk(s, q) && LooseOk(s, q);
      assert SameFor(s, t, q);
      UnclaimedSame(s, t, q);
    }
    assert CommandOk(t) by {
      PushCommand(s);
    }
  }

  lemma PushCommand(s: State)
    requires Enabled(s, Push) && CommandOk(s)
    ensures CommandOk(Apply(s, Push))
  {
  }

  lemma PushPlaces(s: State)
    requires Inv(s) && Enabled(s, Push)
    ensures Separate(Apply(s, Push))
    ensures var t := Apply(s, Push);
      forall q :: (q in t.queue || InHand(t, q) <==> q in s.queue || InHand(s, q)) && (HeldByThread(t, q) <==> HeldByThread(s, q))
  {
    hide PhaseOk, UnclaimedOk, CommandOk, KnownOk, LooseOk;
    var t, rest := Apply(s, Push), s.command.rest;
    assert rest == [rest[0]] + rest[1..];
    assert InHand(s, rest[0]);
    forall k | 1 <= k < |rest|
      ensures InHand(s, rest[k]) && rest[k] != rest[0]
    {
    }
    assert rest[0] !in rest[1..];
    assert rest[0] !in s.queue && s.queue[rest[0]] == 0;
    forall q | InHand(t, q)
      ensures InHand(s, q) && q != rest[0]
    {
    }
    assert forall j, q :: 0 <= j < |s.threads| && Holds(s.threads[j], q) ==> q != rest[0];
    assert forall q :: HeldByThread(t, q) <==> HeldByThread(s, q);
  }

  lemma OpenKeeps(s: State, n: nat)
    requires Inv(s) && Enabled(s, Open(n))
    ensures Inv(Apply(s, Open(n)))
  {
    hide CommandOk;
    var t, ids := Apply(s, Open(n)), NewIds(s.nextId, n);
    IdsAre(s.nextId, n);
    OpenPlaces(s, n);
    forall j | 0 <= j < |t.threads|
      ensures PhaseOk(t, j)
    {
      assert PhaseOk(s, j);
      ReqHeld(s.threads[j]);
      assert KnownOk(s, ReqOf(s.threads[j]));
    }
    hide PhaseOk, Separate;
    forall q
      ensures KnownOk(t, q)
      ensures LooseOk(t, q)
    {
      assert KnownOk(s, q) && LooseOk(s, q);
    }
    assert CommandOk(t) by {
      OpenCommand(s, n);
    }
  }

  lemma OpenCommand(s: State, n: nat)
    requires Enabled(s, Open(n)) && CommandOk(s)
    ensures CommandOk(Apply(s, Open(n)))
  {
  }

  lemma OpenPlaces(s: State, n: nat)
    requires Inv(s) && Enabled(s, Open(n))
    ensures Separate(Apply(s, Open(n)))
    ensures var t := Apply(s, Open(n));
      forall q :: (HeldByThread(t, q) <==> HeldByThread(s, q)) && (InHand(t, q) <==> s.nextId <= q < s.nextId + n)
  {
    var t, ids := Apply(s, Open(n)), NewIds(s.nextId, n);
    IdsAre(s.nextId, n);
    forall q | s.nextId <= q
      ensures q !in s.queue && !HeldByThread(s, q)
    {
      if q in s.queue || HeldByThread(s, q) {
        OldRequests(s, q);
      }
    }
    hide PhaseOk, UnclaimedOk, CommandOk, KnownOk, LooseOk;
    assert forall j, q :: 0 <= j < |s.threads| && Holds(s.threads[j], q) ==> HeldByThread(s, q);
    assert forall q :: HeldByThread(t, q) <==> HeldByThread(s, q);
  }

  /** Requests in use have ids that were given out. */
  lemma OldRequests(s: State, q: int)
    requires Inv(s) && (q in s.queue || HeldByThread(s, q))
    ensures 0 <= q < s.nextId
  {
    hide Separate, CommandOk, Somewhere;
    assert KnownOk(s, q) && LooseOk(s, q);
    if q !in s.queue {
      var j :| 0 <= j < |s.threads| && Holds(s.threads[j], q);
      assert PhaseOk(s, j);
    }
  }

  lemma StepKeepsInv(s: State, e: Step)
    requires Inv(s) && Enabled(s, e)
    ensures Inv(Apply(s, e))
  {
    hide *;
    match e
    case Open(n) => OpenKeeps(s, n);
    case Push => PushKeeps(s);
    case Terminate(which) => IdleKeeps(s, e);
    case TerminateOne(r) => TerminateOneKeeps(s, r);
    case Answer => AnswerKeeps(s);
    case StopBot => StopBotKeeps(s);
    case EndTerminate => IdleKeeps(s, e);
    case EndOfInput(quit) => IdleKeeps(s, e);
    case Interrupt(i) => IdleKeeps(s, e);
    case Pop(i, r) => PopKeeps(s, i, r);
    case Claim(i) => SearchKeeps(s, e, i);
    case Begin(i) => SearchKeeps(s, e, i);
    case Interim(i) => SearchKeeps(s, e, i);
    case Return(i, hasOutput) => SearchKeeps(s, e, i);
    case Report(i) => FinishKeeps(s, e, i);
    case Recheck(i) => FinishKeeps(s, e, i);
    case Erase(i) => FinishKeeps(s, e, i);
    case Delete(i) => DeleteKeeps(s, i);
    case Exit(i) => ExitKeeps(s, i);
  }

  // ----- every interleaving

  /** A run of the engine: any interleaving of the steps of all threads. */
  ghost predicate Run(states: seq<State>, steps: seq<Step>)
  {
    && |states| == |steps| + 1 && Init(states[0])
    && forall k :: 0 <= k < |steps| ==> Enabled(states[k], steps[k]) && states[k + 1] == Apply(states[k], steps[k])
  }

  lemma {:induction false} RunKeepsInv(states: seq<State>, steps: seq<Step>, k: nat)
    requires Run(states, steps) && k < |states|
    ensures Inv(states[k])
  {
    hide Inv, Init, Enabled, Apply;
    if k == 0 {
      InitInv(states[0]);
    } else {
      RunKeepsInv(states, steps, k - 1);
      StepKeepsInv(states[k - 1], steps[k - 1]);
    }
  }

  /** No step of any run touches a deleted request. */
  lemma NoUseAfterDelete(states: seq<State>, steps: seq<Step>, k: nat)
    requires Run(states, steps) && k < |steps|
    ensures Touched(states[k], steps[k]) <= states[k].requests.Keys
  {
    RunKeepsInv(states, steps, k);
    TouchedIsAllocated(states[k], steps[k]);
  }

  lemma TouchedIsAllocated(s: State, e: Step)
    requires Inv(s) && Enabled(s, e)
    ensures Touched(s, e) <= s.requests.Keys
  {
    hide Separate, LooseOk;
    match e
    case TerminateOne(r) => assert KnownOk(s, r);
    case Claim(i) => assert PhaseOk(s, i);
    case Begin(i) => assert PhaseOk(s, i);
    case Interim(i) => assert PhaseOk(s, i);
    case Report(i) => assert PhaseOk(s, i);
    case Recheck(i) => assert PhaseOk(s, i);
    case Erase(i) => assert PhaseOk(s, i);
    case Delete(i) => assert PhaseOk(s, i);
    case _ =>
  }

  /** A terminate command stops a bot only while its thread is still on the request being terminated. */
  lemma StopHitsItsRequest(states: seq<State>, steps: seq<Step>, k: nat)
    requires Run(states, steps) && k < |steps| && steps[k] == StopBot
    ensures var s := states[k];
      && At(s, s.command.thread) && Holds(s.threads[s.command.thread], s.command.req)
      && s.command.req in s.open && Status(s, s.command.req) == TERMINATED
  {
    hide Separate, LooseOk, KnownOk, PhaseOk;
    RunKeepsInv(states, steps, k);
  }

  /** No request ever gets two final reports. */
  lemma AtMostOneFinalReport(states: seq<State>, steps: seq<Step>, k: nat, r: int)
    requires Run(states, steps) && k < |states|
    ensures states[k].finals[r] <= 1
  {
    hide Separate, LooseOk, PhaseOk, CommandOk;
    RunKeepsInv(states, steps, k);
    assert KnownOk(states[k], r);
  }

  /** Outside a shutdown without waiting, every request that has left the system had exactly one final report. */
  lemma ExactlyOneFinalReport(states: seq<State>, steps: seq<Step>, k: nat, r: int)
    requires Run(states, steps) && k < |states| && !states[k].quitting
    requires 0 <= r < states[k].nextId && r !in states[k].requests
    ensures states[k].finals[r] == 1
  {
    hide Separate, LooseOk, PhaseOk, CommandOk;
    RunKeepsInv(states, steps, k);
    assert KnownOk(states[k], r);
  }

  /** The assertions of the analysis loop and of the terminate command hold: a claim or the start of a
      search can only lose against a termination, and a status that is none of the codes is the index of
      a thread. */
  lemma AssertionsHold(states: seq<State>, steps: seq<Step>, k: nat)
    requires Run(states, steps) && k < |steps|
    ensures var s := states[k];
      match steps[k]
      case Claim(i) => Status(s, s.threads[i].req) in {IN_QUEUE, TERMINATED}
      case Begin(i) => Status(s, s.threads[i].req) in {POPPED, TERMINATED}
      case TerminateOne(r) => Status(s, r) in {TERMINATED, IN_QUEUE, POPPED} || At(s, Status(s, r))
      case _ => true
  {
    hide Separate, LooseOk;
    var s := states[k];
    RunKeepsInv(states, steps, k);
    match steps[k]
    case Claim(i) => assert PhaseOk(s, i);
    case Begin(i) => assert PhaseOk(s, i);
    case TerminateOne(r) => TerminatedStatus(s, r);
    case _ =>
  }

  lemma TerminatedStatus(s: State, r: int)
    requires Inv(s) && Enabled(s, TerminateOne(r))
    ensures Status(s, r) in {TERMINATED, IN_QUEUE, POPPED} || At(s, Status(s, r))
  {
    assert CommandOk(s);
    hide Inv, Separate, KnownOk, LooseOk;
    var i := OpenRequest(s, r);
  }

  /** While quitting is not requested, a search that ends without output was stopped for its own request. */
  lemma NoOutputMeansTerminated(states: seq<State>, steps: seq<Step>, k: nat, i: int)
    requires Run(states, steps) && k < |steps| && steps[k] == Recheck(i) && !states[k].quitting
    ensures Status(states[k], states[k].threads[i].req) == TERMINATED
  {
    hide Separate, LooseOk, KnownOk, CommandOk;
    RunKeepsInv(states, steps, k);
    assert PhaseOk(states[k], i);
  }

  // ----- nothing gets stuck

  /** Threads leave only when nothing can come any more. */
  ghost predicate ExitsOk(s: State)
  {
    forall i :: 0 <= i < |s.threads| && s.threads[i] == Exited ==> s.command == Ended && s.queue == multiset{}
  }

  lemma StepKeepsExits(s: State, e: Step)
    requires ExitsOk(s) && Enabled(s, e)
    ensures ExitsOk(Apply(s, e))
  {
    var t := Apply(s, e);
    forall i | 0 <= i < |t.threads| && t.threads[i] == Exited
      ensures t.command == Ended && t.queue == multiset{}
    {
      ExitedBefore(s, e, i);
      EndedStays(s, e);
    }
  }

  lemma ExitedBefore(s: State, e: Step, i: int)
    requires Enabled(s, e) && 0 <= i < |Apply(s, e).threads| && Apply(s, e).threads[i] == Exited
    ensures e == Exit(i) || (i < |s.threads| && s.threads[i] == Exited)
  {
    hide Enabled, Apply;
    OnlyActorMoves(s, e);
    if i == Actor(e) && e == Interim(i) {
      InterimNothing(s, i);
    } else if i == Actor(e) && !e.Exit? {
      ActorStays(s, e);
    }
  }

  lemma InterimNothing(s: State, i: int)
    requires Enabled(s, Interim(i))
    ensures Apply(s, Interim(i)) == s
  {
  }

  /** The analysis thread that takes the step, if one does. */
  function Actor(e: Step): int
  {
    match e
    case Pop(i, _) => i
    case Claim(i) => i
    case Begin(i) => i
    case Interim(i) => i
    case Return(i, _) => i
    case Report(i) => i
    case Recheck(i) => i
    case Erase(i) => i
    case Delete(i) => i
    case Exit(i) => i
    case _ => -1
  }

  lemma OnlyActorMoves(s: State, e: Step)
    requires Enabled(s, e)
    ensures |Apply(s, e).threads| == |s.threads|
    ensures forall k :: 0 <= k < |s.threads| && k != Actor(e) ==> Apply(s, e).threads[k] == s.threads[k]
  {
    hide Status, NewIds;
  }

  lemma ActorStays(s: State, e: Step)
    requires Enabled(s, e) && Actor(e) >= 0 && !e.Exit? && e != Interim(Actor(e))
    ensures Actor(e) < |Apply(s, e).threads| && Apply(s, e).threads[Actor(e)] != Exited
  {
    hide Status, NewIds;
  }

  lemma EndedStays(s: State, e: Step)
    requires Enabled(s, e) && s.command == Ended && s.queue == multiset{}
    ensures Apply(s, e).command == Ended && Apply(s, e).queue == multiset{}
  {
    hide Status, NewIds;
  }

  lemma {:induction false} RunKeepsExits(states: seq<State>, steps: seq<Step>, k: nat)
    requires Run(states, steps) && k < |states|
    ensures ExitsOk(states[k])
  {
    hide Enabled, Apply;
    if k > 0 {
      RunKeepsExits(states, steps, k - 1);
      StepKeepsExits(states[k - 1], steps[k - 1]);
    }
  }

  /** A step that carries some request, or a terminate command, on its way. */
  predicate Advances(e: Step)
  {
    !e.Open? && !e.Terminate? && !e.EndOfInput? && !e.Interrupt? && !e.Interim? && !e.Exit?
  }

  lemma ThreadAdvances(s: State, i: int) returns (e: Step)
    requires At(s, i) && s.threads[i] != Waiting && s.threads[i] != Exited && !Locked(s)
    ensures Enabled(s, e) && Advances(e)
  {
    match s.threads[i]
    case Claiming(r) => e := Claim(i);
    case Preparing(r) => e := Begin(i);
    case Searching(r) => e := Return(i, true);
    case Reporting(r, hasOutput) => e := Report(i);
    case Unreported(r) => e := Recheck(i);
    case Closing(r) => e := Erase(i);
    case Deleting(r) => e := Delete(i);
  }

  lemma CommandAdvances(s: State) returns (e: Step)
    requires Locked(s) || (s.command.Pushing? && |s.command.rest| > 0)
    ensures Enabled(s, e) && Advances(e)
  {
    match s.command
    case Pushing(rest) => e := Push;
    case Scanning(todo) =>
      if todo == {} {
        e := EndTerminate;
      } else {
        var r := SomeMember(todo);
        e := TerminateOne(r);
      }
    case Answering(todo, r) => e := Answer;
    case Stopping(todo, i, r) => e := StopBot;
  }

  /** As long as a request is in the system, some thread can carry one on. */
  lemma NeverStuck(states: seq<State>, steps: seq<Step>, k: nat, r: int) returns (e: Step)
    requires Run(states, steps) && k < |states| && r in states[k].requests && |states[k].threads| > 0
    ensures Enabled(states[k], e) && Advances(e)
  {
    hide Enabled, Advances, Run, Init, Apply;
    var s := states[k];
    RunKeepsInv(states, steps, k);
    RunKeepsExits(states, steps, k);
    RequestSomewhere(s, r);
    hide Inv;
    if Locked(s) || InHand(s, r) {
      e := CommandAdvances(s);
    } else if i :| 0 <= i < |s.threads| && s.threads[i] != Waiting && s.threads[i] != Exited {
      e := ThreadAdvances(s, i);
    } else {
      assert s.threads[0] == Waiting && r in s.queue;
      e := Pop(0, r);
      PopEnabled(s, r);
    }
  }

  lemma RequestSomewhere(s: State, r: int)
    requires Inv(s) && r in s.requests
    ensures |s.stop| == |s.threads| && Somewhere(s, r)
  {
    hide Separate, LooseOk, PhaseOk, CommandOk;
    assert KnownOk(s, r);
  }

  lemma PopEnabled(s: State, r: int)
    requires At(s, 0) && s.threads[0] == Waiting && r in s.queue
    ensures Enabled(s, Pop(0, r)) && Advances(Pop(0, r))
  {
  }
}
