/** Automatic matches: game threads that share one pairer and one net manager. Each step of the machine is
    one critical section under the manager's lock, or an action of the one thread that holds the pairer's. */
module MatchRuns {
  import opened Grid
  import opened NetOwnership

  datatype Matchup = Matchup(forBot: nat, b0: nat, b1: nat)

  /** Where a game thread is in its loop. */
  datatype Phase =
    | Idle
    | Choosing(left: nat)                              // generating matchups, so many picks to go
    | HalfReserved(left: nat, best: nat, other: nat)   // games of the first bot's net are registered
    | FullyReserved(left: nat, best: nat, other: nat)  // and those of the second bot's
    | Starting(m: Matchup)                             // took a matchup, has started neither net
    | HalfStarted(m: Matchup, idB: nat)                // has started black's net
    | Playing(m: Matchup, idB: nat, idW: nat)
    | HalfFinished(m: Matchup, idW: nat)               // has finished black's net
    | Gone

  /** The bots' files, how many games each pick schedules, and the shared state. */
  datatype State = State(
    files: seq<string>,
    rep: nat,
    nets: Nets,
    nextId: nat,
    nextMatchups: seq<Matchup>,
    threads: seq<Phase>
  )

  const PICKS := 10

  datatype Step =
    | Enter(i: int) | Pick(i: int, best: nat, other: nat) | SkipPick(i: int) | ReserveOther(i: int) | Push(i: int, blackFirst: seq<bool>)
    | Take(i: int) | StartBlack(i: int) | StartWhite(i: int) | FinishBlack(i: int) | FinishWhite(i: int) | Leave(i: int)

  /** The thread holds the pairer's lock. */
  predicate Pairing(p: Phase)
  {
    p.Choosing? || p.HalfReserved? || p.FullyReserved? || p.Starting? || p.HalfStarted?
  }

  predicate Unpaired(s: State)
  {
    forall j :: 0 <= j < |s.threads| ==> !Pairing(s.threads[j])
  }

  predicate Init(s: State)
  {
    && s.rep > 0 && s.nets == map[] && s.nextMatchups == []
    && forall i :: 0 <= i < |s.threads| ==> s.threads[i] == Idle
  }

  predicate Enabled(s: State, e: Step)
  {
    && 0 <= e.i < |s.threads|
    && match e
      case Enter(i) => s.threads[i] == Idle && Unpaired(s)
      case Pick(i, best, other) => s.threads[i].Choosing? && s.threads[i].left > 0 && best < |s.files| && other < |s.files| && best != other
      case SkipPick(i) => s.threads[i].Choosing? && s.threads[i].left > 0
      case ReserveOther(i) => s.threads[i].HalfReserved?
      case Push(i, blackFirst) => s.threads[i].FullyReserved? && |blackFirst| == s.rep
      case Take(i) => s.threads[i] == Choosing(0) && s.nextMatchups != []
      case StartBlack(i) => s.threads[i].Starting?
      case StartWhite(i) => s.threads[i].HalfStarted?
      case FinishBlack(i) => s.threads[i].Playing?
      case FinishWhite(i) => s.threads[i].HalfFinished?
      case Leave(i) => s.threads[i] == Idle
  }

  function FileOf(s: State, b: nat): string
  {
    if b < |s.files| then s.files[b] else ""
  }

  /** The file whose net the step looks up in the manager. */
  function Wanted(s: State, e: Step): Option<string>
    requires Enabled(s, e)
  {
    match e
    case StartBlack(i) => Some(FileOf(s, s.threads[i].m.b0))
    case StartWhite(i) => Some(FileOf(s, s.threads[i].m.b1))
    case FinishBlack(i) => Some(FileOf(s, s.threads[i].m.b0))
    case FinishWhite(i) => Some(FileOf(s, s.threads[i].m.b1))
    case _ => None
  }

  /** The scheduled games of one pick, with colours as drawn. */
  function Scheduled(best: nat, other: nat, blackFirst: seq<bool>): (r: seq<Matchup>)
    ensures |r| == |blackFirst|
    ensures forall j :: 0 <= j < |r| ==> r[j].forBot == best && {r[j].b0, r[j].b1} == {best, other}
    ensures forall j :: 0 <= j < |r| && best != other ==> (r[j].b0 == best <==> blackFirst[j])
  {
    seq(|blackFirst|, j requires 0 <= j < |blackFirst| =>
      if blackFirst[j] then Matchup(best, best, other) else Matchup(best, other, best))
  }

  function Goto(s: State, i: int, p: Phase): State
    requires 0 <= i < |s.threads|
  {
    s.(threads := s.threads[i := p])
  }

  /** Take the last matchup. */
  function Popped(s: State, i: int): State
    requires 0 <= i < |s.threads| && s.nextMatchups != []
  {
    var n := |s.nextMatchups| - 1;
    Goto(s, i, Starting(s.nextMatchups[n])).(nextMatchups := s.nextMatchups[..n])
  }

  function Preregister(s: State, file: string): State
  {
    s.(nets := Preregistered(s.nets, file, s.rep, s.nextId), nextId := if file in s.nets then s.nextId else s.nextId + 1)
  }

  function Apply(s: State, e: Step): State
    requires Enabled(s, e) && (Wanted(s, e).Some? ==> Wanted(s, e).value in s.nets)
  {
    match e
    case Enter(i) => if s.nextMatchups == [] then Goto(s, i, Choosing(PICKS)) else Popped(s, i)
    case Pick(i, best, other) => Preregister(Goto(s, i, HalfReserved(s.threads[i].left - 1, best, other)), FileOf(s, best))
    case SkipPick(i) => Goto(s, i, Choosing(s.threads[i].left - 1))
    case ReserveOther(i) =>
      var HalfReserved(left, best, other) := s.threads[i];
      Preregister(Goto(s, i, FullyReserved(left, best, other)), FileOf(s, other))
    case Push(i, blackFirst) =>
      var FullyReserved(left, best, other) := s.threads[i];
      Goto(s, i, Choosing(left)).(nextMatchups := s.nextMatchups + Scheduled(best, other, blackFirst))
    case Take(i) => Popped(s, i)
    case StartBlack(i) =>
      var m := s.threads[i].m;
      Goto(s, i, HalfStarted(m, s.nets[FileOf(s, m.b0)].id)).(nets := Started(s.nets, FileOf(s, m.b0)))
    case StartWhite(i) =>
      var HalfStarted(m, idB) := s.threads[i];
      Goto(s, i, Playing(m, idB, s.nets[FileOf(s, m.b1)].id)).(nets := Started(s.nets, FileOf(s, m.b1)))
    case FinishBlack(i) =>
      var Playing(m, idB, idW) := s.threads[i];
      Goto(s, i, HalfFinished(m, idW)).(nets := Finished(s.nets, FileOf(s, m.b0)))
    case FinishWhite(i) => Goto(s, i, Idle).(nets := Finished(s.nets, FileOf(s, s.threads[i].m.b1)))
    case Leave(i) => Goto(s, i, Gone)
  }

  // ----- who uses a file

  function If(b: bool, n: nat): nat { if b then n else 0 }

  function BothUse(s: State, m: Matchup, f: string): nat
  {
    If(FileOf(s, m.b0) == f, 1) + If(FileOf(s, m.b1) == f, 1)
  }

  /** The uses of f that are going on in a thread. */
  function ActiveIn(s: State, p: Phase, f: string): nat
  {
    match p
    case HalfStarted(m, _) => If(FileOf(s, m.b0) == f, 1)
    case Playing(m, _, _) => BothUse(s, m, f)
    case HalfFinished(m, _) => If(FileOf(s, m.b1) == f, 1)
    case _ => 0
  }

  /** The uses of f that a thread has scheduled or taken and not started. */
  function PendingIn(s: State, p: Phase, f: string): nat
  {
    match p
    case HalfReserved(_, best, _) => If(FileOf(s, best) == f, s.rep)
    case FullyReserved(_, best, other) => If(FileOf(s, best) == f, s.rep) + If(FileOf(s, other) == f, s.rep)
    case Starting(m) => BothUse(s, m, f)
    case HalfStarted(m, _) => If(FileOf(s, m.b1) == f, 1)
    case _ => 0
  }

  ghost function Active(s: State, threads: seq<Phase>, f: string): nat
  {
    if threads == [] then 0 else Active(s, threads[1..], f) + ActiveIn(s, threads[0], f)
  }

  ghost function Pending(s: State, threads: seq<Phase>, f: string): nat
  {
    if threads == [] then 0 else Pending(s, threads[1..], f) + PendingIn(s, threads[0], f)
  }

  /** The uses of f in the matchups waiting to be taken. */
  ghost function Queued(s: State, ms: seq<Matchup>, f: string): nat
  {
    if ms == [] then 0 else Queued(s, ms[..|ms| - 1], f) + BothUse(s, ms[|ms| - 1], f)
  }

  /** All uses of f that are scheduled and have not been started. */
  ghost function Waiting(s: State, f: string): nat
  {
    Pending(s, s.threads, f) + Queued(s, s.nextMatchups, f)
  }

  /** The counters of f's net are exact, and it is loaded exactly while it is in use or scheduled. */
  ghost predicate Conserved(s: State, f: string)
  {
    if f in s.nets then
      && s.nets[f].active == Active(s, s.threads, f)
      && s.nets[f].total == s.nets[f].completed + s.nets[f].active + Waiting(s, f)
      && s.nets[f].active + Waiting(s, f) > 0
    else Active(s, s.threads, f) == 0 && Waiting(s, f) == 0
  }

  predicate Loaded(s: State, f: string, id: nat)
  {
    f in s.nets && s.nets[f].id == id
  }

  /** The nets a thread plays with are the loaded ones. */
  predicate NetsOk(s: State, p: Phase)
  {
    match p
    case HalfStarted(m, idB) => Loaded(s, FileOf(s, m.b0), idB)
    case Playing(m, idB, idW) => Loaded(s, FileOf(s, m.b0), idB) && Loaded(s, FileOf(s, m.b1), idW)
    case HalfFinished(m, idW) => Loaded(s, FileOf(s, m.b1), idW)
    case _ => true
  }

  ghost predicate Inv(s: State)
  {
    && s.rep > 0 && (forall f :: Conserved(s, f))
    && (forall i :: 0 <= i < |s.threads| ==> NetsOk(s, s.threads[i]))
  }

  // ----- sums

  lemma {:induction false} ActiveUpdate(s: State, threads: seq<Phase>, i: int, p: Phase, f: string)
    requires 0 <= i < |threads|
    ensures Active(s, threads[i := p], f) == Active(s, threads, f) - ActiveIn(s, threads[i], f) + ActiveIn(s, p, f)
  {
    if i == 0 {
      assert threads[i := p][1..] == threads[1..];
    } else {
      ActiveUpdate(s, threads[1..], i - 1, p, f);
      assert threads[i := p][1..] == threads[1..][i - 1 := p];
    }
  }

  lemma {:induction false} PendingUpdate(s: State, threads: seq<Phase>, i: int, p: Phase, f: string)
    requires 0 <= i < |threads|
    ensures Pending(s, threads[i := p], f) == Pending(s, threads, f) - PendingIn(s, threads[i], f) + PendingIn(s, p, f)
  {
    if i == 0 {
      assert threads[i := p][1..] == threads[1..];
    } else {
      PendingUpdate(s, threads[1..], i - 1, p, f);
      assert threads[i := p][1..] == threads[1..][i - 1 := p];
    }
  }

  /** The sums depend on the files and the number of games per pick only. */
  lemma {:induction false} SumsSame(s: State, t: State, threads: seq<Phase>, f: string)
    requires t.files == s.files && t.rep == s.rep
    ensures Active(t, threads, f) == Active(s, threads, f) && Pending(t, threads, f) == Pending(s, threads, f)
  {
    if threads != [] {
      SumsSame(s, t, threads[1..], f);
    }
  }

  lemma {:induction false} QueuedSame(s: State, t: State, ms: seq<Matchup>, f: string)
    requires t.files == s.files
    ensures Queued(t, ms, f) == Queued(s, ms, f)
  {
    if ms != [] {
      QueuedSame(s, t, ms[..|ms| - 1], f);
    }
  }

  lemma {:induction false} QueuedScheduled(s: State, ms: seq<Matchup>, best: nat, other: nat, blackFirst: seq<bool>,
          f: string)
    ensures Queued(s, ms + Scheduled(best, other, blackFirst), f) ==
      Queued(s, ms, f) + If(FileOf(s, best) == f, |blackFirst|) + If(FileOf(s, other) == f, |blackFirst|)
  {
    hide Queued;
    var n := |blackFirst| - 1;
    if n < 0 {
      assert ms + Scheduled(best, other, blackFirst) == ms;
    } else {
      QueuedScheduled(s, ms, best, other, blackFirst[..n], f);
      var m := ScheduledLast(s, ms, best, other, blackFirst, f);
      QueuedSnoc(s, ms + Scheduled(best, other, blackFirst[..n]), m, f);
    }
  }

  lemma ScheduledLast(s: State, ms: seq<Matchup>, best: nat, other: nat, blackFirst: seq<bool>,
          f: string) returns (m: Matchup)
    requires blackFirst != []
    ensures ms + Scheduled(best, other, blackFirst) == ms + Scheduled(best, other, blackFirst[..|blackFirst| - 1]) + [m]
    ensures BothUse(s, m, f) == If(FileOf(s, best) == f, 1) + If(FileOf(s, other) == f, 1)
  {
    var n := |blackFirst| - 1;
    m := Scheduled(best, other, blackFirst)[n];
  }

  lemma QueuedSnoc(s: State, ms: seq<Matchup>, m: Matchup, f: string)
    ensures Queued(s, ms + [m], f) == Queued(s, ms, f) + BothUse(s, m, f)
  {
    assert (ms + [m])[..|ms + [m]| - 1] == ms;
  }

  /** What a step of thread i does to the sums. */
  lemma Sums(s: State, t: State, i: int, p: Phase, f: string)
    requires 0 <= i < |s.threads| && t.files == s.files && t.rep == s.rep && t.threads == s.threads[i := p]
    ensures Active(t, t.threads, f) == Active(s, s.threads, f) - ActiveIn(s, s.threads[i], f) + ActiveIn(s, p, f)
    ensures Pending(t, t.threads, f) == Pending(s, s.threads, f) - PendingIn(s, s.threads[i], f) + PendingIn(s, p, f)
  {
    hide ActiveIn, PendingIn;
    SumsSame(s, t, t.threads, f);
    ActiveUpdate(s, s.threads, i, p, f);
    PendingUpdate(s, s.threads, i, p, f);
  }

  // ----- conservation, step by step

  /** Thread i moves on without touching the nets or the number of scheduled games. */
  lemma MoveConserves(s: State, t: State, i: int, p: Phase, f: string)
    requires Conserved(s, f) && 0 <= i < |s.threads| && t.files == s.files && t.rep == s.rep && t.nets == s.nets
    requires t.threads == s.threads[i := p]
    requires ActiveIn(s, p, f) == ActiveIn(s, s.threads[i], f)
    requires PendingIn(s, p, f) + Queued(t, t.nextMatchups, f) == PendingIn(s, s.threads[i], f) + Queued(s, s.nextMatchups, f)
    ensures Conserved(t, f)
  {
    hide ActiveIn, PendingIn;
    Sums(s, t, i, p, f);
  }

  /** Thread i registers games of one file. */
  lemma PreregisterConserves(s: State, t: State, i: int, p: Phase, file: string, f: string)
    requires Conserved(s, f) && 0 <= i < |s.threads| && t.files == s.files
    requires t.rep == s.rep > 0 && t.nextMatchups == s.nextMatchups
    requires t.threads == s.threads[i := p] && t.nets == Preregistered(s.nets, file, s.rep, s.nextId)
    requires ActiveIn(s, p, f) == ActiveIn(s, s.threads[i], f)
    requires PendingIn(s, p, f) == PendingIn(s, s.threads[i], f) + If(file == f, s.rep)
    ensures Conserved(t, f)
  {
    hide ActiveIn, PendingIn;
    Sums(s, t, i, p, f);
    QueuedSame(s, t, s.nextMatchups, f);
  }

  /** Thread i starts a use of a file's net. */
  lemma StartConserves(s: State, t: State, i: int, p: Phase, file: string, f: string)
    requires Conserved(s, f) && 0 <= i < |s.threads| && t.files == s.files
    requires t.rep == s.rep && t.nextMatchups == s.nextMatchups
    requires file in s.nets && t.threads == s.threads[i := p] && t.nets == Started(s.nets, file)
    requires ActiveIn(s, p, f) == ActiveIn(s, s.threads[i], f) + If(file == f, 1)
    requires PendingIn(s, p, f) + If(file == f, 1) == PendingIn(s, s.threads[i], f)
    ensures Conserved(t, f)
  {
    hide ActiveIn, PendingIn;
    Sums(s, t, i, p, f);
    QueuedSame(s, t, s.nextMatchups, f);
  }

  /** Thread i finishes a use of a file's net, which may delete it. */
  lemma FinishConserves(s: State, t: State, i: int, p: Phase, file: string, f: string)
    requires Conserved(s, f) && 0 <= i < |s.threads| && t.files == s.files
    requires t.rep == s.rep && t.nextMatchups == s.nextMatchups
    requires file in s.nets && t.threads == s.threads[i := p] && t.nets == Finished(s.nets, file)
    requires ActiveIn(s, p, f) + If(file == f, 1) == ActiveIn(s, s.threads[i], f)
    requires PendingIn(s, p, f) == PendingIn(s, s.threads[i], f)
    ensures Conserved(t, f)
  {
    hide ActiveIn, PendingIn;
    Sums(s, t, i, p, f);
    QueuedSame(s, t, s.nextMatchups, f);
  }

  /** A net that a step looks up is loaded, and if it is being finished it has a use going on. */
  lemma WantedIsLoaded(s: State, e: Step)
    requires Inv(s) && Enabled(s, e) && Wanted(s, e).Some?
    ensures Wanted(s, e).value in s.nets
    ensures e.FinishBlack? || e.FinishWhite? ==>
      s.nets[Wanted(s, e).value].active >= 1 && s.nets[Wanted(s, e).value].completed + s.nets[Wanted(s, e).value].active <= s.nets[Wanted(s, e).value].total
  {
    hide Waiting;
    var f, i := Wanted(s, e).value, e.i;
    assert Conserved(s, f);
    PendingBelow(s, s.threads, i, f);
    WaitingAtLeast(s, f);
  }

  lemma PendingBelow(s: State, threads: seq<Phase>, i: int, f: string)
    requires 0 <= i < |threads|
    ensures PendingIn(s, threads[i], f) <= Pending(s, threads, f) && ActiveIn(s, threads[i], f) <= Active(s, threads, f)
  {
    PendingUpdate(s, threads, i, Idle, f);
    ActiveUpdate(s, threads, i, Idle, f);
  }

  lemma WaitingAtLeast(s: State, f: string)
    ensures Waiting(s, f) >= Pending(s, s.threads, f)
  {
  }

  lemma PoppedConserves(s: State, i: int, f: string)
    requires Conserved(s, f) && 0 <= i < |s.threads| && s.nextMatchups != []
    requires s.threads[i] == Idle || s.threads[i] == Choosing(0)
    ensures Conserved(Popped(s, i), f)
  {
    var n := |s.nextMatchups| - 1;
    QueuedSame(s, Popped(s, i), s.nextMatchups[..n], f);
    MoveConserves(s, Popped(s, i), i, Starting(s.nextMatchups[n]), f);
  }

  predicate Schedules(e: Step)
  {
    e.Enter? || e.Pick? || e.SkipPick? || e.ReserveOther? || e.Push? || e.Take?
  }

  lemma ScheduleConserves(s: State, e: Step, f: string)
    requires Inv(s) && Enabled(s, e) && Schedules(e)
    ensures Conserved(Apply(s, e), f)
  {
    var t, i := Apply(s, e), e.i;
    var p := t.threads[i];
    assert Conserved(s, f) && s.rep > 0;
    hide Conserved, Active, Pending, Preregistered, Started, Finished;
    QueuedSame(s, t, t.nextMatchups, f);
    match e
    case Enter(_) =>
      if s.nextMatchups == [] {
        MoveConserves(s, t, i, p, f);
      } else {
        PoppedConserves(s, i, f);
      }
    case Pick(_, best, other) => PreregisterConserves(s, t, i, p, FileOf(s, best), f);
    case SkipPick(_) => MoveConserves(s, t, i, p, f);
    case ReserveOther(_) => PreregisterConserves(s, t, i, p, FileOf(s, s.threads[i].other), f);
    case Push(_, blackFirst) =>
      QueuedScheduled(s, s.nextMatchups, s.threads[i].best, s.threads[i].other, blackFirst, f);
      MoveConserves(s, t, i, p, f);
    case Take(_) => PoppedConserves(s, i, f);
  }

  lemma GameConserves(s: State, e: Step, f: string)
    requires Inv(s) && Enabled(s, e) && !Schedules(e) && (Wanted(s, e).Some? ==> Wanted(s, e).value in s.nets)
    ensures Conserved(Apply(s, e), f)
  {
    var t, i := Apply(s, e), e.i;
    var p := t.threads[i];
    assert Conserved(s, f) && s.rep > 0;
    hide Conserved, Active, Pending, Preregistered, Started, Finished;
    match e
    case StartBlack(_) => StartConserves(s, t, i, p, FileOf(s, s.threads[i].m.b0), f);
    case StartWhite(_) => StartConserves(s, t, i, p, FileOf(s, s.threads[i].m.b1), f);
    case FinishBlack(_) => FinishConserves(s, t, i, p, FileOf(s, s.threads[i].m.b0), f);
    case FinishWhite(_) => FinishConserves(s, t, i, p, FileOf(s, s.threads[i].m.b1), f);
    case Leave(_) =>
      QueuedSame(s, t, s.nextMatchups, f);
      MoveConserves(s, t, i, p, f);
  }

  lemma StepConserves(s: State, e: Step, f: string)
    requires Inv(s) && Enabled(s, e) && (Wanted(s, e).Some? ==> Wanted(s, e).value in s.nets)
    ensures Conserved(Apply(s, e), f)
  {
    hide Inv, Conserved, Apply;
    if Schedules(e) {
      ScheduleConserves(s, e, f);
    } else {
      GameConserves(s, e, f);
    }
  }

  // ----- the nets in use stay loaded

  lemma IdsKept(s: State, e: Step, f: string)
    requires Enabled(s, e) && (Wanted(s, e).Some? ==> Wanted(s, e).value in s.nets)
    requires f in s.nets && f in Apply(s, e).nets
    ensures Apply(s, e).nets[f].id == s.nets[f].id
  {
  }

  /** A net that thread j uses after the step, and was loaded before it, still is. */
  lemma InUseStaysLoaded(s: State, e: Step, j: int, f: string, id: nat)
    requires Enabled(s, e) && (Wanted(s, e).Some? ==> Wanted(s, e).value in s.nets)
    requires Conserved(Apply(s, e), f) && Loaded(s, f, id)
    requires 0 <= j < |Apply(s, e).threads| && ActiveIn(Apply(s, e), Apply(s, e).threads[j], f) >= 1
    ensures Loaded(Apply(s, e), f, id)
  {
    hide Waiting, Apply;
    var t := Apply(s, e);
    PendingBelow(t, t.threads, j, f);
    IdsKept(s, e, f);
  }

  /** The nets a thread holds after the step were loaded before it. */
  lemma NetsBefore(s: State, e: Step, j: int)
    requires Enabled(s, e) && (Wanted(s, e).Some? ==> Wanted(s, e).value in s.nets)
    requires 0 <= j < |s.threads| && NetsOk(s, s.threads[j])
    ensures var t := Apply(s, e);
      |t.threads| == |s.threads| && t.files == s.files && NetsOk(s, t.threads[j])
  {
    hide Preregistered, Started, Finished, Scheduled;
  }

  lemma ActiveOf(s: State, p: Phase)
    ensures p.HalfStarted? ==> ActiveIn(s, p, FileOf(s, p.m.b0)) >= 1
    ensures p.Playing? ==> ActiveIn(s, p, FileOf(s, p.m.b0)) >= 1 && ActiveIn(s, p, FileOf(s, p.m.b1)) >= 1
    ensures p.HalfFinished? ==> ActiveIn(s, p, FileOf(s, p.m.b1)) >= 1
  {
  }

  lemma StepKeepsNets(s: State, e: Step, j: int)
    requires Inv(s) && Enabled(s, e) && (Wanted(s, e).Some? ==> Wanted(s, e).value in s.nets)
    requires forall f :: Conserved(Apply(s, e), f)
    requires 0 <= j < |s.threads|
    ensures |Apply(s, e).threads| == |s.threads| && NetsOk(Apply(s, e), Apply(s, e).threads[j])
  {
    assert NetsOk(s, s.threads[j]);
    NetsBefore(s, e, j);
    hide Conserved, Enabled, Apply, Wanted, ActiveIn;
    var t := Apply(s, e);
    var p := t.threads[j];
    ActiveOf(t, p);
    match p
    case HalfStarted(m, idB) => InUseStaysLoaded(s, e, j, FileOf(s, m.b0), idB);
    case Playing(m, idB, idW) =>
      InUseStaysLoaded(s, e, j, FileOf(s, m.b0), idB);
      InUseStaysLoaded(s, e, j, FileOf(s, m.b1), idW);
    case HalfFinished(m, idW) => InUseStaysLoaded(s, e, j, FileOf(s, m.b1), idW);
    case _ =>
  }

  lemma StepKeepsInv(s: State, e: Step)
    requires Inv(s) && Enabled(s, e)
    ensures Wanted(s, e).Some? ==> Wanted(s, e).value in s.nets
    ensures Inv(Apply(s, e))
  {
    hide Conserved, NetsOk;
    if Wanted(s, e).Some? {
      WantedIsLoaded(s, e);
    }
    var t := Apply(s, e);
    forall f
      ensures Conserved(t, f)
    {
      StepConserves(s, e, f);
    }
    forall j | 0 <= j < |t.threads|
      ensures NetsOk(t, t.threads[j])
    {
      StepKeepsNets(s, e, j);
    }
  }

  // ----- every interleaving

  /** A run of the match: any interleaving of the steps of all game threads, each of which finds its net. */
  ghost predicate Run(states: seq<State>, steps: seq<Step>)
  {
    && |states| == |steps| + 1 && Init(states[0])
    && forall k :: 0 <= k < |steps| ==> Enabled(states[k], steps[k]) && Follows(states[k], steps[k], states[k + 1])
  }

  /** The state after the step; anything if the step looks for a net that is not loaded. */
  predicate Follows(s: State, e: Step, t: State)
    requires Enabled(s, e)
  {
    (Wanted(s, e).Some? ==> Wanted(s, e).value in s.nets) ==> t == Apply(s, e)
  }

  lemma {:induction false} RunKeepsInv(states: seq<State>, steps: seq<Step>, k: nat)
    requires Run(states, steps) && k < |states|
    ensures Inv(states[k])
  {
    hide Inv, Enabled, Apply, Wanted;
    if k == 0 {
      InitInv(states[0]);
    } else {
      RunKeepsInv(states, steps, k - 1);
      StepKeepsInv(states[k - 1], steps[k - 1]);
    }
  }

  lemma {:induction false} IdleSums(s: State, threads: seq<Phase>, f: string)
    requires forall i :: 0 <= i < |threads| ==> threads[i] == Idle || threads[i] == Gone
    ensures Active(s, threads, f) == 0 && Pending(s, threads, f) == 0
  {
    if threads != [] {
      IdleSums(s, threads[1..], f);
    }
  }

  lemma InitInv(s: State)
    requires Init(s)
    ensures Inv(s)
  {
    forall f
      ensures Conserved(s, f)
    {
      IdleSums(s, s.threads, f);
    }
  }

  /** In every interleaving, starting and finishing a game finds its nets loaded, a net being finished has
      a use going on, and the counters add up. */
  lemma NetsAreFound(states: seq<State>, steps: seq<Step>, k: nat)
    requires Run(states, steps) && k < |steps| && Wanted(states[k], steps[k]).Some?
    ensures var nets, f := states[k].nets, Wanted(states[k], steps[k]).value;
      && f in nets
      && (steps[k].FinishBlack? || steps[k].FinishWhite? ==> nets[f].active >= 1 && nets[f].completed + nets[f].active <= nets[f].total)
  {
    hide Inv, Enabled, Wanted, Run;
    RunEnabled(states, steps, k);
    RunKeepsInv(states, steps, k);
    WantedIsLoaded(states[k], steps[k]);
  }

  lemma RunEnabled(states: seq<State>, steps: seq<Step>, k: nat)
    requires Run(states, steps) && k < |steps|
    ensures k < |states| && Enabled(states[k], steps[k])
  {
  }

  /** total = completed + active + scheduled for every loaded net, and a net is loaded exactly while some
      game uses it or is scheduled to. */
  lemma NetsAreConserved(states: seq<State>, steps: seq<Step>, k: nat, f: string)
    requires Run(states, steps) && k < |states|
    ensures Conserved(states[k], f)
    ensures f in states[k].nets <==> Active(states[k], states[k].threads, f) + Waiting(states[k], f) > 0
  {
    hide Waiting, Run;
    RunKeepsInv(states, steps, k);
  }

  /** The nets of a game in progress are the very instances that were handed to it. */
  lemma PlayedNetsAreAlive(states: seq<State>, steps: seq<Step>, k: nat, i: int)
    requires Run(states, steps) && k < |states| && 0 <= i < |states[k].threads| && states[k].threads[i].Playing?
    ensures var s, p := states[k], states[k].threads[i];
      Loaded(s, FileOf(s, p.m.b0), p.idB) && Loaded(s, FileOf(s, p.m.b1), p.idW)
  {
    hide Conserved, Run;
    RunKeepsInv(states, steps, k);
    assert NetsOk(states[k], states[k].threads[i]);
  }

  /** When no game is running or scheduled, no net is left. */
  lemma NothingLeft(states: seq<State>, steps: seq<Step>, k: nat)
    requires Run(states, steps) && k < |states| && states[k].nextMatchups == []
    requires forall i :: 0 <= i < |states[k].threads| ==> states[k].threads[i] == Idle || states[k].threads[i] == Gone
    ensures states[k].nets == map[]
  {
    hide Run;
    RunKeepsInv(states, steps, k);
    var s := states[k];
    forall f
      ensures f !in s.nets
    {
      IdleSums(s, s.threads, f);
      assert Conserved(s, f);
    }
  }

  // ----- instances

  /** Different files have different instances, all handed out already. */
  ghost predicate Numbered(s: State)
  {
    && (forall f :: f in s.nets ==> s.nets[f].id < s.nextId)
    && forall f, g :: f in s.nets && g in s.nets && f != g ==> s.nets[f].id != s.nets[g].id
  }

  /** A net after a step is the one from before it, or has just been loaded under a new number. */
  lemma NetAfter(s: State, e: Step, f: string)
    requires Enabled(s, e) && (Wanted(s, e).Some? ==> Wanted(s, e).value in s.nets) && f in Apply(s, e).nets
    ensures if f in s.nets then Apply(s, e).nets[f].id == s.nets[f].id
      else Apply(s, e).nets[f].id == s.nextId && Apply(s, e).nextId == s.nextId + 1
  {
    hide Scheduled;
  }

  /** Only loading a net counts on. */
  lemma NextAfter(s: State, e: Step)
    requires Enabled(s, e) && (Wanted(s, e).Some? ==> Wanted(s, e).value in s.nets)
    ensures s.nextId <= Apply(s, e).nextId
    ensures forall f, g :: f in Apply(s, e).nets && f !in s.nets && g in Apply(s, e).nets && g !in s.nets ==> f == g
  {
    hide Scheduled;
  }

  lemma StepKeepsNumbered(s: State, e: Step)
    requires Numbered(s) && Enabled(s, e) && (Wanted(s, e).Some? ==> Wanted(s, e).value in s.nets)
    ensures Numbered(Apply(s, e))
  {
    hide Apply, Enabled, Wanted;
    var t := Apply(s, e);
    NextAfter(s, e);
    forall f | f in t.nets
      ensures if f in s.nets then t.nets[f].id == s.nets[f].id else t.nets[f].id == s.nextId && t.nextId == s.nextId + 1
    {
      NetAfter(s, e, f);
    }
  }

  lemma {:induction false} RunKeepsNumbered(states: seq<State>, steps: seq<Step>, k: nat)
    requires Run(states, steps) && k < |states|
    ensures Numbered(states[k])
  {
    hide Inv, Enabled, Apply, Wanted;
    if k > 0 {
      RunKeepsNumbered(states, steps, k - 1);
      RunKeepsInv(states, steps, k - 1);
      StepKeepsInv(states[k - 1], steps[k - 1]);
      StepKeepsNumbered(states[k - 1], steps[k - 1]);
    }
  }

  /** An instance is never shared between files, and once deleted it never comes back: a net found later
      under a number given out before was loaded then, under that number. */
  lemma {:induction false} InstancesAreNeverReused(states: seq<State>, steps: seq<Step>, j: nat, k: nat, f: string, g: string)
    requires Run(states, steps) && j <= k < |states| && f in states[k].nets
    ensures g in states[k].nets && g != f ==> states[k].nets[f].id != states[k].nets[g].id
    ensures states[j].nextId <= states[k].nextId
    ensures states[k].nets[f].id < states[j].nextId ==> f in states[j].nets && states[j].nets[f].id == states[k].nets[f].id
    decreases k
  {
    hide Inv, Enabled, Apply, Wanted;
    RunKeepsNumbered(states, steps, k);
    CountsOn(states, steps, j, k);
    if j < k {
      var s, e := states[k - 1], steps[k - 1];
      RunKeepsInv(states, steps, k - 1);
      StepKeepsInv(s, e);
      NetAfter(s, e, f);
      CountsOn(states, steps, j, k - 1);
      if f in s.nets {
        InstancesAreNeverReused(states, steps, j, k - 1, f, g);
      }
    }
  }

  lemma {:induction false} CountsOn(states: seq<State>, steps: seq<Step>, j: nat, k: nat)
    requires Run(states, steps) && j <= k < |states|
    ensures states[j].nextId <= states[k].nextId
    decreases k
  {
    hide Inv, Enabled, Apply, Wanted;
    if j < k {
      CountsOn(states, steps, j, k - 1);
      RunKeepsInv(states, steps, k - 1);
      StepKeepsInv(states[k - 1], steps[k - 1]);
      NextAfter(states[k - 1], steps[k - 1]);
    }
  }

  // ----- who plays whom

  /** A game for one of two different bots that play each other. */
  predicate PairOk(s: State, m: Matchup)
  {
    m.b0 < |s.files| && m.b1 < |s.files| && m.b0 != m.b1 && (m.forBot == m.b0 || m.forBot == m.b1)
  }

  predicate PhasePairOk(s: State, p: Phase)
  {
    match p
    case HalfReserved(_, best, other) => best < |s.files| && other < |s.files| && best != other
    case FullyReserved(_, best, other) => best < |s.files| && other < |s.files| && best != other
    case Starting(m) => PairOk(s, m)
    case HalfStarted(m, _) => PairOk(s, m)
    case Playing(m, _, _) => PairOk(s, m)
    case HalfFinished(m, _) => PairOk(s, m)
    case _ => true
  }

  ghost predicate PairsOk(s: State)
  {
    && (forall j :: 0 <= j < |s.nextMatchups| ==> PairOk(s, s.nextMatchups[j]))
    && forall i :: 0 <= i < |s.threads| ==> PhasePairOk(s, s.threads[i])
  }

  lemma StepKeepsPairs(s: State, e: Step)
    requires PairsOk(s) && Enabled(s, e) && (Wanted(s, e).Some? ==> Wanted(s, e).value in s.nets)
    ensures PairsOk(Apply(s, e))
  {
    hide Preregistered, Started, Finished;
    var t := Apply(s, e);
    assert PhasePairOk(s, s.threads[e.i]);
    assert t.files == s.files;
  }

  lemma {:induction false} RunKeepsPairs(states: seq<State>, steps: seq<Step>, k: nat)
    requires Run(states, steps) && k < |states|
    ensures PairsOk(states[k])
  {
    hide Inv, Enabled, Apply, Wanted;
    if k > 0 {
      RunKeepsPairs(states, steps, k - 1);
      RunKeepsInv(states, steps, k - 1);
      StepKeepsInv(states[k - 1], steps[k - 1]);
      StepKeepsPairs(states[k - 1], steps[k - 1]);
    }
  }

  /** Every game played is between two different bots, one of them the bot it was scheduled for. */
  lemma GamesArePairs(states: seq<State>, steps: seq<Step>, k: nat, i: int)
    requires Run(states, steps) && k < |states| && 0 <= i < |states[k].threads| && states[k].threads[i].Playing?
    ensures var m, n := states[k].threads[i].m, |states[k].files|;
      m.b0 < n && m.b1 < n && m.b0 != m.b1 && (m.forBot == m.b0 || m.forBot == m.b1)
  {
    hide Run;
    RunKeepsPairs(states, steps, k);
    assert PhasePairOk(states[k], states[k].threads[i]);
  }
}
