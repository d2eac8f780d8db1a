/** The shutdown handshake of Serve: history-sync callbacks, their goroutines, a flag under a lock, a WaitGroup
    and the close of the result channel. */
module Shutdown {
  import opened Text

  const CAPACITY: nat := 8

  /** A callback and then its goroutine. Checked: it holds the lock and has seen the flag down. */
  datatype Phase = Arrived | Checked | Counted | Running | Reporting | Leaving | Done | Refused

  datatype Sync = Sync(onDemand: bool, phase: Phase)

  datatype Holder = Callback(j: nat) | Closer

  /** The steps of the deferred function, in order. */
  datatype Defer = Serving | HandlerRemoved | Flagging | Flagged | Cancelled | Waited | ChannelClosed

  /** sent and dropped are histories. */
  datatype State = State(
    closed: bool,
    lock: Option<Holder>,
    counter: int,
    open: bool,
    queue: seq<nat>,
    syncs: map<nat, Sync>,
    shutdown: Defer,
    sent: seq<nat>,
    dropped: seq<nat>)

  const START := State(false, None, 0, true, [], map[], Serving, [], [])

  datatype Action =
    | Arrive(j: nat, onDemand: bool)
    | LockAndCheck(j: nat)
    | AddAndUnlock(j: nat)
    | Spawn(j: nat)
    | Process(j: nat)
    | Report(j: nat)
    | Finish(j: nat)
    | Consume
    | RemoveHandler
    | LockForClose
    | SetFlagAndUnlock
    | Cancel
    | Wait
    | CloseChannel

  predicate Is(s: State, j: nat, phase: Phase) {
    j in s.syncs && s.syncs[j].phase == phase
  }

  predicate Enabled(s: State, a: Action) {
    match a
    case Arrive(j, _) => j !in s.syncs
    case LockAndCheck(j) => Is(s, j, Arrived) && s.lock.None?
    case AddAndUnlock(j) => Is(s, j, Checked)
    case Spawn(j) => Is(s, j, Counted)
    case Process(j) => Is(s, j, Running)
    case Report(j) => Is(s, j, Reporting)
    case Finish(j) => Is(s, j, Leaving)
    case Consume => s.queue != []
    case RemoveHandler => s.shutdown.Serving?
    case LockForClose => s.shutdown.HandlerRemoved? && s.lock.None?
    case SetFlagAndUnlock => s.shutdown.Flagging?
    case Cancel => s.shutdown.Flagged?
    case Wait => s.shutdown.Cancelled? && s.counter == 0
    case CloseChannel => s.shutdown.Waited?
  }

  function Move(s: State, j: nat, phase: Phase): State
    requires j in s.syncs
  {
    s.(syncs := s.syncs[j := s.syncs[j].(phase := phase)])
  }

  /** Two consecutive statements under the lock are one step: nothing else can see between them. */
  function Next(s: State, a: Action): State {
    if !Enabled(s, a) then s
    else match a
      case Arrive(j, onDemand) => s.(syncs := s.syncs[j := Sync(onDemand, Arrived)])
      case LockAndCheck(j) => if s.closed then Move(s, j, Refused) else Move(s.(lock := Some(Callback(j))), j, Checked)
      case AddAndUnlock(j) =>
        Move(s.(counter := s.counter + 1, lock := None), j, Counted)
      case Spawn(j) => Move(s, j, Running)
      case Process(j) => Move(s, j, if s.syncs[j].onDemand then Reporting else Leaving)
      case Report(j) =>
        if |s.queue| < CAPACITY then Move(s.(queue := s.queue + [j], sent := s.sent + [j]), j, Leaving)
        else Move(s.(dropped := s.dropped + [j]), j, Leaving)
      case Finish(j) => Move(s.(counter := s.counter - 1), j, Done)
      case Consume => s.(queue := s.queue[1..])
      case RemoveHandler => s.(shutdown := HandlerRemoved)
      case LockForClose => s.(shutdown := Flagging, lock := Some(Closer))
      case SetFlagAndUnlock => s.(shutdown := Flagged, lock := None, closed := true)
      case Cancel => s.(shutdown := Cancelled)
      case Wait => s.(shutdown := Waited)
      case CloseChannel => s.(shutdown := ChannelClosed, open := false)
  }

  function Exec(s: State, schedule: seq<Action>): State {
    if schedule == [] then s
    else Next(Exec(s, schedule[..|schedule| - 1]), schedule[|schedule| - 1])
  }

  /** The goroutines that the WaitGroup stands for. */
  function Live(syncs: map<nat, Sync>): set<nat> {
    set j | j in syncs && Alive(syncs[j].phase)
  }

  predicate FlagInv(s: State) {
    && (s.closed <==> s.shutdown in {Flagged, Cancelled, Waited, ChannelClosed})
    && (forall j | j in s.syncs && s.syncs[j].phase.Checked? :: s.lock == Some(Callback(j)))
    && (s.lock.Some? && s.lock.value.Callback? ==> Is(s, s.lock.value.j, Checked))
    && (s.lock.Some? && s.lock.value.Callback? ==> !s.closed)
    && (s.lock == Some(Closer) <==> s.shutdown.Flagging?)
  }

  predicate CountInv(s: State) {
    && s.counter == |Live(s.syncs)|
    && (s.shutdown.Waited? || s.shutdown.ChannelClosed? ==> s.counter == 0)
    && (s.open <==> !s.shutdown.ChannelClosed?)
  }

  /** What happened to the result of a sync so far; only an on-demand one reports. */
  predicate Reported(s: State, j: nat) {
    && (Is(s, j, Reporting) ==> s.syncs[j].onDemand)
    && (multiset(s.sent)[j] + multiset(s.dropped)[j]
        == if j in s.syncs && s.syncs[j].onDemand && s.syncs[j].phase in {Leaving, Done} then 1 else 0)
  }

  ghost predicate Inv(s: State) {
    FlagInv(s) && CountInv(s) && |s.queue| <= CAPACITY && forall j :: Reported(s, j)
  }

  lemma StepFlag(s: State, a: Action)
    requires FlagInv(s)
    ensures FlagInv(Next(s, a))
  {
  }

  predicate Alive(phase: Phase) {
    phase in {Counted, Running, Reporting, Leaving}
  }

  /** The live set changes by at most the job that moves. */
  lemma LiveMoves(syncs: map<nat, Sync>, j: nat, sync: Sync)
    ensures |Live(syncs[j := sync])| == |Live(syncs)| + (if Alive(sync.phase) then 1 else 0)
                                        - (if j in syncs && Alive(syncs[j].phase) then 1 else 0)
    ensures j in syncs && Alive(syncs[j].phase) ==> |Live(syncs)| > 0
  {
    var others := Live(syncs) - {j};
    assert Live(syncs) == if j in syncs && Alive(syncs[j].phase) then others + {j} else others;
    assert Live(syncs[j := sync]) == if Alive(sync.phase) then others + {j} else others;
  }

  lemma StepLive(s: State, a: Action)
    ensures Enabled(s, a) ==>
              |Live(Next(s, a).syncs)|
              == |Live(s.syncs)| + (if a.AddAndUnlock? then 1 else 0) - (if a.Finish? then 1 else 0)
    ensures Enabled(s, a) && (a.Report? || a.Finish?) ==> |Live(s.syncs)| > 0
  {
    if Enabled(s, a) {
      match a
      case Arrive(j, onDemand) => LiveMoves(s.syncs, j, Sync(onDemand, Arrived));
      case LockAndCheck(j) => LiveMoves(s.syncs, j, s.syncs[j].(phase := if s.closed then Refused else Checked));
      case AddAndUnlock(j) => LiveMoves(s.syncs, j, s.syncs[j].(phase := Counted));
      case Spawn(j) => LiveMoves(s.syncs, j, s.syncs[j].(phase := Running));
      case Process(j) =>
        LiveMoves(s.syncs, j, s.syncs[j].(phase := if s.syncs[j].onDemand then Reporting else Leaving));
      case Report(j) => LiveMoves(s.syncs, j, s.syncs[j].(phase := Leaving));
      case Finish(j) => LiveMoves(s.syncs, j, s.syncs[j].(phase := Done));
      case _ =>
    }
  }

  lemma StepCount(s: State, a: Action)
    requires FlagInv(s) && CountInv(s)
    ensures CountInv(Next(s, a))
  {
    if Enabled(s, a) {
      StepLive(s, a);
    }
  }

  lemma CountAppend(s: seq<nat>, x: nat, j: nat)
    ensures multiset(s + [x])[j] == multiset(s)[j] + if x == j then 1 else 0
  {
    assert multiset(s + [x]) == multiset(s) + multiset{x};
  }

  lemma StepReported(s: State, a: Action, j: nat)
    requires CountInv(s) && Reported(s, j)
    ensures Reported(Next(s, a), j)
  {
    if a.Report? && Enabled(s, a) {
      StepLive(s, a);
      CountAppend(s.sent, a.j, j);
      CountAppend(s.dropped, a.j, j);
    }
  }

  lemma StepKeepsInv(s: State, a: Action)
    requires Inv(s)
    ensures Inv(Next(s, a))
  {
    StepFlag(s, a);
    StepCount(s, a);
    forall j ensures Reported(Next(s, a), j) {
      StepReported(s, a, j);
    }
  }

  lemma {:induction false} InvAlways(schedule: seq<Action>)
    ensures Inv(Exec(START, schedule))
  {
    if schedule == [] {
      assert Live(START.syncs) == {};
    } else {
      InvAlways(schedule[..|schedule| - 1]);
      StepKeepsInv(Exec(START, schedule[..|schedule| - 1]), schedule[|schedule| - 1]);
    }
  }

  /** Shutdown is safe in every interleaving: nothing can send on the closed channel or close it again, no Add comes
      after the flag, no Done takes the counter below zero; and the channel is closed only when no goroutine is left. */
  lemma ShutdownIsSafe(schedule: seq<Action>)
    ensures var s := Exec(START, schedule);
            && (forall j :: Enabled(s, Report(j)) ==> s.open) && (Enabled(s, CloseChannel) ==> s.open)
            && (forall j :: Enabled(s, AddAndUnlock(j)) ==> !s.closed)
            && (forall j :: Enabled(s, Finish(j)) ==> s.counter > 0)
    ensures var s := Exec(START, schedule);
            && |s.queue| <= 8
            && (!s.open ==> Live(s.syncs) == {} && s.closed)
  {
    InvAlways(schedule);
    var s := Exec(START, schedule);
    forall j | Enabled(s, Report(j)) || Enabled(s, Finish(j)) ensures s.open && s.counter > 0 {
      assert j in Live(s.syncs);
    }
  }

  /** Each on-demand sync that finished was queued exactly once or dropped exactly once, others never; a refused
      one was neither. */
  lemma EachResultOnce(schedule: seq<Action>, j: nat)
    ensures var s := Exec(START, schedule);
            multiset(s.sent)[j] + multiset(s.dropped)[j]
            == if j in s.syncs && s.syncs[j].onDemand && s.syncs[j].phase in {Leaving, Done} then 1 else 0
  {
    InvAlways(schedule);
    assert Reported(Exec(START, schedule), j);
  }

  /** A result is dropped only by a step that finds all eight slots taken. */
  lemma DroppedOnlyWhenFull(schedule: seq<Action>, a: Action)
    ensures var s := Exec(START, schedule);
            Next(s, a).dropped != s.dropped ==>
              a.Report? && |s.queue| == 8 && Next(s, a).dropped == s.dropped + [a.j]
  {
    InvAlways(schedule);
  }

  predicate TailOfSent(s: State) {
    |s.queue| <= |s.sent| && s.queue == s.sent[|s.sent| - |s.queue|..]
  }

  lemma StepTail(s: State, a: Action)
    requires TailOfSent(s)
    ensures TailOfSent(Next(s, a))
  {
    if Enabled(s, a) && a.Report? && s.open && |s.queue| < CAPACITY {
      assert (s.sent + [a.j])[|s.sent| - |s.queue|..] == s.sent[|s.sent| - |s.queue|..] + [a.j];
    }
  }

  /** Received in order: what consumers have taken, followed by what is queued, is what was sent. */
  lemma {:induction false} QueueIsTailOfSent(schedule: seq<Action>)
    ensures TailOfSent(Exec(START, schedule))
  {
    if schedule != [] {
      QueueIsTailOfSent(schedule[..|schedule| - 1]);
      StepTail(Exec(START, schedule[..|schedule| - 1]), schedule[|schedule| - 1]);
    }
  }

  // ---------------------------------------------------------------- nothing gets stuck

  lemma {:induction false} ExecPrepend(s: State, a: Action, rest: seq<Action>)
    ensures Exec(s, [a] + rest) == Exec(Next(s, a), rest)
    decreases |rest|
  {
    if rest == [] {
      assert [a] + rest == [a] && [a][..0] == [];
    } else {
      var longer := [a] + rest;
      assert longer[..|longer| - 1] == [a] + rest[..|rest| - 1];
      ExecPrepend(s, a, rest[..|rest| - 1]);
    }
  }

  /** How many steps a callback and its goroutine have left, at most. */
  function Remaining(phase: Phase): nat {
    match phase
    case Arrived => 6
    case Checked => 5
    case Counted => 4
    case Running => 3
    case Reporting => 2
    case Leaving => 1
    case _ => 0
  }

  function Left(syncs: map<nat, Sync>): set<(nat, nat)> {
    set j, k: nat | j in syncs && k < Remaining(syncs[j].phase) :: (j, k)
  }

  function DeferLeft(shutdown: Defer): nat {
    match shutdown
    case Serving => 6
    case HandlerRemoved => 5
    case Flagging => 4
    case Flagged => 3
    case Cancelled => 2
    case Waited => 1
    case ChannelClosed => 0
  }

  lemma FewerLeft(syncs: map<nat, Sync>, j: nat, sync: Sync)
    requires j in syncs && Remaining(sync.phase) < Remaining(syncs[j].phase)
    ensures |Left(syncs[j := sync])| < |Left(syncs)|
  {
    var before, after := Left(syncs), Left(syncs[j := sync]);
    assert (j, Remaining(sync.phase)) in before && (j, Remaining(sync.phase)) !in after;
    assert before == after + (before - after) && |before| == |after| + |before - after|;
  }

  /** The step of a sync whose turn it is, while nobody holds the lock. */
  function Turn(j: nat, phase: Phase): Action {
    match phase
    case Arrived => LockAndCheck(j)
    case Checked => AddAndUnlock(j)
    case Counted => Spawn(j)
    case Running => Process(j)
    case Reporting => Report(j)
    case _ => Finish(j)
  }

  lemma TurnMoves(s: State, j: nat)
    requires Inv(s) && j in s.syncs && Remaining(s.syncs[j].phase) > 0
    requires s.lock.None? || s.lock == Some(Callback(j))
    ensures var a := Turn(j, s.syncs[j].phase);
            Next(s, a).shutdown == s.shutdown && |Left(Next(s, a).syncs)| < |Left(s.syncs)|
  {
    if s.syncs[j].phase.Reporting? {
      assert j in Live(s.syncs);
    }
    var s' := Next(s, Turn(j, s.syncs[j].phase));
    FewerLeft(s.syncs, j, s'.syncs[j]);
    assert s'.syncs == s.syncs[j := s'.syncs[j]];
  }

  /** The next step of the deferred function. */
  function DeferTurn(shutdown: Defer): Action {
    match shutdown
    case Serving => RemoveHandler
    case HandlerRemoved => LockForClose
    case Flagging => SetFlagAndUnlock
    case Flagged => Cancel
    case Cancelled => Wait
    case _ => CloseChannel
  }

  lemma DeferTurnMoves(s: State)
    requires Inv(s) && !s.shutdown.ChannelClosed?
    requires s.lock == Some(Closer) || (s.lock.None? && forall j | j in s.syncs :: Remaining(s.syncs[j].phase) == 0)
    ensures var s' := Next(s, DeferTurn(s.shutdown));
            s'.syncs == s.syncs && DeferLeft(s'.shutdown) < DeferLeft(s.shutdown)
  {
    if s.lock.None? {
      assert Live(s.syncs) == {};
    }
  }

  /** Every callback is over, and the channel is closed. */
  predicate Over(s: State) {
    s.shutdown.ChannelClosed? && forall j | j in s.syncs :: s.syncs[j].phase in {Done, Refused}
  }

  /** From every state of a run the daemon can shut down: some schedule brings every callback to its end and closes the
      channel, with nobody waiting for ever for the lock, the counter or the channel. */
  lemma CanShutDown(s: State) returns (schedule: seq<Action>)
    requires Inv(s)
    ensures Over(Exec(s, schedule)) && Inv(Exec(s, schedule))
    decreases |Left(s.syncs)|, DeferLeft(s.shutdown)
  {
    schedule := [];
    if !Over(s) {
      var a;
      if s.lock.Some? && s.lock.value.Callback? {
        a := Turn(s.lock.value.j, s.syncs[s.lock.value.j].phase);
        TurnMoves(s, s.lock.value.j);
      } else if j :| j in s.syncs && Remaining(s.syncs[j].phase) > 0 && s.lock.None? {
        a := Turn(j, s.syncs[j].phase);
        TurnMoves(s, j);
      } else {
        a := DeferTurn(s.shutdown);
        DeferTurnMoves(s);
      }
      StepKeepsInv(s, a);
      var rest := CanShutDown(Next(s, a));
      ExecPrepend(s, a, rest);
      schedule := [a] + rest;
    }
  }
}
