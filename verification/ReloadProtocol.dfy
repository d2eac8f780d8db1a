/** From a changed allowlist to group rows: Manager.Reload in two goroutines, a buffer of four that drops what
    does not fit, and the consumer in startConfigReloaders. */
module ReloadProtocol {
  import opened Text
  import opened Types
  import Config

  /** A reload: the file is loaded, then the map is replaced under the lock together with a copy of the
      subscriber list, then the send is tried. */
  datatype Reload = Loaded(next: map<string, Group>) | Updated(signals: bool, hasSub: bool)

  datatype Consumer = Waiting | Received | Snapshot(jids: set<string>)

  /** rows are the chats that have a row in whatsapp_groups; buffered is what the subscription holds. */
  datatype State = State(
    current: map<string, Group>,
    rows: set<string>,
    reloads: map<nat, Reload>,
    subscribed: bool,
    buffered: nat,
    consumer: Consumer)

  datatype Action =
    | LoadFile(r: nat, next: map<string, Group>)
    | Update(r: nat)
    | Send(r: nat)
    | Subscribe
    | Receive
    | ReadGroups
    | Ensure(ok: bool)
    | EnsureElsewhere(jids: set<string>)

  predicate Enabled(s: State, a: Action) {
    match a
    case LoadFile(r, _) => r !in s.reloads
    case Update(r) => r in s.reloads && s.reloads[r].Loaded?
    case Send(r) => r in s.reloads && s.reloads[r].Updated?
    case Subscribe => !s.subscribed
    case Receive => s.subscribed && s.consumer.Waiting? && s.buffered > 0
    case ReadGroups => s.consumer.Received?
    case Ensure(_) => s.consumer.Snapshot?
    case EnsureElsewhere(_) => true
  }

  function Next(s: State, a: Action): State {
    if !Enabled(s, a) then s
    else match a
      case LoadFile(r, next) => s.(reloads := s.reloads[r := Loaded(next)])
      case Update(r) =>
        var next := s.reloads[r].next;
        s.(current := next, reloads := s.reloads[r := Updated(next != s.current, s.subscribed)])
      case Send(r) =>
        var sends := s.reloads[r].signals && s.reloads[r].hasSub && s.buffered < Config.BUFFER;
        s.(buffered := if sends then s.buffered + 1 else s.buffered, reloads := s.reloads - {r})
      case Subscribe => s.(subscribed := true, buffered := 0, consumer := Waiting)
      case Receive => s.(buffered := s.buffered - 1, consumer := Received)
      case ReadGroups => s.(consumer := Snapshot(s.current.Keys))
      case Ensure(ok) => s.(rows := if ok then s.rows + s.consumer.jids else s.rows, consumer := Waiting)
      case EnsureElsewhere(jids) => s.(rows := s.rows + jids)
  }

  function Exec(s: State, schedule: seq<Action>): State {
    if schedule == [] then s
    else Next(Exec(s, schedule[..|schedule| - 1]), schedule[|schedule| - 1])
  }

  /** One Reload that nothing interrupts is what Config.Manager.Reload does to its map and to a subscriber's buffer: the
      map is replaced, and the buffer gets one change exactly when the map is a different one and there is room. A
      subscription starts with an empty buffer. */
  lemma ReloadSteps(s: State, r: nat, next: map<string, Group>)
    requires r !in s.reloads
    ensures var s' := Next(Next(Next(s, LoadFile(r, next)), Update(r)), Send(r));
            && s'.current == next && s'.reloads == s.reloads && s'.rows == s.rows && s'.consumer == s.consumer
            && s'.buffered == (if next != s.current && s.subscribed && s.buffered < 4 then s.buffered + 1
                               else s.buffered)
    ensures !s.subscribed ==> Next(s, Subscribe).buffered == 0 && Next(s, Subscribe).current == s.current
    ensures forall jids :: Next(s, EnsureElsewhere(jids)).rows == s.rows + jids
  {
    var s1 := Next(s, LoadFile(r, next));
    var s2 := Next(s1, Update(r));
    assert s2.reloads == s.reloads[r := Updated(next != s.current, s.subscribed)];
    assert (s.reloads[r := Updated(next != s.current, s.subscribed)]) - {r} == s.reloads;
  }

  predicate WillSignal(s: State, r: nat) {
    r in s.reloads && s.reloads[r].Updated? && s.reloads[r].signals && s.reloads[r].hasSub
  }

  /** Every chat of the current map has its row, or something is under way that will give it one. */
  ghost predicate Covered(s: State) {
    || s.current.Keys <= s.rows
    || s.buffered > 0
    || (exists r :: WillSignal(s, r))
    || s.consumer.Received?
    || (s.consumer.Snapshot? && s.current.Keys <= s.rows + s.consumer.jids)
  }

  predicate Succeeds(a: Action) {
    a.Ensure? ==> a.ok
  }

  lemma StepCovered(s: State, a: Action)
    requires s.subscribed && Covered(s) && s.buffered <= Config.BUFFER && Succeeds(a)
    ensures Next(s, a).subscribed && Covered(Next(s, a)) && Next(s, a).buffered <= Config.BUFFER
  {
    var s' := Next(s, a);
    if Enabled(s, a) {
      if a.Update? && s'.current != s.current {
        assert WillSignal(s', a.r);
      } else if exists r :: WillSignal(s, r) {
        var r :| WillSignal(s, r);
        if !(a.Send? && a.r == r) {
          assert WillSignal(s', r);
        }
      }
    }
  }

  /** From a subscription on, as long as EnsureGroups succeeds, no chat is forgotten: dropping a signal on a full
      buffer is harmless. */
  lemma {:induction false} ReloadReachesStore(s: State, schedule: seq<Action>)
    requires s.subscribed && Covered(s) && s.buffered <= Config.BUFFER && forall a | a in schedule :: Succeeds(a)
    ensures var s' := Exec(s, schedule); s'.subscribed && Covered(s') && s'.buffered <= Config.BUFFER
  {
    if schedule != [] {
      ReloadReachesStore(s, schedule[..|schedule| - 1]);
      StepCovered(Exec(s, schedule[..|schedule| - 1]), schedule[|schedule| - 1]);
    }
  }

  predicate AtRest(s: State) {
    s.reloads == map[] && s.buffered == 0 && s.consumer.Waiting?
  }

  /** So whenever nothing is under way any more, every allowed chat can be written to. */
  lemma AtRestEveryChatHasItsRow(s: State, schedule: seq<Action>)
    requires s.subscribed && Covered(s) && s.buffered <= Config.BUFFER && forall a | a in schedule :: Succeeds(a)
    requires AtRest(Exec(s, schedule))
    ensures Exec(s, schedule).current.Keys <= Exec(s, schedule).rows
  {
    ReloadReachesStore(s, schedule);
  }

  lemma {:induction false} ExecPrepend(s: State, a: Action, rest: seq<Action>)
    ensures Exec(s, [a] + rest) == Exec(Next(s, a), rest)
    decreases |rest|
  {
    if rest == [] {
      assert [a] + rest == [a] && [a][..0] == [];
    } else {
      var longer := [a] + rest;
      assert longer[..|longer| - 1] == [a] + rest[..|rest| - 1];
      ExecPrepend(s, a, rest[..|rest| - 1]);
    }
  }

  function LoadedOnes(s: State): set<nat> {
    set r | r in s.reloads && s.reloads[r].Loaded?
  }

  function Busy(c: Consumer): nat {
    match c
    case Waiting => 0
    case Snapshot(_) => 1
    case Received => 2
  }

  lemma SomeReload(reloads: map<nat, Reload>)
    ensures reloads == map[] || exists r: nat :: r in reloads
  {
    if !exists r: nat :: r in reloads {
      assert reloads == map[];
    }
  }

  /** What is done next while nothing new is loaded. */
  lemma StepTowardsRest(s: State) returns (a: Action)
    requires s.subscribed && !AtRest(s)
    ensures Succeeds(a)
    ensures var s' := Next(s, a);
            || |LoadedOnes(s')| < |LoadedOnes(s)|
            || (LoadedOnes(s') == LoadedOnes(s)
                && (|s'.reloads| < |s.reloads|
                    || (s'.reloads == s.reloads
                        && (s'.buffered < s.buffered
                            || (s'.buffered == s.buffered && Busy(s'.consumer) < Busy(s.consumer))))))
  {
    SomeReload(s.reloads);
    if s.consumer.Received? {
      a := ReadGroups;
    } else if s.consumer.Snapshot? {
      a := Ensure(true);
    } else if s.reloads != map[] {
      var r: nat :| r in s.reloads;
      if s.reloads[r].Loaded? {
        a := Update(r);
        var s' := Next(s, a);
        assert LoadedOnes(s') == LoadedOnes(s) - {r} && r in LoadedOnes(s);
      } else {
        a := Send(r);
        var s' := Next(s, a);
        assert LoadedOnes(s') == LoadedOnes(s);
        assert s'.reloads.Keys == s.reloads.Keys - {r};
        assert |s'.reloads| == |s'.reloads.Keys| && |s.reloads| == |s.reloads.Keys|;
      }
    } else {
      a := Receive;
    }
  }

  /** From every state after a subscription the reload can come to rest, and when every EnsureGroups succeeds every
      chat then has its row: no signal that was dropped, and no reload that came in between, is in the way. */
  lemma CanComeToRest(s: State) returns (schedule: seq<Action>)
    requires s.subscribed && Covered(s) && s.buffered <= Config.BUFFER
    ensures forall a | a in schedule :: Succeeds(a)
    ensures AtRest(Exec(s, schedule)) && Exec(s, schedule).current.Keys <= Exec(s, schedule).rows
    decreases |LoadedOnes(s)|, |s.reloads|, s.buffered, Busy(s.consumer)
  {
    schedule := [];
    if !AtRest(s) {
      var a := StepTowardsRest(s);
      StepCovered(s, a);
      var rest := CanComeToRest(Next(s, a));
      ExecPrepend(s, a, rest);
      schedule := [a] + rest;
    }
  }

  ghost predicate BeforeSubscription(s: State) {
    !s.subscribed && forall r | r in s.reloads && s.reloads[r].Updated? :: !s.reloads[r].hasSub
  }

  lemma {:induction false} NoSubBefore(s: State, schedule: seq<Action>)
    requires BeforeSubscription(s) && forall a | a in schedule :: !a.Subscribe?
    ensures BeforeSubscription(Exec(s, schedule))
  {
    if schedule != [] {
      NoSubBefore(s, schedule[..|schedule| - 1]);
    }
  }

  /** After any steps without a subscription, the subscription takes over exactly when, at that moment, every chat of
      the current map has its row. The file watcher is started before the subscription, so a reload in between can
      break this. */
  lemma SubscriptionTakesOverExactly(s: State, before: seq<Action>)
    requires BeforeSubscription(s) && forall a | a in before :: !a.Subscribe?
    ensures var s' := Exec(s, before); Covered(Next(s', Subscribe)) <==> s'.current.Keys <= s'.rows
  {
    NoSubBefore(s, before);
    var s'' := Next(Exec(s, before), Subscribe);
    forall r ensures !WillSignal(s'', r) {
    }
  }

  /** A reload between the first EnsureGroups and the subscription leaves a new chat without a row, at rest. */
  lemma ReloadBeforeSubscriptionIsLost(next: map<string, Group>, jid: string)
    requires jid in next
    ensures var s0 := State(map[], {}, map[], false, 0, Waiting);
            var s := Next(Next(Next(Next(s0, LoadFile(0, next)), Update(0)), Send(0)), Subscribe);
            AtRest(s) && s.subscribed && jid in s.current && jid !in s.rows
  {
    var s0 := State(map[], {}, map[], false, 0, Waiting);
    var s1 := Next(s0, LoadFile(0, next));
    var s2 := Next(s1, Update(0));
    assert !s2.reloads[0].hasSub;
    var s3 := Next(s2, Send(0));
    assert s3.reloads == map[] && s3.buffered == 0;
  }
}
