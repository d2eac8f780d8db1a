/** Coalesced wake-ups: control.Changes. A subscription is a channel of one slot. */
module Changes {
  import opened Text

  datatype Sub = Sub(jid: string, tokens: nat)

  /** select { case ch <- struct{}{}: default: } on a channel of capacity one. */
  function TrySend(tokens: nat): (r: nat)
    ensures 1 <= r
    ensures tokens <= 1 ==> r <= 1
  {
    if tokens < 1 then tokens + 1 else tokens
  }

  function Notified(subs: map<nat, Sub>, jid: string): map<nat, Sub> {
    map ch | ch in subs :: if subs[ch].jid == jid then subs[ch].(tokens := TrySend(subs[ch].tokens)) else subs[ch]
  }

  class Hub {
    var subs: map<nat, Sub>
    var issued: nat

    predicate Valid()
      reads this
    {
      forall ch | ch in subs :: ch < issued && subs[ch].tokens <= 1
    }

    constructor ()
      ensures Valid() && subs == map[] && issued == 0
    {
      subs, issued := map[], 0;
    }

    method Subscribe(jid: string) returns (ch: nat)
      requires Valid()
      modifies this
      ensures Valid() && ch !in old(subs) && subs == old(subs)[ch := Sub(jid, 0)] && issued == old(issued) + 1
    {
      ch := issued;
      issued := issued + 1;
      subs := subs[ch := Sub(jid, 0)];
    }

    method Unsubscribe(ch: nat)
      requires Valid()
      modifies this`subs
      ensures Valid() && subs == old(subs) - {ch}
    {
      subs := subs - {ch};
    }

    /** The loop over the subscriptions, in any order. */
    method Notify(jid: string)
      requires Valid()
      modifies this`subs
      ensures Valid() && subs == Notified(old(subs), jid)
    {
      var before := subs;
      var todo := subs.Keys;
      while todo != {}
        invariant todo <= before.Keys && subs.Keys == before.Keys
        invariant forall ch | ch in before ::
                    subs[ch] == if ch in todo then before[ch] else Notified(before, jid)[ch]
        decreases |todo|
      {
        SomeChannel(todo);
        var ch: nat :| ch in todo;
        if subs[ch].jid == jid {
          subs := subs[ch := subs[ch].(tokens := TrySend(subs[ch].tokens))];
        }
        todo := todo - {ch};
      }
      assert subs == Notified(before, jid);
    }

    /** The receiving end. */
    method Receive(ch: nat) returns (ok: bool)
      requires Valid()
      modifies this`subs
      ensures Valid() && ok == (ch in old(subs) && old(subs)[ch].tokens > 0)
      ensures subs == if ok then old(subs)[ch := old(subs)[ch].(tokens := old(subs)[ch].tokens - 1)] else old(subs)
    {
      ok := ch in subs && subs[ch].tokens > 0;
      if ok {
        subs := subs[ch := subs[ch].(tokens := subs[ch].tokens - 1)];
      }
    }
  }

  lemma SomeChannel(s: set<nat>)
    ensures s == {} || exists x: nat :: x in s
  {
    if !exists x: nat :: x in s {
      assert s == {};
    }
  }

  /** A burst is one token: notifying again before the token is taken changes nothing, and other chats are never
      touched. */
  lemma BurstIsCoalesced(subs: map<nat, Sub>, jid: string)
    requires forall ch | ch in subs :: subs[ch].tokens <= 1
    ensures Notified(Notified(subs, jid), jid) == Notified(subs, jid)
    ensures forall ch | ch in subs ::
              Notified(subs, jid)[ch].tokens == if subs[ch].jid == jid then 1 else subs[ch].tokens
  {
  }
}

/** The life of a wake-up, from the commit to the client's next look at the database. */
module WakeProtocol {
  import opened Text
  import Changes

  /** Subscribed: "ready" is not sent yet. Holding: a token was taken and "changed" is not sent yet. Gone: the
      watcher has left its loop, the subscription is still listed. */
  datatype Phase = Subscribed | Listening | Holding | Gone

  /** snapshot is the version the client last saw; unread counts the events sent since then; notifies counts the
      Notify calls that found this subscription. */
  datatype Watch = Watch(
    jid: string,
    phase: Phase,
    tokens: nat,
    unread: nat,
    snapshot: nat,
    changed: nat,
    notifies: nat)

  /** A Notify call that holds the lock: the subscriptions it has not reached yet. */
  datatype Call = Call(jid: string, todo: set<nat>)

  /** Versions count the commits of a chat. */
  datatype State = State(
    committed: map<string, nat>,
    notified: map<string, nat>,
    call: Option<Call>,
    watches: map<nat, Watch>)

  function At(m: map<string, nat>, jid: string): nat {
    if jid in m then m[jid] else 0
  }

  datatype Action =
    | Commit(jid: string)
    | NotifyBegin(jid: string, version: nat)
    | NotifyReach(w: nat)
    | NotifyEnd
    | Subscribe(w: nat, jid: string, snapshot: nat)
    | SendReady(w: nat)
    | Receive(w: nat)
    | SendChanged(w: nat)
    | Look(w: nat)
    | Leave(w: nat)
    | Unsubscribe(w: nat)

  predicate Enabled(s: State, a: Action) {
    match a
    case Commit(_) => true
    case NotifyBegin(jid, version) => s.call.None? && version <= At(s.committed, jid)
    case NotifyReach(w) => s.call.Some? && w in s.call.value.todo && w in s.watches
    case NotifyEnd => s.call.Some? && s.call.value.todo == {}
    case Subscribe(w, jid, snapshot) => s.call.None? && w !in s.watches && snapshot <= At(s.committed, jid)
    case SendReady(w) => w in s.watches && s.watches[w].phase.Subscribed?
    case Receive(w) => w in s.watches && s.watches[w].phase.Listening? && s.watches[w].tokens > 0
    case SendChanged(w) => w in s.watches && s.watches[w].phase.Holding?
    case Look(w) => w in s.watches
    case Leave(w) => w in s.watches && !s.watches[w].phase.Gone?
    case Unsubscribe(w) => s.call.None? && w in s.watches && s.watches[w].phase.Gone?
  }

  /** The subscriptions of one chat. */
  function Selected(s: State, jid: string): set<nat> {
    set w | w in s.watches && s.watches[w].jid == jid
  }

  function Set(s: State, w: nat, watch: Watch): State {
    s.(watches := s.watches[w := watch])
  }

  function Next(s: State, a: Action): State {
    if !Enabled(s, a) then s
    else match a
      case Commit(jid) => s.(committed := s.committed[jid := At(s.committed, jid) + 1])
      case NotifyBegin(jid, version) =>
        var todo := Selected(s, jid);
        s.(notified := s.notified[jid := if version <= At(s.notified, jid) then At(s.notified, jid) else version],
           call := Some(Call(jid, todo)),
           watches := map w | w in s.watches ::
             if w in todo then s.watches[w].(notifies := s.watches[w].notifies + 1) else s.watches[w])
      case NotifyReach(w) =>
        Set(s, w, s.watches[w].(tokens := Changes.TrySend(s.watches[w].tokens)))
        .(call := Some(s.call.value.(todo := s.call.value.todo - {w})))
      case NotifyEnd => s.(call := None)
      case Subscribe(w, jid, snapshot) => Set(s, w, Watch(jid, Subscribed, 0, 0, snapshot, 0, 0))
      case SendReady(w) => Set(s, w, s.watches[w].(phase := Listening, unread := s.watches[w].unread + 1))
      case Receive(w) => Set(s, w, s.watches[w].(phase := Holding, tokens := s.watches[w].tokens - 1))
      case SendChanged(w) =>
        Set(s, w, s.watches[w].(phase := Listening, unread := s.watches[w].unread + 1,
                                changed := s.watches[w].changed + 1))
      case Look(w) => Set(s, w, s.watches[w].(unread := 0, snapshot := At(s.committed, s.watches[w].jid)))
      case Leave(w) => Set(s, w, s.watches[w].(phase := Gone))
      case Unsubscribe(w) => s.(watches := s.watches - {w})
  }

  function Exec(s: State, schedule: seq<Action>): State {
    if schedule == [] then s
    else Next(Exec(s, schedule[..|schedule| - 1]), schedule[|schedule| - 1])
  }

  predicate Reaching(s: State, w: nat) {
    s.call.Some? && w in s.call.value.todo
  }

  /** The client will look again, or somebody is about to make it. */
  predicate Aware(s: State, w: nat)
    requires w in s.watches
  {
    var x := s.watches[w];
    || At(s.notified, x.jid) <= x.snapshot
    || x.tokens > 0
    || x.phase.Subscribed? || x.phase.Holding?
    || x.unread > 0
    || Reaching(s, w)
  }

  predicate Counted(s: State, w: nat)
    requires w in s.watches
  {
    var x := s.watches[w];
    && x.tokens <= 1 && x.unread <= x.changed + (if x.phase.Subscribed? then 0 else 1)
    && x.changed + x.tokens + (if x.phase.Holding? then 1 else 0) + (if Reaching(s, w) then 1 else 0) <= x.notifies
  }

  predicate Inv(s: State) {
    && (forall jid | jid in s.notified :: At(s.notified, jid) <= At(s.committed, jid))
    && (s.call.Some? ==> forall w | w in s.call.value.todo :: w in s.watches && s.watches[w].jid == s.call.value.jid)
    && (forall w | w in s.watches :: Counted(s, w))
    && (forall w | w in s.watches && !s.watches[w].phase.Gone? :: Aware(s, w))
  }

  lemma StepCounts(s: State, a: Action, w: nat)
    requires Inv(s) && w in Next(s, a).watches
    ensures Counted(Next(s, a), w)
  {
    if w in s.watches {
      assert Counted(s, w);
    }
  }

  lemma StepAware(s: State, a: Action, w: nat)
    requires Inv(s) && w in Next(s, a).watches && !Next(s, a).watches[w].phase.Gone?
    ensures Aware(Next(s, a), w)
  {
    if w in s.watches {
      assert Aware(s, w) && Counted(s, w);
      var jid := s.watches[w].jid;
      assert jid in s.notified ==> At(s.notified, jid) <= At(s.committed, jid);
    }
  }

  lemma StepKeepsInv(s: State, a: Action)
    requires Inv(s)
    ensures Inv(Next(s, a))
  {
    var s' := Next(s, a);
    forall w | w in s'.watches ensures Counted(s', w) {
      StepCounts(s, a, w);
    }
    forall w | w in s'.watches && !s'.watches[w].phase.Gone? ensures Aware(s', w) {
      StepAware(s, a, w);
    }
  }

  lemma {:induction false} InvAlways(s: State, schedule: seq<Action>)
    requires Inv(s)
    ensures Inv(Exec(s, schedule))
  {
    if schedule != [] {
      InvAlways(s, schedule[..|schedule| - 1]);
      StepKeepsInv(Exec(s, schedule[..|schedule| - 1]), schedule[|schedule| - 1]);
    }
  }

  const START := State(map[], map[], None, map[])

  /** No lost wake-up. In every reachable state and for every live watcher: if a notified commit is newer than what
      its client last saw, a token is buffered, or an event is still to be sent or to be acted on, or the Notify
      call is still on its way. The buffer never exceeds one, and there are never more "changed" events than
      Notify calls, nor more unread events than those and the "ready". */
  lemma NoLostWakeUp(schedule: seq<Action>, w: nat)
    requires w in Exec(START, schedule).watches
    ensures var s := Exec(START, schedule);
            var x := s.watches[w];
            && (!x.phase.Gone? && x.snapshot < At(s.notified, x.jid) ==>
                  x.tokens == 1 || x.phase.Subscribed? || x.phase.Holding? || x.unread > 0 || Reaching(s, w))
            && x.tokens <= 1 && x.changed <= x.notifies && x.unread <= x.changed + 1
  {
    InvAlways(START, schedule);
    var s := Exec(START, schedule);
    assert Counted(s, w);
    assert !s.watches[w].phase.Gone? ==> Aware(s, w);
  }

  /** So a watcher with nothing to do has a client that has seen every notified commit. */
  lemma IdleClientIsUpToDate(schedule: seq<Action>, w: nat)
    requires var s := Exec(START, schedule);
             && w in s.watches && s.watches[w].phase.Listening?
             && s.watches[w].tokens == 0 && s.watches[w].unread == 0 && s.call.None?
    ensures var s := Exec(START, schedule); At(s.notified, s.watches[w].jid) <= s.watches[w].snapshot
  {
    NoLostWakeUp(schedule, w);
  }
}

/** The class Changes.Hub takes the steps of WakeProtocol. */
module WakeHub {
  import opened Text
  import opened WakeProtocol
  import Changes

  /** What the class Changes.Hub holds. */
  function SubsOf(s: State): map<nat, Changes.Sub> {
    map w | w in s.watches :: Changes.Sub(s.watches[w].jid, s.watches[w].tokens)
  }

  /** Each step on a subscription is what the hub's method does: a fresh one has no token, a received one is gone, and a
      removed one is no longer there. */
  lemma HubSteps(s: State, w: nat, jid: string, snapshot: nat)
    ensures s.call.None? && w !in s.watches && snapshot <= At(s.committed, jid) ==>
              SubsOf(Next(s, Subscribe(w, jid, snapshot))) == SubsOf(s)[w := Changes.Sub(jid, 0)]
    ensures w in s.watches && s.watches[w].phase.Listening? && s.watches[w].tokens > 0 ==>
              SubsOf(Next(s, Receive(w))) == SubsOf(s)[w := SubsOf(s)[w].(tokens := SubsOf(s)[w].tokens - 1)]
    ensures w in s.watches && !s.watches[w].phase.Gone? && s.call.None? ==>
              SubsOf(Next(Next(s, Leave(w)), Unsubscribe(w))) == SubsOf(s) - {w}
  {
  }

  lemma ExecAppend(s: State, schedule: seq<Action>, a: Action)
    ensures Exec(s, schedule + [a]) == Next(Exec(s, schedule), a)
  {
    var longer := schedule + [a];
    assert longer[..|longer| - 1] == schedule;
  }

  function AllReached(watches: map<nat, Watch>, todo: set<nat>): map<nat, Watch> {
    map w | w in watches :: if w in todo then Reached(watches[w]) else watches[w]
  }

  /** The loop of Notify, in some order. */
  lemma {:induction false} ReachAll(s: State, before: seq<Action>, todo: set<nat>) returns (schedule: seq<Action>)
    requires Exec(s, before).call.Some? && Exec(s, before).call.value.todo == todo
    requires todo <= Exec(s, before).watches.Keys
    ensures Exec(s, schedule).call == Some(Exec(s, before).call.value.(todo := {}))
    ensures Exec(s, schedule).committed == Exec(s, before).committed
            && Exec(s, schedule).notified == Exec(s, before).notified
    ensures Exec(s, schedule).watches == AllReached(Exec(s, before).watches, todo)
    decreases |todo|
  {
    schedule := before;
    if todo != {} {
      Changes.SomeChannel(todo);
      var w: nat :| w in todo;
      ExecAppend(s, before, NotifyReach(w));
      schedule := ReachAll(s, before + [NotifyReach(w)], todo - {w});
    }
  }

  function Reached(x: Watch): Watch {
    x.(tokens := Changes.TrySend(x.tokens))
  }

  /** A whole Notify is a schedule that does to the subscriptions what the hub's method does, whatever the order of its
      loop. */
  lemma NotifyIsASchedule(s: State, jid: string, version: nat) returns (schedule: seq<Action>)
    requires s.call.None? && version <= At(s.committed, jid)
    ensures var s' := Exec(s, schedule);
            && At(s'.notified, jid) == (if At(s.notified, jid) < version then version else At(s.notified, jid))
            && s'.watches.Keys == s.watches.Keys
            && forall w | w in s.watches ::
                 s'.watches[w].notifies == s.watches[w].notifies + if s.watches[w].jid == jid then 1 else 0
    ensures SubsOf(Exec(s, schedule)) == Changes.Notified(SubsOf(s), jid)
    ensures Exec(s, schedule).call.None? && Exec(s, schedule).committed == s.committed
  {
    ExecAppend(s, [], NotifyBegin(jid, version));
    var begin := [] + [NotifyBegin(jid, version)];
    var reached := ReachAll(s, begin, Selected(s, jid));
    ExecAppend(s, reached, NotifyEnd);
    schedule := reached + [NotifyEnd];
  }

  // ---------------------------------------------------------------- every client can catch up

  /** Nothing is left to do for this subscription. */
  predicate Idle(x: Watch) {
    x.phase.Gone? || (x.phase.Listening? && x.tokens == 0 && x.unread == 0)
  }

  predicate AllIdle(s: State) {
    s.call.None? && forall w | w in s.watches :: Idle(s.watches[w])
  }

  /** Only the watch of w is different. */
  predicate OnlyMoved(s: State, s': State, w: nat) {
    && s'.call == s.call && s'.committed == s.committed && s'.notified == s.notified
    && w in s'.watches && s'.watches.Keys == s.watches.Keys
    && forall v | v in s.watches && v != w :: s'.watches[v] == s.watches[v]
  }

  lemma StepMoved(s0: State, s: State, w: nat, a: Action)
    requires w in s0.watches && OnlyMoved(s0, s, w)
    requires a in {SendReady(w), SendChanged(w), Receive(w), Look(w)}
    ensures OnlyMoved(s0, Next(s, a), w)
  {
  }

  /** Up to the next wait for a token. */
  lemma Listens(s: State, before: seq<Action>, w: nat) returns (after: seq<Action>)
    requires var s0 := Exec(s, before); w in s0.watches && !s0.watches[w].phase.Gone?
    ensures var s0, s1 := Exec(s, before), Exec(s, after);
            OnlyMoved(s0, s1, w) && s1.watches[w].phase.Listening? && s1.watches[w].tokens == s0.watches[w].tokens
  {
    after := before;
    var phase := Exec(s, before).watches[w].phase;
    if !phase.Listening? {
      var a := if phase.Subscribed? then SendReady(w) else SendChanged(w);
      ExecAppend(s, before, a);
      after := before + [a];
    }
  }

  lemma Settles(s: State, before: seq<Action>, w: nat) returns (after: seq<Action>)
    requires var s0 := Exec(s, before); w in s0.watches && !s0.watches[w].phase.Gone? && s0.watches[w].tokens <= 1
    ensures OnlyMoved(Exec(s, before), Exec(s, after), w)
    ensures Idle(Exec(s, after).watches[w]) && Exec(s, after).watches[w].tokens == 0
  {
    after := Listens(s, before, w);
    if Exec(s, after).watches[w].tokens == 1 {
      ExecAppend(s, after, Receive(w));
      StepMoved(Exec(s, before), Exec(s, after), w, Receive(w));
      after := after + [Receive(w)];
      ExecAppend(s, after, SendChanged(w));
      StepMoved(Exec(s, before), Exec(s, after), w, SendChanged(w));
      after := after + [SendChanged(w)];
    }
    ExecAppend(s, after, Look(w));
    StepMoved(Exec(s, before), Exec(s, after), w, Look(w));
    after := after + [Look(w)];
  }

  function BusyOnes(s: State): set<nat> {
    set w | w in s.watches && !Idle(s.watches[w])
  }

  lemma {:induction false} AllSettle(s: State, before: seq<Action>) returns (after: seq<Action>)
    requires Exec(s, before).call.None?
    requires forall w | w in Exec(s, before).watches :: Exec(s, before).watches[w].tokens <= 1
    ensures AllIdle(Exec(s, after)) && Exec(s, after).notified == Exec(s, before).notified
    ensures Exec(s, after).committed == Exec(s, before).committed
    ensures Exec(s, after).watches.Keys == Exec(s, before).watches.Keys
    decreases |BusyOnes(Exec(s, before))|
  {
    after := before;
    var s0 := Exec(s, before);
    if w: nat :| w in BusyOnes(s0) {
      after := Settles(s, before, w);
      assert BusyOnes(Exec(s, after)) == BusyOnes(s0) - {w};
      forall v | v in Exec(s, after).watches ensures Exec(s, after).watches[v].tokens <= 1 {
        assert v == w || Exec(s, after).watches[v] == s0.watches[v];
      }
      after := AllSettle(s, after);
    } else {
      assert forall w: nat | w in s0.watches :: w !in BusyOnes(s0);
    }
  }

  /** The Notify call under way, if there is one, reaches everybody and returns. */
  lemma CallEnds(s: State) returns (future: seq<Action>)
    requires Inv(s)
    ensures var s' := Exec(s, future);
            && s'.call.None? && s'.notified == s.notified && s'.committed == s.committed
            && s'.watches.Keys == s.watches.Keys
  {
    future := [];
    if s.call.Some? {
      assert forall w | w in s.call.value.todo :: w in s.watches;
      var reached := ReachAll(s, [], s.call.value.todo);
      ExecAppend(s, reached, NotifyEnd);
      future := reached + [NotifyEnd];
    }
  }

  /** From every state of a run the notifications under way can reach their end and every client can catch up with
      them; then every live client has seen every notified commit. */
  lemma EveryClientCanCatchUp(s: State) returns (future: seq<Action>)
    requires Inv(s)
    ensures var s' := Exec(s, future);
            && AllIdle(s') && s'.notified == s.notified && s'.committed == s.committed
            && s'.watches.Keys == s.watches.Keys
            && forall w | w in s'.watches && !s'.watches[w].phase.Gone? ::
                 At(s'.notified, s'.watches[w].jid) <= s'.watches[w].snapshot
  {
    var ended := CallEnds(s);
    InvAlways(s, ended);
    forall w | w in Exec(s, ended).watches ensures Exec(s, ended).watches[w].tokens <= 1 {
      assert Counted(Exec(s, ended), w);
    }
    future := AllSettle(s, ended);
    InvAlways(s, future);
    forall w | w in Exec(s, future).watches && !Exec(s, future).watches[w].phase.Gone?
      ensures At(Exec(s, future).notified, Exec(s, future).watches[w].jid) <= Exec(s, future).watches[w].snapshot
    {
      assert Aware(Exec(s, future), w) && Idle(Exec(s, future).watches[w]);
    }
  }

  lemma {:induction false} ExecConcat(s: State, a: seq<Action>, b: seq<Action>)
    ensures Exec(s, a + b) == Exec(Exec(s, a), b)
    decreases |b|
  {
    if b == [] {
      assert a + b == a;
    } else {
      assert a + b == (a + b[..|b| - 1]) + [b[|b| - 1]];
      ExecAppend(s, a + b[..|b| - 1], b[|b| - 1]);
      ExecConcat(s, a, b[..|b| - 1]);
    }
  }

  /** From a commit to the clients: after it, its Notify can run, and every live client of the chat can come to see
      it. */
  lemma CommitCanReachEveryClient(s: State, jid: string) returns (future: seq<Action>)
    requires Inv(s) && s.call.None?
    ensures var s' := Exec(Next(s, Commit(jid)), future);
            && s'.watches.Keys == s.watches.Keys && At(s'.committed, jid) == At(s.committed, jid) + 1
            && forall w | w in s'.watches && !s'.watches[w].phase.Gone? && s'.watches[w].jid == jid ::
                 At(s.committed, jid) < s'.watches[w].snapshot
  {
    var s1 := Next(s, Commit(jid));
    StepKeepsInv(s, Commit(jid));
    var notify := NotifyIsASchedule(s1, jid, At(s.committed, jid) + 1);
    InvAlways(s1, notify);
    var settle := EveryClientCanCatchUp(Exec(s1, notify));
    ExecConcat(s1, notify, settle);
    future := notify + settle;
  }
}
