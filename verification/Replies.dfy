/** Which reply a backfill request gets. Requests of all connections share one phone and one channel of history-sync
    results, and a result does not say which request it answers; the executor takes the first one that holds the chat
    it asked about. */
module ReplyProtocol {
  import opened Text
  import Shutdown
  import Backfill

  /** A request is known by its place in chats, the chats that were asked about, and so is its reply: owed is what the
      phone has not answered, queue what is in the channel. waiting says which request a connection waits for, got which
      reply a request took, givenUp which waits ended without one. */
  datatype State = State(
    holder: Option<nat>,
    chats: seq<string>,
    owed: set<nat>,
    queue: seq<nat>,
    waiting: map<nat, nat>,
    got: map<nat, nat>,
    givenUp: set<nat>)

  const START := State(None, [], {}, [], map[], map[], {})

  /** GiveUp is the end of a wait by its timer or by a cancelled context. */
  datatype Action =
    | Lock(c: nat)
    | Send(c: nat, chat: string)
    | Answer(m: nat)
    | Take(c: nat)
    | GiveUp(c: nat)
    | Unlock(c: nat)

  predicate Enabled(s: State, a: Action) {
    match a
    case Lock(c) => s.holder.None?
    case Send(c, _) => s.holder == Some(c) && c !in s.waiting
    case Answer(m) => m in s.owed
    case Take(c) => c in s.waiting && s.queue != []
    case GiveUp(c) => c in s.waiting
    case Unlock(c) => s.holder == Some(c) && c !in s.waiting
  }

  /** The chats of two requests are the same. */
  predicate SameChat(s: State, m: nat, n: nat) {
    m < |s.chats| && n < |s.chats| && s.chats[m] == s.chats[n]
  }

  function Next(s: State, a: Action): State {
    if !Enabled(s, a) then s
    else match a
      case Lock(c) => s.(holder := Some(c))
      case Send(c, chat) =>
        var n := |s.chats|;
        s.(chats := s.chats + [chat], owed := s.owed + {n}, waiting := s.waiting[c := n])
      case Answer(m) =>
        s.(owed := s.owed - {m}, queue := if |s.queue| < Shutdown.CAPACITY then s.queue + [m] else s.queue)
      case Take(c) =>
        var n, m := s.waiting[c], s.queue[0];
        if SameChat(s, m, n) then s.(queue := s.queue[1..], waiting := s.waiting - {c}, got := s.got[n := m])
        else s.(queue := s.queue[1..])
      case GiveUp(c) => s.(waiting := s.waiting - {c}, givenUp := s.givenUp + {s.waiting[c]})
      case Unlock(c) => s.(holder := None)
  }

  function Exec(s: State, schedule: seq<Action>): State
    decreases |schedule|
  {
    if schedule == [] then s else Exec(Next(s, schedule[0]), schedule[1..])
  }

  /** The reply to this request may still be taken. */
  predicate Outstanding(s: State, m: nat) {
    m in s.owed || m in s.queue
  }

  /** An earlier wait for this chat ended without a reply. */
  ghost predicate Abandoned(s: State, n: nat) {
    exists m: nat :: m in s.givenUp && m <= n && SameChat(s, m, n)
  }

  /** Only the holder of the lock waits, and for the latest request. */
  ghost predicate OneWaits(s: State) {
    forall c | c in s.waiting :: s.holder == Some(c) && s.waiting[c] + 1 == |s.chats|
  }

  predicate IsWaited(s: State, n: nat) {
    n in s.waiting.Values
  }

  /** The phone answers a request once, and the channel has eight places. */
  ghost predicate OneReply(s: State) {
    Distinct(s.queue) && |s.queue| <= 8 && forall m | m in s.queue :: m !in s.owed
  }

  ghost predicate Explained(s: State, m: nat) {
    m < |s.chats| && (IsWaited(s, m) || Abandoned(s, m))
  }

  ghost predicate Inv(s: State) {
    && OneWaits(s) && OneReply(s)
    && (forall m: nat | Outstanding(s, m) :: Explained(s, m))
    && (forall n | n in s.got :: s.got[n] <= n && SameChat(s, s.got[n], n) && (s.got[n] == n || Abandoned(s, s.got[n])))
  }

  lemma AbandonedKept(s: State, a: Action, n: nat)
    requires Abandoned(s, n)
    ensures Abandoned(Next(s, a), n)
  {
    var m: nat :| m in s.givenUp && m <= n && SameChat(s, m, n);
    assert m in Next(s, a).givenUp && SameChat(Next(s, a), m, n);
  }

  /** Whoever takes a reply that is not its own waits for a chat whose request was given up. */
  lemma WrongReply(s: State, c: nat)
    requires Inv(s) && Enabled(s, Take(c)) && SameChat(s, s.queue[0], s.waiting[c])
    ensures s.queue[0] <= s.waiting[c]
    ensures s.queue[0] == s.waiting[c] || (Abandoned(s, s.queue[0]) && Abandoned(s, s.waiting[c]))
  {
    var m, n := s.queue[0], s.waiting[c];
    assert Outstanding(s, m) && Explained(s, m);
    if m != n {
      assert !IsWaited(s, m);
      var k: nat :| k in s.givenUp && k <= m && SameChat(s, k, m);
      assert SameChat(s, k, n);
    }
  }

  /** A wait goes on, or it is given up, or its request gets a reply, which is its own or explained. */
  lemma WaitEnds(s: State, a: Action, n: nat)
    requires Inv(s) && IsWaited(s, n) && Outstanding(Next(s, a), n)
    ensures Explained(Next(s, a), n)
  {
    var s' := Next(s, a);
    var c :| c in s.waiting && s.waiting[c] == n;
    if Enabled(s, a) && a.GiveUp? {
      assert n in s'.givenUp && SameChat(s', n, n);
    } else if Enabled(s, a) && a.Take? && SameChat(s, s.queue[0], n) {
      WrongReply(s, a.c);
      if s.queue[0] != n {
        AbandonedKept(s, a, n);
      }
    } else {
      assert c in s'.waiting && s'.waiting[c] == n;
    }
  }

  lemma OutstandingKept(s: State, a: Action, m: nat)
    requires Inv(s) && Outstanding(Next(s, a), m)
    ensures Explained(Next(s, a), m)
  {
    if !Outstanding(s, m) {
      assert a.Send? && Next(s, a).waiting[a.c] == m;
    } else if Abandoned(s, m) {
      AbandonedKept(s, a, m);
    } else {
      WaitEnds(s, a, m);
    }
  }

  lemma GotKept(s: State, a: Action, n: nat)
    requires Inv(s) && n in Next(s, a).got
    ensures var s' := Next(s, a);
            s'.got[n] <= n && SameChat(s', s'.got[n], n) && (s'.got[n] == n || Abandoned(s', s'.got[n]))
  {
    if n in s.got && Next(s, a).got[n] == s.got[n] {
      if s.got[n] != n {
        AbandonedKept(s, a, s.got[n]);
      }
    } else {
      WrongReply(s, a.c);
      if s.queue[0] != n {
        AbandonedKept(s, a, s.queue[0]);
      }
    }
  }

  lemma QueueKept(s: State, a: Action)
    requires OneWaits(s) && OneReply(s) && forall m | m in s.queue :: m < |s.chats|
    ensures OneWaits(Next(s, a)) && OneReply(Next(s, a))
  {
  }

  lemma StepKeepsInv(s: State, a: Action)
    requires Inv(s)
    ensures Inv(Next(s, a))
  {
    forall m | m in s.queue ensures m < |s.chats| {
      assert Outstanding(s, m);
    }
    QueueKept(s, a);
    forall m: nat | Outstanding(Next(s, a), m) ensures Explained(Next(s, a), m) {
      OutstandingKept(s, a, m);
    }
    forall n | n in Next(s, a).got
      ensures var s' := Next(s, a);
              s'.got[n] <= n && SameChat(s', s'.got[n], n) && (s'.got[n] == n || Abandoned(s', s'.got[n]))
    {
      GotKept(s, a, n);
    }
  }

  lemma {:induction false} InvAlways(s: State, schedule: seq<Action>)
    requires Inv(s)
    ensures Inv(Exec(s, schedule))
    decreases |schedule|
  {
    if schedule != [] {
      StepKeepsInv(s, schedule[0]);
      InvAlways(Next(s, schedule[0]), schedule[1..]);
    }
  }

  /** In every interleaving only the holder of the lock waits, and a request takes its own reply, or that of an earlier
      request about the same chat, and then the wait of that request or of one before it was given up. */
  lemma RepliesAreOwn(schedule: seq<Action>, n: nat)
    ensures var s := Exec(START, schedule);
            && OneWaits(s) && |s.queue| <= 8
            && (n in s.got ==> s.got[n] <= n && SameChat(s, s.got[n], n) && (s.got[n] == n || Abandoned(s, s.got[n])))
  {
    InvAlways(START, schedule);
  }

  /** A reply leaves only by being taken, or when it finds all eight places taken; and who takes it gets it exactly
      when it is about the same chat. */
  lemma LeavesExactly(s: State, a: Action, m: nat)
    requires Inv(s) && Outstanding(s, m)
    ensures !Outstanding(Next(s, a), m)
        <==> || (a == Answer(m) && m in s.owed && |s.queue| == 8)
             || (a.Take? && a.c in s.waiting && s.queue != [] && s.queue[0] == m)
    ensures a.Take? && a.c in s.waiting && s.queue != [] && s.queue[0] == m ==>
              var n := s.waiting[a.c];
              if SameChat(s, m, n) then n in Next(s, a).got && Next(s, a).got[n] == m else Next(s, a).got == s.got
  {
    assert Explained(s, m);
    if a.Take? && a.c in s.waiting && s.queue != [] {
      assert forall k | 0 < k < |s.queue| :: s.queue[k] != s.queue[0];
    }
  }

  /** From every state every connection can have its turn: the holder can give up its wait and release the lock. */
  lemma EveryoneCanHaveATurn(s: State, c: nat) returns (schedule: seq<Action>)
    requires Inv(s)
    ensures Exec(s, schedule).holder == Some(c) && c !in Exec(s, schedule).waiting
  {
    schedule := [Lock(c)];
    if s.holder.Some? {
      var h := s.holder.value;
      var s1 := Next(s, GiveUp(h));
      var s2 := Next(s1, Unlock(h));
      assert Exec(s2, [Lock(c)]) == Exec(Next(s2, Lock(c)), []);
      assert Exec(s1, [Unlock(h), Lock(c)]) == Exec(s2, [Unlock(h), Lock(c)][1..]);
      schedule := [GiveUp(h), Unlock(h), Lock(c)];
      assert Exec(s, schedule) == Exec(s1, schedule[1..]) && schedule[1..] == [Unlock(h), Lock(c)];
    } else {
      assert Exec(s, schedule) == Exec(Next(s, Lock(c)), []);
    }
  }

  // ---------------------------------------------------------------- when a request is sure of its own reply

  /** No earlier reply for the chat may still come. */
  ghost predicate Clean(s: State, chat: string) {
    forall m: nat | Outstanding(s, m) && m < |s.chats| :: s.chats[m] != chat
  }

  predicate OwnOrNone(s: State, n: nat) {
    n in s.got ==> s.got[n] == n
  }

  /** Nothing but its own reply can reach a waiting request. */
  ghost predicate Sure(s: State, n: nat) {
    && n < |s.chats| && OwnOrNone(s, n)
    && (IsWaited(s, n) ==> forall m: nat | Outstanding(s, m) && SameChat(s, m, n) :: m == n)
  }

  lemma StaysSure(s: State, a: Action, n: nat)
    requires Inv(s) && Sure(s, n)
    ensures Sure(Next(s, a), n)
  {
    var s' := Next(s, a);
    if Enabled(s, a) && a.Take? {
      assert Outstanding(s, s.queue[0]);
    }
    if IsWaited(s', n) {
      assert IsWaited(s, n);
      forall m: nat | Outstanding(s', m) && SameChat(s', m, n) ensures m == n {
        assert Outstanding(s, m) && SameChat(s, m, n);
      }
    }
  }

  lemma {:induction false} SureForever(s: State, schedule: seq<Action>, n: nat)
    requires Inv(s) && Sure(s, n)
    ensures OwnOrNone(Exec(s, schedule), n)
    decreases |schedule|
  {
    if schedule != [] {
      StepKeepsInv(s, schedule[0]);
      StaysSure(s, schedule[0], n);
      SureForever(Next(s, schedule[0]), schedule[1..], n);
    }
  }

  /** A waiting connection works through the channel until it finds a reply for its chat. */
  lemma {:induction false} TakesWrong(s: State, c: nat) returns (schedule: seq<Action>)
    requires c in s.waiting && exists m :: m in s.queue && SameChat(s, m, s.waiting[c])
    requires s.waiting[c] !in s.queue
    ensures !OwnOrNone(Exec(s, schedule), s.waiting[c])
    decreases |s.queue|
  {
    var s', rest := Next(s, Take(c)), [];
    if SameChat(s, s.queue[0], s.waiting[c]) {
      assert Exec(s', []) == s';
    } else {
      var m :| m in s.queue && SameChat(s, m, s.waiting[c]);
      assert m in s'.queue && SameChat(s', m, s'.waiting[c]);
      rest := TakesWrong(s', c);
    }
    schedule := [Take(c)] + rest;
    assert schedule[1..] == rest;
  }

  /** Without one it empties the channel, and then takes what the phone answers next. */
  lemma {:induction false} TakesNext(s: State, c: nat, m: nat) returns (schedule: seq<Action>)
    requires c in s.waiting && m in s.owed && SameChat(s, m, s.waiting[c])
    requires forall k | k in s.queue :: !SameChat(s, k, s.waiting[c])
    ensures var s' := Exec(s, schedule); s.waiting[c] in s'.got && s'.got[s.waiting[c]] == m
    decreases |s.queue|
  {
    if s.queue == [] {
      schedule := [Answer(m), Take(c)];
      var s' := Next(s, Answer(m));
      assert Exec(s, schedule) == Exec(s', schedule[1..]) && schedule[1..] == [Take(c)];
      assert Exec(s', [Take(c)]) == Exec(Next(s', Take(c)), []);
    } else {
      var s' := Next(s, Take(c));
      assert !SameChat(s, s.queue[0], s.waiting[c]) && s'.queue == s.queue[1..];
      forall k | k in s'.queue ensures !SameChat(s', k, s'.waiting[c]) {
        assert k in s.queue;
      }
      var rest := TakesNext(s', c, m);
      schedule := [Take(c)] + rest;
      assert schedule[1..] == rest;
    }
  }

  /** And with nothing else for its chat under way, a request that is sent can get its own reply. */
  lemma OwnReplyCanCome(s: State, c: nat, chat: string) returns (schedule: seq<Action>)
    requires Inv(s) && Enabled(s, Send(c, chat)) && Clean(s, chat)
    ensures var s' := Exec(Next(s, Send(c, chat)), schedule); |s.chats| in s'.got && s'.got[|s.chats|] == |s.chats|
  {
    var s' := Next(s, Send(c, chat));
    forall k | k in s'.queue ensures !SameChat(s', k, |s.chats|) {
      assert Outstanding(s, k) && Explained(s, k);
    }
    schedule := TakesNext(s', c, |s.chats|);
  }

  lemma UncleanGetsWrong(s: State, c: nat, chat: string) returns (schedule: seq<Action>)
    requires Inv(s) && Enabled(s, Send(c, chat)) && !Clean(s, chat)
    ensures !OwnOrNone(Exec(Next(s, Send(c, chat)), schedule), |s.chats|)
  {
    var n, s' := |s.chats|, Next(s, Send(c, chat));
    assert s'.waiting[c] == n;
    forall k | k in s.queue ensures k < n {
      assert Outstanding(s, k);
    }
    if k :| k in s'.queue && SameChat(s', k, n) {
      schedule := TakesWrong(s', c);
    } else {
      var m: nat :| Outstanding(s, m) && m < |s.chats| && s.chats[m] == chat;
      assert SameChat(s', m, n);
      schedule := TakesNext(s', c, m);
    }
  }

  /** A request that is sent now can get no reply but its own, whatever happens, if and only if no reply for its chat
      is owed or in the channel. The lock is what makes this hold until the wait ends. */
  lemma OwnReplyExactly(s: State, c: nat, chat: string)
    requires Inv(s) && Enabled(s, Send(c, chat))
    ensures (forall schedule :: OwnOrNone(Exec(Next(s, Send(c, chat)), schedule), |s.chats|)) <==> Clean(s, chat)
  {
    var s' := Next(s, Send(c, chat));
    if Clean(s, chat) {
      SentIsSure(s, c, chat);
      StepKeepsInv(s, Send(c, chat));
      forall schedule ensures OwnOrNone(Exec(s', schedule), |s.chats|) {
        SureForever(s', schedule, |s.chats|);
      }
    } else {
      var schedule := UncleanGetsWrong(s, c, chat);
      assert !OwnOrNone(Exec(s', schedule), |s.chats|);
    }
  }

  lemma SentIsSure(s: State, c: nat, chat: string)
    requires Inv(s) && Enabled(s, Send(c, chat)) && Clean(s, chat)
    ensures Sure(Next(s, Send(c, chat)), |s.chats|)
  {
    var s' := Next(s, Send(c, chat));
    assert |s.chats| !in s.got;
    forall m: nat | Outstanding(s', m) && SameChat(s', m, |s.chats|) ensures m == |s.chats| {
      assert m == |s.chats| || Outstanding(s, m);
    }
  }

  // ---------------------------------------------------------------- the wait itself

  function Arrivals(queue: seq<nat>, replies: nat -> Backfill.Reply): seq<Backfill.Arrival> {
    if queue == [] then [] else [Backfill.Item(replies(queue[0]))] + Arrivals(queue[1..], replies)
  }

  function Takes(c: nat, k: nat): seq<Action> {
    if k == 0 then [] else [Take(c)] + Takes(c, k - 1)
  }

  /** Where the replies that answer for a chat are those to the requests about it, taking items until there is a reply
      is what the wait of a run computes from the channel. */
  lemma {:induction false} TakesAreTheWait(s: State, c: nat, n: nat, replies: nat -> Backfill.Reply) returns (k: nat)
    requires c in s.waiting && s.waiting[c] == n < |s.chats| && exists m :: m in s.queue && SameChat(s, m, n)
    requires forall m | m in s.queue :: Backfill.Answers(replies(m), s.chats[n]) <==> SameChat(s, m, n)
    ensures var s' := Exec(s, Takes(c, k));
            && n in s'.got
            && Backfill.WaitResult(s.chats[n], Arrivals(s.queue, replies)) == Backfill.Got(replies(s'.got[n]))
    decreases |s.queue|
  {
    var s', arrivals := Next(s, Take(c)), Arrivals(s.queue, replies);
    assert arrivals[0] == Backfill.Item(replies(s.queue[0])) && arrivals[1..] == Arrivals(s.queue[1..], replies);
    var j := 0;
    if SameChat(s, s.queue[0], n) {
      assert Exec(s', []) == s' && s'.got[n] == s.queue[0];
    } else {
      StillAnswers(s, c, n, replies);
      j := TakesAreTheWait(s', c, n, replies);
    }
    k := j + 1;
    assert Takes(c, k)[0] == Take(c) && Takes(c, k)[1..] == Takes(c, j);
  }

  /** After an item that is passed over, the rest of the channel still holds the reply. */
  lemma StillAnswers(s: State, c: nat, n: nat, replies: nat -> Backfill.Reply)
    requires c in s.waiting && s.waiting[c] == n < |s.chats| && exists m :: m in s.queue && SameChat(s, m, n)
    requires forall m | m in s.queue :: Backfill.Answers(replies(m), s.chats[n]) <==> SameChat(s, m, n)
    requires !SameChat(s, s.queue[0], n)
    ensures var s' := Next(s, Take(c));
            && s'.queue == s.queue[1..] && s'.chats == s.chats && s'.waiting == s.waiting
            && (exists m :: m in s'.queue && SameChat(s', m, n))
            && forall m | m in s'.queue :: Backfill.Answers(replies(m), s'.chats[n]) <==> SameChat(s', m, n)
  {
    var s' := Next(s, Take(c));
    var m :| m in s.queue && SameChat(s, m, n);
    assert m in s'.queue && SameChat(s', m, n);
    forall x | x in s'.queue ensures Backfill.Answers(replies(x), s'.chats[n]) <==> SameChat(s', x, n) {
      assert x in s.queue;
    }
  }
}
