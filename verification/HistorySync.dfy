/** handleHistorySync of auth.go and MergeStats of backfill.go: what happens to the conversations and messages
    of one history-sync event, and what the counters say about it. */
module HistorySync {
  import opened Text
  import opened Types
  import opened Store
  import opened Listener
  import Summary

  /** What client.ParseWebMessage makes of a valid web message, with what the download, the configuration and the
      store will meet. */
  datatype Parsed =
    | ParseError
    | NoMessage
    | Message(ev: Event, hasMedia: bool, download: Download, reloaded: Option<map<string, Group>>, env: Env)

  /** What one dispatched message came to. */
  datatype Call = Call(error: Option<Error>, result: Result)

  /** Everything the walk over one event meets that it does not decide. Configuration and cancellation may
      change while it runs, so they are asked by position. */
  datatype World = World(
    jids: map<string, string>,
    allowed: set<(nat, string)>,
    parsed: map<(nat, nat), Parsed>,
    cancelledAtConversation: set<nat>,
    cancelledAtMessage: map<nat, set<nat>>)

  /** What the parser makes of message j of conversation i. */
  function ParsedAt(w: World, i: nat, j: nat): Parsed {
    if (i, j) in w.parsed then w.parsed[(i, j)] else ParseError
  }

  /** The messages of conversation i at which the context is found cancelled. */
  function Stops(w: World, i: nat): set<nat> {
    if i in w.cancelledAtMessage then w.cancelledAtMessage[i] else {}
  }

  /** None of the first n messages of conversation i is one of them. */
  predicate NotStopped(w: World, i: nat, n: nat) {
    n == 0 || (n - 1 !in Stops(w, i) && NotStopped(w, i, n - 1))
  }

  /** The counters that do not depend on the store. */
  datatype Walk = Walk(
    allowed: int,
    messages: int,
    dispatched: int,
    skippedConversations: int,
    skippedMessages: int,
    parseErrors: int)

  /** The counters of what the store answered. */
  datatype Rows = Rows(inserted: int, updated: int, hydrated: int)

  datatype Stats = Stats(syncType: string, conversations: int, walk: Walk, rows: Rows)

  const NO_WALK := Walk(0, 0, 0, 0, 0, 0)
  const NO_ROWS := Rows(0, 0, 0)
  const NO_STATS := Stats("", 0, NO_WALK, NO_ROWS)

  function Plus(a: Walk, b: Walk): Walk {
    Walk(a.allowed + b.allowed, a.messages + b.messages, a.dispatched + b.dispatched,
         a.skippedConversations + b.skippedConversations, a.skippedMessages + b.skippedMessages,
         a.parseErrors + b.parseErrors)
  }

  // ---------------------------------------------------------------- what a walk is

  function OfMessage(m: Option<Summary.WebMessage>, p: Parsed): Walk {
    if !Summary.Valid(m) || p.NoMessage? then Walk(0, 1, 0, 0, 1, 0)
    else if p.ParseError? then Walk(0, 1, 0, 0, 0, 1)
    else Walk(0, 1, 1, 0, 0, 0)
  }

  /** A message is dispatched exactly when it has a key, a body and a time and parses to something, a parse error
      exactly when it has them and does not parse, and skipped otherwise; each one is counted once. */
  lemma OneClassEach(m: Option<Summary.WebMessage>, p: Parsed)
    ensures var walk, whole := OfMessage(m, p),
              m.Some? && m.value.keyID != "" && m.value.hasBody == true && Summary.AsInt64(m.value.timestamp) != 0;
            && walk.messages == 1 && walk.allowed == 0 && walk.skippedConversations == 0
            && walk.dispatched == (if whole && p.Message? then 1 else 0)
            && walk.parseErrors == (if whole && p == ParseError then 1 else 0)
            && walk.skippedMessages == (if whole && p != NoMessage then 0 else 1)
  {
  }

  /** The first n messages of conversation i. */
  function OfMessages(w: World, i: nat, ms: seq<Option<Summary.WebMessage>>, n: nat): Walk
    requires n <= |ms|
  {
    if n == 0 then NO_WALK else Plus(OfMessages(w, i, ms, n - 1), OfMessage(ms[n - 1], ParsedAt(w, i, n - 1)))
  }

  predicate Admitted(w: World, i: nat, conv: Summary.Conversation) {
    var raw := TrimSpace(conv.id);
    raw != "" && raw in w.jids && (i, w.jids[raw]) in w.allowed
  }

  function OfConversation(w: World, i: nat, conv: Option<Summary.Conversation>): Walk {
    if conv.None? then Walk(0, 0, 0, 1, 0, 0)
    else if !Admitted(w, i, conv.value) then Walk(0, 0, 0, 1, |conv.value.messages|, 0)
    else Plus(Walk(1, 0, 0, 0, 0, 0), OfMessages(w, i, conv.value.messages, |conv.value.messages|))
  }

  /** A conversation is walked through exactly when it has an id that is not blank and parses to a chat which is allowed
      at that moment; otherwise it is skipped with all its messages. */
  lemma WalkedExactly(w: World, i: nat, conv: Option<Summary.Conversation>)
    ensures var walk := OfConversation(w, i, conv);
            var walked := conv != None && TrimSpace(conv.value.id) != "" && TrimSpace(conv.value.id) in w.jids
                          && (i, w.jids[TrimSpace(conv.value.id)]) in w.allowed;
            && walk.allowed == (if walked then 1 else 0)
            && walk.skippedConversations == (if walked then 0 else 1)
            && (!walked && conv != None ==> walk.skippedMessages == |conv.value.messages| && walk.messages == 0)
            && (!walked ==> walk.dispatched == 0 && walk.parseErrors == 0)
  {
    if conv.Some? && Admitted(w, i, conv.value) {
      OnlyMessages(w, i, conv.value.messages, |conv.value.messages|);
    }
  }

  lemma {:induction false} OnlyMessages(w: World, i: nat, ms: seq<Option<Summary.WebMessage>>, n: nat)
    requires n <= |ms|
    ensures OfMessages(w, i, ms, n).allowed == 0 && OfMessages(w, i, ms, n).skippedConversations == 0
    ensures OfMessages(w, i, ms, n).messages == n
  {
    if n > 0 {
      OnlyMessages(w, i, ms, n - 1);
      OneClassEach(ms[n - 1], ParsedAt(w, i, n - 1));
    }
  }

  /** The first n conversations. */
  function OfConversations(w: World, convs: seq<Option<Summary.Conversation>>, n: nat): Walk
    requires n <= |convs|
  {
    if n == 0 then NO_WALK else Plus(OfConversations(w, convs, n - 1), OfConversation(w, n - 1, convs[n - 1]))
  }

  function MessagesOf(conv: Option<Summary.Conversation>): seq<Option<Summary.WebMessage>> {
    if conv.None? then [] else conv.value.messages
  }

  /** The messages of the first n conversations. */
  function TotalMessages(convs: seq<Option<Summary.Conversation>>, n: nat): nat
    requires n <= |convs|
  {
    if n == 0 then 0 else TotalMessages(convs, n - 1) + |MessagesOf(convs[n - 1])|
  }

  /** Where the walk ended. */
  datatype Stop = Finished | AtConversation(i: nat) | AtMessage(i: nat, j: nat)

  /** No cancellation is noticed in conversation i. */
  ghost predicate Passed(w: World, convs: seq<Option<Summary.Conversation>>, i: nat)
    requires i < |convs|
  {
    && i !in w.cancelledAtConversation
    && (convs[i].Some? && Admitted(w, i, convs[i].value) ==>
          NotStopped(w, i, |convs[i].value.messages|))
  }

  /** The walk ends at the first cancellation that it notices, or at the end. */
  ghost predicate IsStop(w: World, convs: seq<Option<Summary.Conversation>>, stop: Stop) {
    match stop
    case Finished => AllPassed(w, convs, |convs|)
    case AtConversation(i) => i < |convs| && AllPassed(w, convs, i) && i in w.cancelledAtConversation
    case AtMessage(i, j) => i < |convs| && AllPassed(w, convs, i) && FirstCancelled(w, i, convs[i], j)
  }

  ghost predicate AllPassed(w: World, convs: seq<Option<Summary.Conversation>>, n: nat)
    requires n <= |convs|
  {
    forall i: nat | i < n :: Passed(w, convs, i)
  }

  /** Message j is the first at which a cancellation is noticed. */
  ghost predicate FirstCancelled(w: World, i: nat, conv: Option<Summary.Conversation>, j: nat) {
    && i !in w.cancelledAtConversation && conv.Some? && Admitted(w, i, conv.value)
    && j < |conv.value.messages| && j in Stops(w, i)
    && NotStopped(w, i, j)
  }

  ghost function WalkUntil(w: World, convs: seq<Option<Summary.Conversation>>, stop: Stop): Walk
    requires IsStop(w, convs, stop)
  {
    match stop
    case Finished => OfConversations(w, convs, |convs|)
    case AtConversation(i) => OfConversations(w, convs, i)
    case AtMessage(i, j) =>
      Plus(Plus(OfConversations(w, convs, i), Walk(1, 0, 0, 0, 0, 0)), OfMessages(w, i, convs[i].value.messages, j))
  }

  // ---------------------------------------------------------------- the walk

  function RowsIn(calls: seq<Call>): Rows {
    if calls == [] then NO_ROWS
    else
      var front, r := RowsIn(calls[..|calls| - 1]), calls[|calls| - 1].result;
      Rows(front.inserted + (if r.inserted then 1 else 0), front.updated + (if r.updated then 1 else 0),
           front.hydrated + (if r.mediaPath != "" then 1 else 0))
  }

  /** The calls that returned an error, which is logged as message_handle_failed. */
  function FailedIn(calls: seq<Call>): nat {
    if calls == [] then 0
    else FailedIn(calls[..|calls| - 1]) + if calls[|calls| - 1].error.Some? then 1 else 0
  }

  /** No call failed exactly when none returned an error, and never more failed than were made. */
  lemma {:induction false} FailedExactly(calls: seq<Call>)
    ensures FailedIn(calls) <= |calls|
    ensures FailedIn(calls) == 0 <==> forall i | 0 <= i < |calls| :: calls[i].error == None
    decreases |calls|
  {
    if calls != [] {
      var front := calls[..|calls| - 1];
      FailedExactly(front);
      assert forall i | 0 <= i < |front| :: front[i] == calls[i];
    }
  }

  lemma OneMoreCall(calls: seq<Call>, c: Call)
    ensures FailedIn(calls + [c]) == FailedIn(calls) + (if c.error.Some? then 1 else 0)
    ensures var rows, r := RowsIn(calls), c.result;
            RowsIn(calls + [c]) == Rows(rows.inserted + (if r.inserted then 1 else 0),
                                        rows.updated + (if r.updated then 1 else 0),
                                        rows.hydrated + (if r.mediaPath != "" then 1 else 0))
  {
    assert (calls + [c])[..|calls + [c]| - 1] == calls;
  }

  /** The calls so far, and the rows of the table and the wake-ups that go with them. */
  datatype Mark = Mark(calls: seq<Call>, table: int, wakes: int)

  ghost function MarkOf(h: Handler, calls: seq<Call>): Mark
    reads h, h.store
  {
    Mark(calls, |h.store.messages|, |h.wakes|)
  }

  /** How they move together: counted inserts are new rows, missing at most those whose call failed, and every
      counted row woke its subscribers once. */
  ghost predicate Moved(a: Mark, b: Mark) {
    Fair(RowsIn(a.calls), RowsIn(b.calls), FailedIn(b.calls) - FailedIn(a.calls), |b.calls| - |a.calls|,
         b.table - a.table, b.wakes - a.wakes)
  }

  predicate Fair(before: Rows, rows: Rows, failed: int, calls: int, table: int, wakes: int) {
    var inserted, updated, hydrated :=
      rows.inserted - before.inserted, rows.updated - before.updated, rows.hydrated - before.hydrated;
    && 0 <= inserted && 0 <= updated && 0 <= hydrated && 0 <= failed
    && inserted + updated + failed <= calls
    && hydrated + failed <= calls
    && inserted <= table <= inserted + failed
    && wakes == inserted + updated
  }

  lemma MovedTwice(a: Mark, b: Mark, c: Mark)
    requires Moved(a, b) && Moved(b, c)
    ensures Moved(a, c)
  {
  }

  lemma OneWriteGrows(d: Disk, root: string, allowed: int, ev: Event, env: Env)
    ensures var o := WriteAlone(d, root, allowed, ev, env);
            var grown := |o.disk.tables.messages| - |d.tables.messages|;
            0 <= grown <= 1 && (o.error.None? ==> (grown == 1 <==> o.result.inserted))
  {
    if !env.cancelled && Complete(ev) {
      var pk := ResolvePK(d.tables.messages, ev, env.lookupFails);
      var id := MessageID(KeyOfEvent(ev), pk);
      var first := FirstTx(d, id, pk, ev, env.now, allowed, env.fault, env.fts);
      FirstGrows(d, id, pk, ev, allowed, env);
      PhaseKeepsRows(first.disk, id, FinalPath(root, ev), ev.mediaBytes, RunID(id, env.now),
                     Result(id, first.inserted, first.updated, ""), env);
    }
  }

  lemma FirstGrows(d: Disk, id: string, pk: int, ev: Event, allowed: int, env: Env)
    ensures var first := FirstTx(d, id, pk, ev, env.now, allowed, env.fault, env.fts);
            var grown := |first.disk.tables.messages| - |d.tables.messages|;
            if first.committed then grown == (if first.inserted then 1 else 0) && id in first.disk.tables.messages
            else grown == 0
  {
    var first := FirstTx(d, id, pk, ev, env.now, allowed, env.fault, env.fts);
    var t := d.tables.messages;
    if first.committed {
      assert first.disk.tables.messages.Keys == t.Keys + {id};
      assert |first.disk.tables.messages| == |first.disk.tables.messages.Keys| && |t| == |t.Keys|;
      if id in t {
        assert t.Keys + {id} == t.Keys;
      }
    }
  }

  lemma PhaseKeepsRows(d: Disk, id: string, path: string, body: Bytes, runId: string, res: Result, env: Env)
    ensures var o := MediaPhase(d, path, body, runId, res, env);
            |o.disk.tables.messages| == |d.tables.messages| && (o.result.inserted <==> res.inserted)
  {
    var o := MediaPhase(d, path, body, runId, res, env);
    assert o.disk.tables.messages.Keys == d.tables.messages.Keys;
    assert |o.disk.tables.messages| == |o.disk.tables.messages.Keys| && |d.tables.messages| == |d.tables.messages.Keys|;
  }

  /** The call is HandleMessage's, with what the allowlist was before and is after it. */
  ghost predicate CallIs(m: Parsed, before: map<string, Group>, after: map<string, Group>, d: Disk, root: string,
                         allowed: int, c: Call)
    requires m.Message?
  {
    if m.ev.chatJID in before && m.ev.chatJID in after then
      var sent := Outgoing(m.ev, before[m.ev.chatJID], after[m.ev.chatJID], m.hasMedia, m.download, HistorySync);
      var o := WriteAlone(d, root, allowed, sent, m.env);
      c == Call(o.error, if o.error.None? then o.result else NO_RESULT)
    else c == Call(None, NO_RESULT)
  }

  /** How one call moves the table and the subscribers. */
  predicate CallMoves(c: Call, table: int, wakes: int) {
    && !(c.result.inserted && c.result.updated)
    && (c.error.Some? ==> c.result == NO_RESULT)
    && 0 <= table <= 1 && (c.error.None? ==> table == if c.result.inserted then 1 else 0)
    && wakes == if c.result.inserted || c.result.updated then 1 else 0
  }

  /** The call of handleMessageFrom. */
  method CallHandler(h: Handler, m: Parsed) returns (c: Call)
    requires m.Message?
    modifies h`groups, h`wakes, h.store`messages, h.store`fts, h.store`runs, h.store`files, h.store`ftsUnavailable
    ensures CallIs(m, old(h.groups), h.groups, old(h.store.State()), h.store.mediaRoot, h.store.allowedGroupCount, c)
    ensures CallMoves(c, |h.store.messages| - |old(h.store.messages)|, |h.wakes| - |old(h.wakes)|)
  {
    ghost var before := h.store.State();
    ghost var groups := h.groups;
    var accepted, res, err := h.HandleMessage(m.ev, m.hasMedia, m.download, HistorySync, m.reloaded, m.env);
    if accepted {
      ghost var g, later := groups[m.ev.chatJID], h.groups[m.ev.chatJID];
      ghost var sent := Outgoing(m.ev, g, later, m.hasMedia, m.download, HistorySync);
      OneWriteGrows(before, h.store.mediaRoot, h.store.allowedGroupCount, sent, m.env);
    }
    c := Call(err, res);
  }

  method Count(rows: Rows, res: Result) returns (r: Rows)
    ensures r == Rows(rows.inserted + (if res.inserted then 1 else 0), rows.updated + (if res.updated then 1 else 0),
                      rows.hydrated + (if res.mediaPath != "" then 1 else 0))
  {
    r := rows;
    if res.inserted {
      r := r.(inserted := r.inserted + 1);
    }
    if res.updated {
      r := r.(updated := r.updated + 1);
    }
    if res.mediaPath != "" {
      r := r.(hydrated := r.hydrated + 1);
    }
  }

  lemma OneCallMoves(calls: seq<Call>, c: Call, table: int, table': int, wakes: int, wakes': int)
    requires CallMoves(c, table' - table, wakes' - wakes)
    ensures Moved(Mark(calls, table, wakes), Mark(calls + [c], table', wakes'))
  {
    OneMoreCall(calls, c);
  }

  /** One dispatched message, what its call returned, and the counters of the result. */
  method Dispatch(h: Handler, m: Parsed, rows: Rows, ghost calls: seq<Call>)
    returns (rows': Rows, ghost calls': seq<Call>)
    requires m.Message? && rows == RowsIn(calls)
    modifies h`groups, h`wakes, h.store`messages, h.store`fts, h.store`runs, h.store`files, h.store`ftsUnavailable
    ensures |calls'| == |calls| + 1 && calls'[..|calls|] == calls && rows' == RowsIn(calls')
    ensures CallIs(m, old(h.groups), h.groups, old(h.store.State()), h.store.mediaRoot, h.store.allowedGroupCount,
                   calls'[|calls|])
    ensures Moved(old(MarkOf(h, calls)), MarkOf(h, calls'))
  {
    var c := CallHandler(h, m);
    rows' := Count(rows, c.result);
    calls' := calls + [c];
    OneMoreCall(calls, c);
    OneCallMoves(calls, c, |old(h.store.messages)|, |h.store.messages|, |old(h.wakes)|, |h.wakes|);
  }

  /** The first n messages of conversation i were visited, and the walk counts them. */
  ghost predicate Visited(w: World, i: nat, ms: seq<Option<Summary.WebMessage>>, n: nat, before: Walk, walk: Walk) {
    n <= |ms| && walk == Plus(before, OfMessages(w, i, ms, n)) && NotStopped(w, i, n)
  }

  lemma VisitNext(w: World, i: nat, ms: seq<Option<Summary.WebMessage>>, n: nat, before: Walk, walk: Walk, walk': Walk)
    requires n < |ms| && Visited(w, i, ms, n, before, walk) && n !in Stops(w, i)
    requires walk' == Plus(walk, OfMessage(ms[n], ParsedAt(w, i, n)))
    ensures Visited(w, i, ms, n + 1, before, walk')
  {
  }

  /** The counters are those of the calls, one call for each dispatched message. */
  predicate Tallied(rows: Rows, calls: seq<Call>, dispatched: int) {
    rows == RowsIn(calls) && |calls| == dispatched
  }

  /** The body of the inner loop. */
  method HandleOne(h: Handler, m: Option<Summary.WebMessage>, p: Parsed, before: Walk, rows: Rows,
                   ghost calls: seq<Call>)
    returns (walk: Walk, rows': Rows, ghost calls': seq<Call>)
    requires Tallied(rows, calls, before.dispatched)
    modifies h`groups, h`wakes, h.store`messages, h.store`fts, h.store`runs, h.store`files, h.store`ftsUnavailable
    ensures walk == Plus(before, OfMessage(m, p))
    ensures Tallied(rows', calls', walk.dispatched)
    ensures Moved(old(MarkOf(h, calls)), MarkOf(h, calls'))
  {
    rows', calls' := rows, calls;
    walk := before.(messages := before.messages + 1);
    if !Summary.Valid(m) {
      walk := walk.(skippedMessages := walk.skippedMessages + 1);
      return;
    }
    match p {
      case ParseError =>
        walk := walk.(parseErrors := walk.parseErrors + 1);
      case NoMessage =>
        walk := walk.(skippedMessages := walk.skippedMessages + 1);
      case Message(_, _, _, _, _) =>
        rows', calls' := Dispatch(h, p, rows, calls);
        walk := walk.(dispatched := walk.dispatched + 1);
    }
  }

  /** One more message, and the counters of the loop. */
  method HandleNext(h: Handler, w: World, i: nat, ms: seq<Option<Summary.WebMessage>>, n: nat, walk: Walk, rows: Rows,
                    ghost calls: seq<Call>, ghost before: Walk, ghost start: Mark)
    returns (walk': Walk, rows': Rows, ghost calls': seq<Call>)
    requires n < |ms| && Visited(w, i, ms, n, before, walk) && n !in Stops(w, i)
    requires Moved(start, MarkOf(h, calls)) && Tallied(rows, calls, walk.dispatched)
    modifies h`groups, h`wakes, h.store`messages, h.store`fts, h.store`runs, h.store`files, h.store`ftsUnavailable
    ensures Visited(w, i, ms, n + 1, before, walk')
    ensures Moved(start, MarkOf(h, calls')) && Tallied(rows', calls', walk'.dispatched)
  {
    ghost var now := MarkOf(h, calls);
    walk', rows', calls' := HandleOne(h, ms[n], ParsedAt(w, i, n), walk, rows, calls);
    MovedTwice(start, now, MarkOf(h, calls'));
    VisitNext(w, i, ms, n, before, walk, walk');
  }

  /** The inner loop, over the messages of an admitted conversation. */
  method HandleMessages(h: Handler, w: World, i: nat, ms: seq<Option<Summary.WebMessage>>, before: Walk, rows: Rows,
                        ghost calls: seq<Call>)
    returns (walk: Walk, rows': Rows, ghost calls': seq<Call>, n: nat)
    requires Tallied(rows, calls, before.dispatched)
    modifies h`groups, h`wakes, h.store`messages, h.store`fts, h.store`runs, h.store`files, h.store`ftsUnavailable
    ensures Visited(w, i, ms, n, before, walk)
    ensures n < |ms| ==> n in Stops(w, i)
    ensures Moved(old(MarkOf(h, calls)), MarkOf(h, calls')) && Tallied(rows', calls', walk.dispatched)
  {
    ghost var start := MarkOf(h, calls);
    walk, rows', calls', n := before, rows, calls, 0;
    while n < |ms|
      invariant 0 <= n <= |ms| && Visited(w, i, ms, n, before, walk)
      invariant Moved(start, MarkOf(h, calls')) && Tallied(rows', calls', walk.dispatched)
    {
      if n in Stops(w, i) {
        return;
      }
      walk, rows', calls' := HandleNext(h, w, i, ms, n, walk, rows', calls', before, start);
      n := n + 1;
    }
  }

  /** Without a configuration every conversation is skipped. */
  method SkipAll(convs: seq<Option<Summary.Conversation>>) returns (walk: Walk)
    ensures walk == Walk(0, 0, 0, |convs|, TotalMessages(convs, |convs|), 0)
  {
    walk := NO_WALK.(skippedConversations := |convs|);
    var i := 0;
    while i < |convs|
      invariant 0 <= i <= |convs|
      invariant walk == Walk(0, 0, 0, |convs|, TotalMessages(convs, i), 0)
    {
      walk := walk.(skippedMessages := walk.skippedMessages + |MessagesOf(convs[i])|);
      i := i + 1;
    }
  }

  /** The conversations before i were walked through, and the walk counts them. */
  ghost predicate Walked(w: World, convs: seq<Option<Summary.Conversation>>, i: nat, walk: Walk) {
    i <= |convs| && AllPassed(w, convs, i) && walk == OfConversations(w, convs, i)
  }

  lemma WalkNext(w: World, convs: seq<Option<Summary.Conversation>>, i: nat, walk: Walk, walk': Walk)
    requires i < |convs| && Walked(w, convs, i, walk) && Passed(w, convs, i)
    requires walk' == Plus(walk, OfConversation(w, i, convs[i]))
    ensures Walked(w, convs, i + 1, walk')
  {
  }

  lemma PlusAssociative(a: Walk, b: Walk, c: Walk)
    ensures Plus(Plus(a, b), c) == Plus(a, Plus(b, c))
  {
  }

  /** The body of the outer loop, for an admitted conversation. */
  method HandleAdmitted(h: Handler, w: World, convs: seq<Option<Summary.Conversation>>, i: nat, walk: Walk, rows: Rows,
                        ghost calls: seq<Call>, ghost start: Mark)
    returns (walk': Walk, rows': Rows, ghost calls': seq<Call>, stop: Stop)
    requires i < |convs| && Walked(w, convs, i, walk) && i !in w.cancelledAtConversation
    requires convs[i].Some? && Admitted(w, i, convs[i].value)
    requires Moved(start, MarkOf(h, calls)) && Tallied(rows, calls, walk.dispatched)
    modifies h`groups, h`wakes, h.store`messages, h.store`fts, h.store`runs, h.store`files, h.store`ftsUnavailable
    ensures stop.Finished? ==> Walked(w, convs, i + 1, walk')
    ensures !stop.Finished? ==> IsStop(w, convs, stop) && walk' == WalkUntil(w, convs, stop)
    ensures Moved(start, MarkOf(h, calls')) && Tallied(rows', calls', walk'.dispatched)
  {
    ghost var now := MarkOf(h, calls);
    var ms := convs[i].value.messages;
    var entered := walk.(allowed := walk.allowed + 1);
    var n;
    walk', rows', calls', n := HandleMessages(h, w, i, ms, entered, rows, calls);
    MovedTwice(start, now, MarkOf(h, calls'));
    PlusAssociative(walk, Walk(1, 0, 0, 0, 0, 0), OfMessages(w, i, ms, n));
    stop := if n < |ms| then AtMessage(i, n) else Finished;
    if n == |ms| {
      WalkNext(w, convs, i, walk, walk');
    }
  }

  /** Where the outer loop stands before conversation i, or where it stopped. */
  ghost predicate StandsAt(w: World, convs: seq<Option<Summary.Conversation>>, i: nat, walk: Walk, stop: Stop) {
    if stop.Finished? then Walked(w, convs, i, walk) else IsStop(w, convs, stop) && walk == WalkUntil(w, convs, stop)
  }

  /** One turn of the outer loop. */
  method HandleConversation(h: Handler, w: World, convs: seq<Option<Summary.Conversation>>, i: nat, walk: Walk,
                            rows: Rows, ghost calls: seq<Call>, ghost start: Mark)
    returns (walk': Walk, rows': Rows, ghost calls': seq<Call>, stop: Stop)
    requires i < |convs| && Walked(w, convs, i, walk)
    requires Moved(start, MarkOf(h, calls)) && Tallied(rows, calls, walk.dispatched)
    modifies h`groups, h`wakes, h.store`messages, h.store`fts, h.store`runs, h.store`files, h.store`ftsUnavailable
    ensures StandsAt(w, convs, i + 1, walk', stop)
    ensures Moved(start, MarkOf(h, calls')) && Tallied(rows', calls', walk'.dispatched)
  {
    walk', rows', calls', stop := walk, rows, calls, Finished;
    if i in w.cancelledAtConversation {
      stop := AtConversation(i);
      return;
    }
    var conv := convs[i];
    if conv.None? {
      walk' := walk.(skippedConversations := walk.skippedConversations + 1);
      WalkNext(w, convs, i, walk, walk');
    } else if !Admitted(w, i, conv.value) {
      walk' := walk.(skippedConversations := walk.skippedConversations + 1,
                     skippedMessages := walk.skippedMessages + |conv.value.messages|);
      WalkNext(w, convs, i, walk, walk');
    } else {
      walk', rows', calls', stop := HandleAdmitted(h, w, convs, i, walk, rows, calls, start);
    }
  }

  /** The outer loop. */
  method HandleConversations(h: Handler, w: World, convs: seq<Option<Summary.Conversation>>)
    returns (walk: Walk, rows: Rows, ghost calls: seq<Call>, stop: Stop)
    modifies h`groups, h`wakes, h.store`messages, h.store`fts, h.store`runs, h.store`files, h.store`ftsUnavailable
    ensures IsStop(w, convs, stop) && walk == WalkUntil(w, convs, stop)
    ensures Moved(old(MarkOf(h, [])), MarkOf(h, calls)) && Tallied(rows, calls, walk.dispatched)
  {
    ghost var start := MarkOf(h, []);
    walk, rows, calls, stop := NO_WALK, NO_ROWS, [], Finished;
    var i := 0;
    while i < |convs|
      invariant 0 <= i <= |convs| && Walked(w, convs, i, walk) && stop.Finished?
      invariant Moved(start, MarkOf(h, calls)) && Tallied(rows, calls, walk.dispatched)
    {
      walk, rows, calls, stop := HandleConversation(h, w, convs, i, walk, rows, calls, start);
      if !stop.Finished? {
        return;
      }
      i := i + 1;
    }
  }

  /** Every conversation and every message of the event is in exactly one of the classes. */
  predicate Balanced(s: Stats, messages: int) {
    Accounts(s.walk, s.conversations, messages) && RowsFit(s)
  }

  /** What still holds of a cancelled walk: nothing is counted twice. */
  predicate WithinEvent(s: Stats, messages: int) {
    AccountsWithin(s.walk, s.conversations, messages) && RowsFit(s)
  }

  /** A result never has both flags. */
  predicate RowsFit(s: Stats) {
    s.rows.inserted + s.rows.updated <= s.walk.dispatched && s.rows.hydrated <= s.walk.dispatched
  }

  function ConversationsOf(evt: Option<Summary.Event>): seq<Option<Summary.Conversation>> {
    if evt.None? then [] else evt.value.conversations
  }

  /** handleHistorySync. Uncancelled, every conversation is allowed or skipped and every message dispatched,
      skipped or a parse error. The row counters count the results of the dispatched calls; the rows they report as
      inserted are new rows of the table, missing at most those whose call failed, and every reported row woke its
      subscribers once. */
  method HandleHistorySync(h: Handler, hasConfig: bool, w: World, evt: Option<Summary.Event>)
    returns (stats: Stats, ghost calls: seq<Call>, stop: Stop)
    modifies h`groups, h`wakes, h.store`messages, h.store`fts, h.store`runs, h.store`files, h.store`ftsUnavailable
    ensures stats.syncType == (if evt.None? then "unknown" else evt.value.syncType)
    ensures stats.conversations == |ConversationsOf(evt)|
    ensures !hasConfig ==> stats.walk.skippedConversations == stats.conversations && stop == Finished
    ensures hasConfig ==>
              IsStop(w, ConversationsOf(evt), stop) && stats.walk == WalkUntil(w, ConversationsOf(evt), stop)
    ensures stop == Finished ==> Balanced(stats, TotalMessages(ConversationsOf(evt), |ConversationsOf(evt)|))
    ensures WithinEvent(stats, TotalMessages(ConversationsOf(evt), |ConversationsOf(evt)|))
    ensures Tallied(stats.rows, calls, stats.walk.dispatched)
    ensures Moved(old(MarkOf(h, [])), MarkOf(h, calls))
  {
    calls, stop := [], Finished;
    stats := Stats(if evt.None? then "unknown" else evt.value.syncType, 0, NO_WALK, NO_ROWS);
    if evt.None? {
      return;
    }
    var convs := evt.value.conversations;
    stats := stats.(conversations := |convs|);
    if |convs| == 0 {
      return;
    }
    if !hasConfig {
      var skipped := SkipAll(convs);
      stats := stats.(walk := skipped);
      return;
    }
    var walk, rows;
    walk, rows, calls, stop := HandleConversations(h, w, convs);
    stats := stats.(walk := walk, rows := rows);
    WalkBalanced(w, convs, stop);
  }

  // ---------------------------------------------------------------- the accounting

  /** A walk over so many conversations and messages that counted each of them once. */
  predicate Accounts(k: Walk, convs: int, messages: int) {
    k.allowed + k.skippedConversations == convs && k.dispatched + k.parseErrors + k.skippedMessages == messages
  }

  predicate AccountsWithin(k: Walk, convs: int, messages: int) {
    k.allowed + k.skippedConversations <= convs && k.dispatched + k.parseErrors + k.skippedMessages <= messages
  }

  lemma {:induction false} MessagesBalanced(w: World, i: nat, ms: seq<Option<Summary.WebMessage>>, n: nat)
    requires n <= |ms|
    ensures Accounts(OfMessages(w, i, ms, n), 0, n)
  {
    if n > 0 {
      MessagesBalanced(w, i, ms, n - 1);
    }
  }

  lemma {:induction false} ConversationsBalanced(w: World, convs: seq<Option<Summary.Conversation>>, n: nat)
    requires n <= |convs|
    ensures Accounts(OfConversations(w, convs, n), n, TotalMessages(convs, n))
  {
    if n > 0 {
      ConversationsBalanced(w, convs, n - 1);
      var conv := convs[n - 1];
      if conv.Some? {
        MessagesBalanced(w, n - 1, conv.value.messages, |conv.value.messages|);
      }
    }
  }

  lemma {:induction false} TotalGrows(convs: seq<Option<Summary.Conversation>>, n: nat, m: nat)
    requires n <= m <= |convs|
    ensures TotalMessages(convs, n) <= TotalMessages(convs, m)
    decreases m
  {
    if n < m {
      TotalGrows(convs, n, m - 1);
    }
  }

  lemma PartialBalanced(w: World, convs: seq<Option<Summary.Conversation>>, i: nat, j: nat)
    requires i < |convs| && convs[i].Some? && j <= |convs[i].value.messages|
    ensures Accounts(Plus(Plus(OfConversations(w, convs, i), Walk(1, 0, 0, 0, 0, 0)),
                          OfMessages(w, i, convs[i].value.messages, j)),
                     i + 1, TotalMessages(convs, i) + j)
    ensures TotalMessages(convs, i) + j <= TotalMessages(convs, i + 1) <= TotalMessages(convs, |convs|)
  {
    ConversationsBalanced(w, convs, i);
    MessagesBalanced(w, i, convs[i].value.messages, j);
    TotalGrows(convs, i + 1, |convs|);
  }

  lemma WalkBalanced(w: World, convs: seq<Option<Summary.Conversation>>, stop: Stop)
    requires IsStop(w, convs, stop)
    ensures AccountsWithin(WalkUntil(w, convs, stop), |convs|, TotalMessages(convs, |convs|))
    ensures stop == Finished ==> Accounts(WalkUntil(w, convs, stop), |convs|, TotalMessages(convs, |convs|))
  {
    match stop
    case Finished => ConversationsBalanced(w, convs, |convs|);
    case AtConversation(i) =>
      ConversationsBalanced(w, convs, i);
      TotalGrows(convs, i, |convs|);
    case AtMessage(i, j) => PartialBalanced(w, convs, i, j);
  }

  // ---------------------------------------------------------------- statistics and summaries

  lemma {:induction false} MessagesWithin(w: World, i: nat, f: Summary.Frame, chatJID: string, c: Summary.Core,
                                          ms: seq<Option<Summary.WebMessage>>, n: nat)
    requires n <= |ms|
    ensures var k := OfMessages(w, i, ms, n);
            0 <= k.dispatched + k.parseErrors <= Summary.AddMessages(f, chatJID, c, ms[..n]).messages - c.messages
  {
    if n > 0 {
      MessagesWithin(w, i, f, chatJID, c, ms, n - 1);
      assert ms[..n][..n - 1] == ms[..n - 1];
    }
  }

  /** Both readers of one event agree on what a valid message is: the store is given no more messages than the
      summary of the same event counts, parse errors included. */
  lemma {:induction false} DispatchedWithinSummary(w: World, f: Summary.Frame,
                                                   convs: seq<Option<Summary.Conversation>>, n: nat)
    requires n <= |convs|
    ensures var k := OfConversations(w, convs, n);
            k.dispatched + k.parseErrors <= Summary.Fold(f, convs[..n]).core.messages
  {
    if n > 0 {
      DispatchedWithinSummary(w, f, convs, n - 1);
      assert convs[..n][..n - 1] == convs[..n - 1];
      var conv := convs[n - 1];
      if conv.Some? {
        var a, ms := Summary.Fold(f, convs[..n - 1]), conv.value.messages;
        var counted := a.core.(conversations := a.core.conversations + 1);
        var flagged := counted.(containsRequested := counted.containsRequested || conv.value.id == f.chat);
        MessagesWithin(w, n - 1, f, conv.value.id, flagged, ms, |ms|);
        assert ms[..|ms|] == ms;
      }
    }
  }

  /** MergeStats */
  function Merge(a: Stats, b: Stats): Stats {
    Stats(if a.syncType == "" then b.syncType else a.syncType,
          a.conversations + b.conversations,
          Plus(a.walk, b.walk),
          Rows(a.rows.inserted + b.rows.inserted, a.rows.updated + b.rows.updated, a.rows.hydrated + b.rows.hydrated))
  }

  /** The statistics of a run: nothing, with each chunk merged in. */
  function MergeAll(chunks: seq<Stats>): Stats {
    if chunks == [] then NO_STATS else Merge(MergeAll(chunks[..|chunks| - 1]), chunks[|chunks| - 1])
  }

  /** Merged statistics balance over the messages of all the events they come from. */
  lemma {:induction false} MergedStatsBalance(chunks: seq<Stats>, messages: seq<int>)
    requires |chunks| == |messages| && forall k | 0 <= k < |chunks| :: Balanced(chunks[k], messages[k])
    ensures Balanced(MergeAll(chunks), Sum(messages))
    decreases |chunks|
  {
    if chunks != [] {
      var n := |chunks| - 1;
      MergedStatsBalance(chunks[..n], messages[..n]);
      assert Balanced(chunks[n], messages[n]);
    }
  }

  lemma MergeStatsAssociative(a: Stats, b: Stats, c: Stats)
    ensures Merge(Merge(a, b), c) == Merge(a, Merge(b, c)) && Merge(NO_STATS, a) == a == Merge(a, NO_STATS)
  {
  }
}
