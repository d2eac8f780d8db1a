/** RunProcessedRequests of backfill.go: the loop that pages back through the history of a chat, what it reports
    in every ending, and which part of the history it has seen. Sends, replies, callbacks and sleeps are what
    each turn of the loop meets. */
module Backfill {
  import opened Text
  import opened Summary
  import HistorySync

  const DEFAULT_CHUNK_SIZE: int := 50

  datatype Request = Request(chatJID: string, anchor: Anchor, limit: int, chunkSize: int)

  /** A processed history sync, as the daemon's event handler queues it. */
  datatype Reply = Reply(evt: Option<Event>, stats: HistorySync.Stats)

  /** What the wait sees next: an item, a closed channel, its timer, a cancelled context. */
  datatype Arrival = Item(reply: Reply) | Closed | TimerFired | ContextDone

  datatype Turn = Turn(
    send: Option<string>,
    sentOK: bool,
    arrivals: seq<Arrival>,
    now: int,
    receivedOK: bool,
    ingestedOK: bool,
    sleepOK: bool)

  /** A chunk that was answered, with the time and the summary of the answer. */
  datatype Chunk = Chunk(sendID: string, anchor: Anchor, count: int, reply: Reply, now: int, summary: Summary)

  /** A chunk that was sent and not answered. */
  datatype Pending = Pending(sendID: string, anchor: Anchor, count: int)

  /** The callbacks, in the order they are called. */
  datatype Notice =
    | RequestSent(sendID: string, anchor: Anchor, count: int)
    | Received(summary: Summary)
    | Ingested(stats: HistorySync.Stats)

  datatype RunResult = RunResult(
    anchor: Anchor,
    requested: int,
    chunks: int,
    summary: Summary,
    stats: HistorySync.Stats,
    lastSendID: string)

  const NO_RESULT := RunResult(NO_ANCHOR, 0, 0, EMPTY, HistorySync.NO_STATS, "")

  /** How a run ends: with no error, or with the error of one of its steps. */
  datatype Ending =
    | Complete
    | BadLimit
    | BadAnchor
    | NotSent
    | SentRefused
    | NoReply(unavailable: bool)
    | ReceivedRefused
    | IngestedRefused
    | NothingOlder
    | SleepCancelled

  /** errors.Is(err, ErrEnvelopeUnavailable) */
  predicate IsUnavailable(e: Ending) {
    e == NothingOlder || e == NoReply(true)
  }

  // ---------------------------------------------------------------- waiting

  predicate IsOnDemand(evt: Option<Event>) {
    evt.Some? && evt.value.syncType == "ON_DEMAND"
  }

  predicate HasConversation(evt: Option<Event>, chatJID: string) {
    evt.Some? && exists conv :: conv in evt.value.conversations && conv.Some? && conv.value.id == chatJID
  }

  predicate Answers(r: Reply, chatJID: string) {
    IsOnDemand(r.evt) && (chatJID == "" || HasConversation(r.evt, chatJID))
  }

  /** A reply answers when it is an on-demand sync that holds the chat, or any at all when no chat is named. */
  lemma AnswersExactly(r: Reply, chatJID: string)
    ensures Answers(r, chatJID)
        <==> && r.evt.Some? && r.evt.value.syncType == "ON_DEMAND"
             && (chatJID == ""
                 || exists i :: 0 <= i < |r.evt.value.conversations| && r.evt.value.conversations[i].Some?
                                && r.evt.value.conversations[i].value.id == chatJID)
  {
    if r.evt.Some? {
      var convs := r.evt.value.conversations;
      if conv :| conv in convs && conv.Some? && conv.value.id == chatJID {
        var i :| 0 <= i < |convs| && convs[i] == conv;
      }
      if i :| 0 <= i < |convs| && convs[i].Some? && convs[i].value.id == chatJID {
        assert convs[i] in convs;
      }
    }
  }

  /** The wait goes on after this. */
  predicate IsSkipped(a: Arrival, chatJID: string) {
    a.Item? && !Answers(a.reply, chatJID)
  }

  datatype WaitOutcome = Got(reply: Reply) | Unavailable | Cancelled

  method HistorySyncHasConversation(evt: Option<Event>, chatJID: string) returns (found: bool)
    ensures found <==> HasConversation(evt, chatJID)
  {
    if evt.None? {
      return false;
    }
    var convs := evt.value.conversations;
    var i := 0;
    while i < |convs|
      invariant 0 <= i <= |convs|
      invariant forall k | 0 <= k < i :: convs[k].None? || convs[k].value.id != chatJID
    {
      if convs[i].Some? && convs[i].value.id == chatJID {
        assert convs[i] in convs;
        return true;
      }
      i := i + 1;
    }
    found := false;
  }

  /** What the first arrival that is not skipped means; the timer fires at the latest after the last one. */
  function WaitResult(chatJID: string, arrivals: seq<Arrival>): WaitOutcome {
    if arrivals == [] then Unavailable
    else if IsSkipped(arrivals[0], chatJID) then WaitResult(chatJID, arrivals[1..])
    else match arrivals[0]
      case Item(reply) => Got(reply)
      case ContextDone => Cancelled
      case _ => Unavailable
  }

  /** A reply that is got is one that arrived and that answers. */
  lemma {:induction false} GotAnswers(chatJID: string, arrivals: seq<Arrival>)
    requires WaitResult(chatJID, arrivals).Got?
    ensures var r := WaitResult(chatJID, arrivals).reply; Item(r) in arrivals && Answers(r, chatJID)
    decreases |arrivals|
  {
    if IsSkipped(arrivals[0], chatJID) {
      GotAnswers(chatJID, arrivals[1..]);
    }
  }

  /** It takes results off the channel up to the first one that answers for the chat; its timer and a closed channel
      both mean unavailable. */
  method WaitForProcessedOnDemand(chatJID: string, arrivals: seq<Arrival>) returns (outcome: WaitOutcome, at: nat)
    ensures at <= |arrivals| && forall k | 0 <= k < at :: IsSkipped(arrivals[k], chatJID)
    ensures at < |arrivals| ==> !IsSkipped(arrivals[at], chatJID)
    ensures outcome.Got? <==> at < |arrivals| && arrivals[at].Item?
    ensures outcome.Got? ==> arrivals[at] == Item(outcome.reply) && Answers(outcome.reply, chatJID)
    ensures outcome.Cancelled? <==> at < |arrivals| && arrivals[at].ContextDone?
    ensures outcome == WaitResult(chatJID, arrivals)
  {
    at := 0;
    while at < |arrivals|
      invariant 0 <= at <= |arrivals| && forall k | 0 <= k < at :: IsSkipped(arrivals[k], chatJID)
      invariant WaitResult(chatJID, arrivals) == WaitResult(chatJID, arrivals[at..])
    {
      assert arrivals[at..][0] == arrivals[at] && arrivals[at..][1..] == arrivals[at + 1..];
      match arrivals[at] {
        case ContextDone => return Cancelled, at;
        case TimerFired => return Unavailable, at;
        case Closed => return Unavailable, at;
        case Item(reply) =>
          if IsOnDemand(reply.evt) {
            if chatJID == "" {
              return Got(reply), at;
            }
            var has := HistorySyncHasConversation(reply.evt, chatJID);
            if has {
              return Got(reply), at;
            }
          }
      }
      at := at + 1;
    }
    outcome := Unavailable;
  }

  // ---------------------------------------------------------------- what a run has done

  /** A request, the strings that parse as JIDs, and what each turn of the loop meets. */
  datatype Setting = Setting(req: Request, jids: set<string>, turns: nat -> Turn)

  /** Anchor.MessageInfo succeeds. */
  predicate InfoOK(jids: set<string>, a: Anchor) {
    && TrimSpace(a.chatJID) != "" && TrimSpace(a.msgID) != "" && a.timestamp != 0
    && a.chatJID in jids
    && (TrimSpace(a.senderJID) == "" || a.senderJID in jids)
  }

  function SizeOf(req: Request): int {
    if req.chunkSize <= 0 || req.chunkSize > DEFAULT_CHUNK_SIZE then DEFAULT_CHUNK_SIZE else req.chunkSize
  }

  /** A chunk asks for at least one message and at most fifty, as many as the request says where it can. */
  lemma SizeIs(req: Request)
    ensures 1 <= SizeOf(req) <= 50 && (1 <= req.chunkSize <= 50 ==> SizeOf(req) == req.chunkSize)
    ensures req.chunkSize < 1 || req.chunkSize > 50 ==> SizeOf(req) == 50
  {
  }

  function StartOf(req: Request): Anchor {
    if req.anchor.chatJID == "" then req.anchor.(chatJID := req.chatJID) else req.anchor
  }

  function FrameOf(req: Request, c: Chunk): Frame {
    Frame(c.anchor.timestamp, req.chatJID, Some(c.now))
  }

  function SummaryOf(req: Request, c: Chunk): Summary {
    Summarize(FrameOf(req, c), c.reply.evt)
  }

  /** The reply holds a message of the chat, so there is something to page back from. */
  predicate Fruitful(c: Chunk) {
    c.summary.core.requested != 0 && c.summary.core.found
  }

  /** The messages asked for. */
  function Asked(chunks: seq<Chunk>): int {
    if chunks == [] then 0 else Asked(chunks[..|chunks| - 1]) + chunks[|chunks| - 1].count
  }

  function Summaries(chunks: seq<Chunk>): seq<Summary> {
    if chunks == [] then [] else Summaries(chunks[..|chunks| - 1]) + [chunks[|chunks| - 1].summary]
  }

  function StatsOf(chunks: seq<Chunk>): seq<HistorySync.Stats> {
    if chunks == [] then [] else StatsOf(chunks[..|chunks| - 1]) + [chunks[|chunks| - 1].reply.stats]
  }

  function SentNotice(c: Chunk): Notice {
    RequestSent(c.sendID, c.anchor, c.count)
  }

  /** Three notices a chunk. */
  function Stream(chunks: seq<Chunk>): seq<Notice> {
    if chunks == [] then []
    else
      var last := chunks[|chunks| - 1];
      Stream(chunks[..|chunks| - 1]) + [SentNotice(last), Received(last.summary), Ingested(last.reply.stats)]
  }

  /** Where to page back from next. */
  function NextAnchor(req: Request, chunks: seq<Chunk>): Anchor {
    if chunks == [] then StartOf(req) else chunks[|chunks| - 1].summary.core.oldest
  }

  function NextCount(req: Request, chunks: seq<Chunk>): int {
    Min(SizeOf(req), req.limit - Asked(chunks))
  }

  /** Messages are left to ask for, and the next request can be sent. */
  predicate CanSend(x: Setting, chunks: seq<Chunk>) {
    && Asked(chunks) < x.req.limit
    && InfoOK(x.jids, NextAnchor(x.req, chunks)) && x.turns(|chunks|).send.Some?
  }

  /** Chunk c is what the loop does after the chunks before it: it could be sent, its notice was taken, and its reply
      is the first that answers. */
  predicate Follows(x: Setting, before: seq<Chunk>, c: Chunk) {
    var turn := x.turns(|before|);
    && CanSend(x, before) && turn.sentOK
    && c.sendID == turn.send.value && c.anchor == NextAnchor(x.req, before) && c.count == NextCount(x.req, before)
    && WaitResult(x.req.chatJID, turn.arrivals) == Got(c.reply)
    && c.now == turn.now && c.summary == SummaryOf(x.req, c)
  }

  /** The loop may page on after this chunk. */
  predicate Digested(turn: Turn, c: Chunk) {
    turn.receivedOK && turn.ingestedOK && Fruitful(c)
  }

  /** Every chunk follows from those before it, and the loop paged on after all but the last. */
  ghost predicate Chain(x: Setting, chunks: seq<Chunk>) {
    && (forall k: nat | k < |chunks| :: Follows(x, chunks[..k], chunks[k]))
    && (forall k: nat | k + 1 < |chunks| :: Digested(x.turns(k), chunks[k]) && x.turns(k).sleepOK)
  }

  predicate LastDigested(x: Setting, chunks: seq<Chunk>) {
    chunks == [] || Digested(x.turns(|chunks| - 1), chunks[|chunks| - 1])
  }

  /** The sleep after the last chunk, if there was one, was not cancelled. */
  predicate Slept(x: Setting, chunks: seq<Chunk>) {
    chunks == [] || x.turns(|chunks| - 1).sleepOK
  }

  /** The variables of the loop, with the chunks and notices so far. */
  datatype Progress = Progress(
    remaining: int,
    anchor: Anchor,
    result: RunResult,
    chunks: seq<Chunk>,
    pending: Option<Pending>,
    log: seq<Notice>)

  const NOTHING := Progress(0, NO_ANCHOR, NO_RESULT, [], None, [])

  function PendingCount(p: Option<Pending>): int {
    if p.None? then 0 else p.value.count
  }

  /** The result says what was sent and merges what was answered. */
  predicate Booked(s: Progress) {
    && s.result.requested == Asked(s.chunks) + PendingCount(s.pending)
    && s.result.chunks == |s.chunks| + (if s.pending.Some? then 1 else 0)
    && s.result.summary == MergeAll(Summaries(s.chunks))
    && s.result.stats == HistorySync.MergeAll(StatsOf(s.chunks))
    && s.result.lastSendID == LastSendID(s.chunks, s.pending)
    && s.result.anchor == s.anchor
  }

  function LastSendID(chunks: seq<Chunk>, pending: Option<Pending>): string {
    if pending.Some? then pending.value.sendID
    else if chunks != [] then chunks[|chunks| - 1].sendID
    else ""
  }

  /** Nothing is under way, and the anchor is the oldest message seen. */
  ghost predicate AtHead(x: Setting, s: Progress) {
    && Chain(x, s.chunks) && LastDigested(x, s.chunks) && Booked(s)
    && s.pending == None && s.log == Stream(s.chunks)
    && s.anchor == NextAnchor(x.req, s.chunks) && s.remaining == x.req.limit - Asked(s.chunks) && s.remaining >= 0
  }

  /** What is sent after these chunks. */
  function PendingAfter(req: Request, sendID: string, chunks: seq<Chunk>): Pending {
    Pending(sendID, NextAnchor(req, chunks), NextCount(req, chunks))
  }

  function PendingNotice(p: Pending): Notice {
    RequestSent(p.sendID, p.anchor, p.count)
  }

  /** A request was sent, and it is not answered. */
  ghost predicate EndedPending(x: Setting, s: Progress) {
    && Chain(x, s.chunks) && LastDigested(x, s.chunks) && Slept(x, s.chunks) && CanSend(x, s.chunks) && Booked(s)
    && s.pending == Some(PendingAfter(x.req, x.turns(|s.chunks|).send.value, s.chunks))
    && s.log == Stream(s.chunks) + [PendingNotice(s.pending.value)]
    && s.anchor == NextAnchor(x.req, s.chunks) && s.remaining == x.req.limit - Asked(s.chunks)
  }

  /** The last chunk was answered, and the run ended before it paged on; cut notices are missing. */
  ghost predicate EndedAnswered(x: Setting, s: Progress, cut: nat) {
    && Chain(x, s.chunks) && s.chunks != [] && Booked(s)
    && s.pending == None
    && cut <= |Stream(s.chunks)| && s.log == Stream(s.chunks)[..|Stream(s.chunks)| - cut]
    && s.anchor == s.chunks[|s.chunks| - 1].anchor && s.remaining == x.req.limit - Asked(s.chunks[..|s.chunks| - 1])
  }

  /** The last turn that was answered. */
  function LastTurn(x: Setting, s: Progress): Turn
    requires s.chunks != []
  {
    x.turns(|s.chunks| - 1)
  }

  /** How a run can end: where it stands, and the cause of the ending. */
  ghost predicate Ended(x: Setting, s: Progress, e: Ending) {
    match e
    case BadLimit => x.req.limit <= 0 && s == NOTHING
    case BadAnchor => x.req.limit > 0 && !InfoOK(x.jids, StartOf(x.req)) && s == NOTHING
    case _ => x.req.limit > 0 && InfoOK(x.jids, StartOf(x.req)) && EndedRun(x, s, e)
  }

  ghost predicate EndedRun(x: Setting, s: Progress, e: Ending) {
    match e
    case BadLimit => false
    case BadAnchor => false
    case Complete => AtHead(x, s) && s.remaining == 0
    case NotSent => AtHead(x, s) && Slept(x, s.chunks) && s.remaining > 0 && !CanSend(x, s.chunks)
    case SentRefused => EndedPending(x, s) && !x.turns(|s.chunks|).sentOK
    case NoReply(unavailable) =>
      && EndedPending(x, s) && x.turns(|s.chunks|).sentOK
      && WaitResult(x.req.chatJID, x.turns(|s.chunks|).arrivals) == if unavailable then Unavailable else Cancelled
    case ReceivedRefused => EndedAnswered(x, s, 1) && !LastTurn(x, s).receivedOK
    case IngestedRefused => EndedAnswered(x, s, 0) && LastTurn(x, s).receivedOK && !LastTurn(x, s).ingestedOK
    case NothingOlder =>
      && EndedAnswered(x, s, 0) && LastTurn(x, s).receivedOK && LastTurn(x, s).ingestedOK
      && !Fruitful(s.chunks[|s.chunks| - 1])
    case SleepCancelled => AtHead(x, s) && s.remaining > 0 && !Slept(x, s.chunks)
  }

  lemma OneMore(x: Setting, chunks: seq<Chunk>, c: Chunk)
    ensures var longer := chunks + [c];
            && longer[..|longer| - 1] == chunks && longer[|longer| - 1] == c
            && Asked(longer) == Asked(chunks) + c.count
            && Summaries(longer) == Summaries(chunks) + [c.summary]
            && StatsOf(longer) == StatsOf(chunks) + [c.reply.stats]
            && Stream(longer) == Stream(chunks) + [SentNotice(c), Received(c.summary), Ingested(c.reply.stats)]
            && NextAnchor(x.req, longer) == c.summary.core.oldest
  {
    var longer := chunks + [c];
    assert longer[..|longer| - 1] == chunks;
  }

  lemma ChainOneMore(x: Setting, chunks: seq<Chunk>, c: Chunk)
    requires Chain(x, chunks) && LastDigested(x, chunks) && Slept(x, chunks) && Follows(x, chunks, c)
    ensures Chain(x, chunks + [c])
  {
    var longer := chunks + [c];
    forall k: nat | k < |longer| ensures Follows(x, longer[..k], longer[k]) {
      if k < |chunks| {
        assert longer[..k] == chunks[..k];
      } else {
        assert longer[..k] == chunks;
      }
    }
  }

  lemma MergedOneMore(sums: seq<Summary>, s: Summary, stats: seq<HistorySync.Stats>, t: HistorySync.Stats)
    ensures MergeAll(sums + [s]) == Merge(MergeAll(sums), s)
    ensures HistorySync.MergeAll(stats + [t]) == HistorySync.Merge(HistorySync.MergeAll(stats), t)
  {
    assert (sums + [s])[..|sums + [s]| - 1] == sums;
    assert (stats + [t])[..|stats + [t]| - 1] == stats;
  }

  // ---------------------------------------------------------------- the loop

  /** MergeStats */
  method MergeStats(a: HistorySync.Stats, b: HistorySync.Stats) returns (r: HistorySync.Stats)
    ensures r == HistorySync.Merge(a, b)
  {
    r := a;
    if r.syncType == "" {
      r := r.(syncType := b.syncType);
    }
    r := r.(conversations := r.conversations + b.conversations, walk := HistorySync.Plus(r.walk, b.walk),
            rows := HistorySync.Rows(r.rows.inserted + b.rows.inserted, r.rows.updated + b.rows.updated,
                                     r.rows.hydrated + b.rows.hydrated));
  }

  /** The progress once a request is out. */
  function Sent(req: Request, sendID: string, s: Progress): Progress {
    var count := Min(SizeOf(req), s.remaining);
    s.(result := s.result.(lastSendID := sendID, requested := s.result.requested + count,
                           chunks := s.result.chunks + 1),
       pending := Some(Pending(sendID, s.anchor, count)),
       log := s.log + [RequestSent(sendID, s.anchor, count)])
  }

  /** What the outcome of the wait means for the turn. */
  predicate Brings(outcome: WaitOutcome, reply: Option<Reply>, ending: Ending) {
    match outcome
    case Got(r) => reply == Some(r)
    case Unavailable => reply.None? && ending == NoReply(true)
    case Cancelled => reply.None? && ending == NoReply(false)
  }

  /** The first half of a turn: send, report, and wait. */
  method Ask(req: Request, jids: set<string>, turn: Turn, s: Progress)
    returns (s': Progress, reply: Option<Reply>, ending: Ending)
    ensures !InfoOK(jids, s.anchor) || turn.send.None? ==> s' == s && reply.None? && ending == NotSent
    ensures InfoOK(jids, s.anchor) && turn.send.Some? ==>
              && s' == Sent(req, turn.send.value, s)
              && (!turn.sentOK ==> reply.None? && ending == SentRefused)
              && (turn.sentOK ==> Brings(WaitResult(req.chatJID, turn.arrivals), reply, ending))
  {
    reply, ending := None, Complete;
    var count := SizeOf(req);
    if s.remaining < count {
      count := s.remaining;
    }
    if !InfoOK(jids, s.anchor) || turn.send.None? {
      return s, None, NotSent;
    }
    var sendID := turn.send.value;
    s' := s.(result := s.result.(lastSendID := sendID, requested := s.result.requested + count,
                                 chunks := s.result.chunks + 1),
             pending := Some(Pending(sendID, s.anchor, count)),
             log := s.log + [RequestSent(sendID, s.anchor, count)]);
    if !turn.sentOK {
      return s', None, SentRefused;
    }
    var outcome, at := WaitForProcessedOnDemand(req.chatJID, turn.arrivals);
    match outcome {
      case Got(r) => reply := Some(r);
      case Unavailable => ending := NoReply(true);
      case Cancelled => ending := NoReply(false);
    }
  }

  lemma SentIsBooked(req: Request, s: Progress, sendID: string)
    requires Booked(s) && s.pending.None?
    ensures Booked(Sent(req, sendID, s))
  {
  }

  lemma SentFields(req: Request, s: Progress, sendID: string)
    requires s.anchor == NextAnchor(req, s.chunks) && s.remaining == req.limit - Asked(s.chunks)
    ensures var p, s' := PendingAfter(req, sendID, s.chunks), Sent(req, sendID, s);
            && s'.pending == Some(p) && s'.log == s.log + [PendingNotice(p)]
            && s'.chunks == s.chunks && s'.anchor == s.anchor && s'.remaining == s.remaining
  {
  }

  lemma SentIsPending(x: Setting, s: Progress)
    requires AtHead(x, s) && Slept(x, s.chunks) && CanSend(x, s.chunks)
    ensures EndedPending(x, Sent(x.req, x.turns(|s.chunks|).send.value, s))
  {
    SentIsBooked(x.req, s, x.turns(|s.chunks|).send.value);
    SentFields(x.req, s, x.turns(|s.chunks|).send.value);
  }

  /** The progress once the answer is merged and the notices before the cut are out. */
  function Answered(s: Progress, c: Chunk, cut: nat): Progress
    requires cut <= 1
  {
    s.(result := s.result.(summary := Merge(s.result.summary, c.summary),
                           stats := HistorySync.Merge(s.result.stats, c.reply.stats)),
       chunks := s.chunks + [c],
       pending := None,
       log := s.log + if cut == 1 then [Received(c.summary)] else [Received(c.summary), Ingested(c.reply.stats)])
  }

  /** And once the loop has paged on. */
  function Moved(s: Progress, c: Chunk): Progress {
    var s1, oldest := Answered(s, c, 0), c.summary.core.oldest;
    s1.(anchor := oldest, remaining := s.remaining - c.count, result := s1.result.(anchor := oldest))
  }

  /** The second half: merge, report, and move the anchor. */
  method Digest(turn: Turn, s: Progress, c: Chunk) returns (s': Progress, ending: Option<Ending>)
    ensures !turn.receivedOK ==> s' == Answered(s, c, 1) && ending == Some(ReceivedRefused)
    ensures turn.receivedOK && !turn.ingestedOK ==> s' == Answered(s, c, 0) && ending == Some(IngestedRefused)
    ensures turn.receivedOK && turn.ingestedOK && !Fruitful(c) ==>
              s' == Answered(s, c, 0) && ending == Some(NothingOlder)
    ensures Digested(turn, c) ==>
              && s' == Moved(s, c)
              && ending == if s.remaining - c.count > 0 && !turn.sleepOK then Some(SleepCancelled) else None
  {
    ending := None;
    var summary := c.summary;
    var merged := MergeSummaries(s.result.summary, summary);
    var stats := MergeStats(s.result.stats, c.reply.stats);
    s' := s.(result := s.result.(summary := merged, stats := stats), chunks := s.chunks + [c], pending := None,
             log := s.log + [Received(summary)]);
    if !turn.receivedOK {
      return s', Some(ReceivedRefused);
    }
    s' := s'.(log := s'.log + [Ingested(c.reply.stats)]);
    assert s.log + [Received(summary), Ingested(c.reply.stats)]
        == s.log + [Received(summary)] + [Ingested(c.reply.stats)];
    if !turn.ingestedOK {
      return s', Some(IngestedRefused);
    }
    if summary.core.requested == 0 || !summary.core.found {
      return s', Some(NothingOlder);
    }
    s' := s'.(anchor := summary.core.oldest, remaining := s.remaining - c.count,
              result := s'.result.(anchor := summary.core.oldest));
    if s'.remaining > 0 && !turn.sleepOK {
      return s', Some(SleepCancelled);
    }
  }

  lemma LogAlgebra(front: seq<Notice>, a: Notice, b: Notice, c: Notice)
    ensures var full := front + [a, b, c];
            (front + [a]) + [b] == full[..|full| - 1] && (front + [a]) + [b, c] == full == full[..|full| - 0]
  {
  }

  /** c is the answered chunk that the pending request becomes. */
  predicate Becomes(x: Setting, s: Progress, c: Chunk) {
    && Follows(x, s.chunks, c)
    && s.pending == Some(Pending(c.sendID, c.anchor, c.count))
    && s.log == Stream(s.chunks) + [SentNotice(c)]
  }

  lemma AnsweredIsBooked(x: Setting, s: Progress, c: Chunk, cut: nat)
    requires cut <= 1 && Booked(s) && s.pending == Some(Pending(c.sendID, c.anchor, c.count))
    ensures Booked(Answered(s, c, cut)) && Answered(s, c, cut).chunks == s.chunks + [c]
  {
    OneMore(x, s.chunks, c);
    MergedOneMore(Summaries(s.chunks), c.summary, StatsOf(s.chunks), c.reply.stats);
  }

  lemma AnsweredLog(x: Setting, s: Progress, c: Chunk, cut: nat)
    requires cut <= 1 && Becomes(x, s, c)
    ensures var full := Stream(s.chunks + [c]);
            && cut <= |full| && Answered(s, c, cut).log == full[..|full| - cut]
            && (cut == 0 ==> full[..|full| - cut] == full)
  {
    OneMore(x, s.chunks, c);
    LogAlgebra(Stream(s.chunks), SentNotice(c), Received(c.summary), Ingested(c.reply.stats));
  }

  lemma AnsweredFields(s: Progress, c: Chunk, cut: nat)
    requires cut <= 1
    ensures var s' := Answered(s, c, cut);
            s'.chunks == s.chunks + [c] && s'.pending == None && s'.anchor == s.anchor && s'.remaining == s.remaining
  {
  }

  lemma PendingFacts(x: Setting, s: Progress, c: Chunk)
    requires EndedPending(x, s) && Becomes(x, s, c)
    ensures Chain(x, s.chunks + [c]) && s.anchor == c.anchor && s.remaining == x.req.limit - Asked(s.chunks)
  {
    ChainOneMore(x, s.chunks, c);
  }

  lemma AnsweredEnds(x: Setting, s: Progress, c: Chunk, cut: nat)
    requires cut <= 1 && EndedPending(x, s) && Becomes(x, s, c)
    ensures EndedAnswered(x, Answered(s, c, cut), cut)
    ensures Answered(s, c, cut).chunks == s.chunks + [c]
  {
    AnsweredIsBooked(x, s, c, cut);
    AnsweredLog(x, s, c, cut);
    PendingFacts(x, s, c);
    AnsweredStands(x, s, c, cut);
  }

  lemma AnsweredStands(x: Setting, s: Progress, c: Chunk, cut: nat)
    requires cut <= 1 && Chain(x, s.chunks + [c]) && s.anchor == c.anchor
             && s.remaining == x.req.limit - Asked(s.chunks)
    requires Booked(Answered(s, c, cut))
    requires var full := Stream(s.chunks + [c]); cut <= |full| && Answered(s, c, cut).log == full[..|full| - cut]
    ensures EndedAnswered(x, Answered(s, c, cut), cut)
    ensures Answered(s, c, cut).chunks == s.chunks + [c]
  {
    AnsweredFields(s, c, cut);
    assert (s.chunks + [c])[..|s.chunks + [c]| - 1] == s.chunks;
  }

  lemma MovedIsBooked(s: Progress, c: Chunk, s': Progress)
    requires Booked(Answered(s, c, 0)) && s' == Moved(s, c)
    ensures Booked(s') && s'.log == Answered(s, c, 0).log && s'.chunks == s.chunks + [c] && s'.pending == None
    ensures s'.anchor == c.summary.core.oldest && s'.remaining == s.remaining - c.count
  {
  }

  lemma StandsAtHead(x: Setting, s: Progress, chunks: seq<Chunk>, c: Chunk)
    requires s.chunks == chunks + [c] && Chain(x, s.chunks) && Digested(x.turns(|chunks|), c) && Booked(s)
    requires s.pending == None && s.log == Stream(s.chunks) && s.anchor == c.summary.core.oldest
    requires s.remaining == x.req.limit - Asked(chunks) - c.count && s.remaining >= 0
    ensures AtHead(x, s)
  {
    OneMore(x, chunks, c);
  }

  lemma CountFits(x: Setting, before: seq<Chunk>, c: Chunk)
    requires Follows(x, before, c)
    ensures 0 < c.count <= x.req.limit - Asked(before)
  {
  }

  lemma MovedIsAtHead(x: Setting, s: Progress, c: Chunk, s': Progress)
    requires EndedPending(x, s) && Becomes(x, s, c) && Digested(x.turns(|s.chunks|), c) && s' == Moved(s, c)
    ensures AtHead(x, s') && s'.chunks == s.chunks + [c] && s'.remaining == s.remaining - c.count < s.remaining
  {
    AnsweredIsBooked(x, s, c, 0);
    AnsweredLog(x, s, c, 0);
    MovedIsBooked(s, c, s');
    PendingFacts(x, s, c);
    CountFits(x, s.chunks, c);
    StandsAtHead(x, s', s.chunks, c);
  }

  /** The first half of a turn, at the head of the loop. */
  method SendAndWait(x: Setting, s: Progress) returns (s': Progress, reply: Option<Reply>, ending: Ending)
    requires x.req.limit > 0 && InfoOK(x.jids, StartOf(x.req)) && AtHead(x, s) && Slept(x, s.chunks) && s.remaining > 0
    ensures reply.None? ==> Ended(x, s', ending)
    ensures reply.Some? ==> EndedPending(x, s') && s'.chunks == s.chunks && s'.remaining == s.remaining
    ensures reply.Some? ==> x.turns(|s.chunks|).sentOK
                            && WaitResult(x.req.chatJID, x.turns(|s.chunks|).arrivals) == Got(reply.value)
  {
    s', reply, ending := Ask(x.req, x.jids, x.turns(|s.chunks|), s);
    if CanSend(x, s.chunks) {
      SentIsPending(x, s);
    }
  }

  lemma PendingBecomes(x: Setting, s: Progress, c: Chunk)
    requires EndedPending(x, s) && x.turns(|s.chunks|).sentOK
    requires s.pending == Some(Pending(c.sendID, c.anchor, c.count)) && c.now == x.turns(|s.chunks|).now
    requires WaitResult(x.req.chatJID, x.turns(|s.chunks|).arrivals) == Got(c.reply) && c.summary == SummaryOf(x.req, c)
    ensures Becomes(x, s, c)
  {
  }

  lemma SleepEnding(x: Setting, s: Progress, chunks: seq<Chunk>, c: Chunk)
    requires x.req.limit > 0 && InfoOK(x.jids, StartOf(x.req)) && AtHead(x, s) && s.chunks == chunks + [c]
    ensures s.remaining > 0 && !x.turns(|chunks|).sleepOK ==> Ended(x, s, SleepCancelled)
    ensures x.turns(|chunks|).sleepOK ==> Slept(x, s.chunks)
  {
  }

  lemma DigestedEnds(x: Setting, s: Progress, c: Chunk, s': Progress)
    requires x.req.limit > 0 && InfoOK(x.jids, StartOf(x.req)) && EndedPending(x, s) && Becomes(x, s, c)
    requires Digested(x.turns(|s.chunks|), c) && s' == Moved(s, c)
    ensures AtHead(x, s') && s'.remaining == s.remaining - c.count < s.remaining
    ensures s'.remaining > 0 && !x.turns(|s.chunks|).sleepOK ==> Ended(x, s', SleepCancelled)
    ensures x.turns(|s.chunks|).sleepOK ==> Slept(x, s'.chunks)
  {
    MovedIsAtHead(x, s, c, s');
    SleepEnding(x, s', s.chunks, c);
  }

  /** Why a run ends after an answer. */
  predicate Refuses(turn: Turn, c: Chunk, e: Ending) {
    || (e == ReceivedRefused && !turn.receivedOK)
    || (e == IngestedRefused && turn.receivedOK && !turn.ingestedOK)
    || (e == NothingOlder && turn.receivedOK && turn.ingestedOK && !Fruitful(c))
  }

  lemma AnsweredEnding(x: Setting, s: Progress, e: Ending, cut: nat)
    requires x.req.limit > 0 && InfoOK(x.jids, StartOf(x.req))
    requires EndedAnswered(x, s, cut) && cut == if e == ReceivedRefused then 1 else 0
    requires Refuses(LastTurn(x, s), s.chunks[|s.chunks| - 1], e)
    ensures Ended(x, s, e)
  {
  }

  lemma LastOf(x: Setting, s: Progress, chunks: seq<Chunk>, c: Chunk)
    requires s.chunks == chunks + [c]
    ensures LastTurn(x, s) == x.turns(|chunks|) && s.chunks[|s.chunks| - 1] == c
  {
  }

  lemma RefusedEnds(x: Setting, s: Progress, c: Chunk, e: Ending, s': Progress, cut: nat)
    requires x.req.limit > 0 && InfoOK(x.jids, StartOf(x.req)) && EndedPending(x, s) && Becomes(x, s, c)
    requires Refuses(x.turns(|s.chunks|), c, e) && cut == (if e == ReceivedRefused then 1 else 0)
    requires s' == Answered(s, c, cut)
    ensures Ended(x, s', e)
  {
    AnsweredEnds(x, s, c, cut);
    LastOf(x, s', s.chunks, c);
    AnsweredEnding(x, s', e, cut);
  }

  /** Summarize the answer, and the rest of the turn. */
  method Take(x: Setting, s: Progress, reply: Reply) returns (s': Progress, ending: Option<Ending>)
    requires x.req.limit > 0 && InfoOK(x.jids, StartOf(x.req)) && EndedPending(x, s) && x.turns(|s.chunks|).sentOK
    requires WaitResult(x.req.chatJID, x.turns(|s.chunks|).arrivals) == Got(reply)
    ensures ending.None? ==> AtHead(x, s') && (s'.remaining > 0 ==> Slept(x, s'.chunks)) && s'.remaining < s.remaining
    ensures ending.Some? ==> Ended(x, s', ending.value)
  {
    var p, now := s.pending.value, x.turns(|s.chunks|).now;
    var summary := SummarizeHistorySync(Frame(p.anchor.timestamp, x.req.chatJID, Some(now)), reply.evt);
    var c := Chunk(p.sendID, p.anchor, p.count, reply, now, summary);
    PendingBecomes(x, s, c);
    s', ending := Digest(x.turns(|s.chunks|), s, c);
    if Digested(x.turns(|s.chunks|), c) {
      DigestedEnds(x, s, c, s');
    } else {
      RefusedEnds(x, s, c, ending.value, s', if ending == Some(ReceivedRefused) then 1 else 0);
    }
  }

  /** One turn of the loop. */
  method Page(x: Setting, s: Progress) returns (s': Progress, ending: Option<Ending>)
    requires x.req.limit > 0 && InfoOK(x.jids, StartOf(x.req)) && AtHead(x, s) && Slept(x, s.chunks) && s.remaining > 0
    ensures ending.None? ==> AtHead(x, s') && (s'.remaining > 0 ==> Slept(x, s'.chunks)) && s'.remaining < s.remaining
    ensures ending.Some? ==> Ended(x, s', ending.value)
  {
    var sent, reply, stopped := SendAndWait(x, s);
    if reply.None? {
      return sent, Some(stopped);
    }
    s', ending := Take(x, sent, reply.value);
  }

  /** RunProcessedRequests. Where it stands at the end and why it ended; Ending.EndingIsDetermined says that this
      leaves no choice. */
  method RunProcessedRequests(req: Request, jids: set<string>, turns: nat -> Turn) returns (s: Progress, ending: Ending)
    ensures Ended(Setting(req, jids, turns), s, ending)
  {
    s := NOTHING;
    if req.limit <= 0 {
      return s, BadLimit;
    }
    var anchor := req.anchor;
    if anchor.chatJID == "" {
      anchor := anchor.(chatJID := req.chatJID);
    }
    if !InfoOK(jids, anchor) {
      return s, BadAnchor;
    }
    var x := Setting(req, jids, turns);
    s := s.(remaining := req.limit, anchor := anchor, result := s.result.(anchor := anchor));
    while s.remaining > 0
      invariant AtHead(x, s) && (s.remaining > 0 ==> Slept(x, s.chunks))
      decreases s.remaining
    {
      var stopped;
      s, stopped := Page(x, s);
      if stopped.Some? {
        return s, stopped.value;
      }
    }
    ending := Complete;
  }
}
