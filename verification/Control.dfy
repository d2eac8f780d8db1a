/** The control socket of control.go: which requests reach the executor, what a connection is sent, the verdict
    that closes it and the client's exit code. */
module Control {
  import opened Text
  import Types
  import Config
  import Summary
  import HistorySync
  import Backfill
  import Coverage

  const OP_BACKFILL := "backfill"
  const OP_WATCH := "watch_ingest"
  const DEFAULT_LIMIT: int := Backfill.DEFAULT_CHUNK_SIZE

  datatype Request = Request(
    op: string,
    chatJID: string,
    tenant: string,
    anchorMsgID: string,
    beforeUnix: int,
    limit: int)

  datatype Verdict = VIABLE | UNAVAILABLE | ERROR

  /** The events of a stream, without the reasons. */
  datatype Wire =
    | RequestSent(sendID: string, anchor: Summary.Anchor, requested: int)
    | HistorySyncReceived(messages: int, mediaEnvelopes: int, chats: seq<string>)
    | Ingested(rowsInserted: int, rowsUpdated: int, mediaHydrated: int)
    | Done(verdict: Verdict)

  // ---------------------------------------------------------------- requests

  method NormalizeRequest(req: Request) returns (r: Request)
    ensures r == Normalize(req)
  {
    r := req.(op := TrimSpace(req.op), chatJID := TrimSpace(req.chatJID), tenant := TrimSpace(req.tenant),
              anchorMsgID := TrimSpace(req.anchorMsgID));
    if r.limit <= 0 {
      r := r.(limit := DEFAULT_LIMIT);
    }
    if r.limit > DEFAULT_LIMIT {
      r := r.(limit := DEFAULT_LIMIT);
    }
  }

  function Normalize(req: Request): Request {
    Request(TrimSpace(req.op), TrimSpace(req.chatJID), TrimSpace(req.tenant), TrimSpace(req.anchorMsgID),
            req.beforeUnix,
            if 0 < req.limit <= DEFAULT_LIMIT then req.limit else DEFAULT_LIMIT)
  }

  /** The daemon normalizes again what the client has normalized, and sees the same request. */
  lemma NormalizeIdempotent(req: Request)
    ensures Normalize(Normalize(req)) == Normalize(req)
    ensures 1 <= Normalize(req).limit <= Backfill.DEFAULT_CHUNK_SIZE
  {
    TrimIdempotent(req.op);
    TrimIdempotent(req.chatJID);
    TrimIdempotent(req.tenant);
    TrimIdempotent(req.anchorMsgID);
  }

  datatype Admission = Refused | Watching | Backfilling

  /** The configuration allows the chat, to this tenant if one is named. */
  predicate Owned(req: Request, config: Option<map<string, Types.Group>>) {
    && req.chatJID != "" && config.Some? && req.chatJID in config.value
    && (req.tenant == "" || Config.HasTenant(config.value[req.chatJID], req.tenant))
  }

  /** And the named tenant is its only one. */
  predicate MayWatch(req: Request, config: Option<map<string, Types.Group>>) {
    req.op == OP_WATCH && req.tenant != "" && Owned(req, config) && config.value[req.chatJID].tenants == [req.tenant]
  }

  /** The checks of handleConn on a normalized request. */
  method Admit(req: Request, config: Option<map<string, Types.Group>>) returns (a: Admission)
    ensures a.Backfilling? <==> req.op == "backfill" && Owned(req, config)
    ensures a.Watching? ==> req.op == "watch_ingest"
    ensures a.Watching? <==> MayWatch(req, config)
  {
    if req.op != OP_BACKFILL && req.op != OP_WATCH {
      return Refused;
    }
    if req.chatJID == "" {
      return Refused;
    }
    if config.None? {
      return Refused;
    }
    if req.chatJID !in config.value {
      return Refused;
    }
    var group := config.value[req.chatJID];
    if req.tenant != "" && !Config.HasTenant(group, req.tenant) {
      return Refused;
    }
    if req.op == OP_WATCH {
      if req.tenant == "" || |group.tenants| != 1 || !Config.HasTenant(group, req.tenant) {
        return Refused;
      }
      return Watching;
    }
    a := Backfilling;
  }

  // ---------------------------------------------------------------- a backfill

  /** What the executor meets. */
  datatype World = World(
    clientReady: bool,
    channelReady: bool,
    anchor: Option<Summary.Anchor>,
    jids: set<string>,
    turns: nat -> Backfill.Turn)

  function WireOf(n: Backfill.Notice): Wire {
    match n
    case RequestSent(id, anchor, count) => RequestSent(id, anchor, count)
    case Received(s) => HistorySyncReceived(s.core.messages, s.core.media, s.chatJIDs)
    case Ingested(t) => Ingested(t.rows.inserted, t.rows.updated, t.rows.hydrated)
  }

  function WiresOf(log: seq<Backfill.Notice>): (r: seq<Wire>)
    ensures |r| == |log| && forall i | 0 <= i < |log| :: r[i] == WireOf(log[i])
  {
    if log == [] then [] else WiresOf(log[..|log| - 1]) + [WireOf(log[|log| - 1])]
  }

  /** What Execute hands to the paging loop. */
  function Paging(req: Request, w: World): Backfill.Setting
    requires w.anchor.Some?
  {
    Backfill.Setting(Backfill.Request(req.chatJID, w.anchor.value, req.limit, Backfill.DEFAULT_CHUNK_SIZE),
                     w.jids, w.turns)
  }

  /** verdictForResult */
  function VerdictOf(s: Backfill.Progress, e: Backfill.Ending): Verdict {
    if !e.Complete? then if Backfill.IsUnavailable(e) then UNAVAILABLE else ERROR
    else if Summary.Viable(s.result.summary) then VIABLE
    else UNAVAILABLE
  }

  /** A run of the paging loop, when there was one. */
  datatype Ran = Ran(progress: Backfill.Progress, ending: Backfill.Ending)

  /** The loop was run on this request and ended this way. */
  ghost predicate Runs(req: Request, w: World, ran: Ran) {
    w.anchor.Some? && Backfill.Ended(Paging(req, w), ran.progress, ran.ending)
  }

  /** Execute, with its events, and the done event that handleConn sends for it. */
  method Execute(req: Request, w: World) returns (stream: seq<Wire>, ran: Option<Ran>)
    ensures ran.Some? <==> w.clientReady && w.channelReady && w.anchor.Some?
    ensures ran.Some? ==> Runs(req, w, ran.value)
    ensures ran.Some? ==>
              stream == WiresOf(ran.value.progress.log) + [Done(VerdictOf(ran.value.progress, ran.value.ending))]
    ensures ran.Some? ==> AddsUp(stream, ran.value)
    ensures ran.None? ==> stream == [Done(ERROR)]
  {
    if !w.clientReady || !w.channelReady || w.anchor.None? {
      return [Done(ERROR)], None;
    }
    var s, e := Backfill.RunProcessedRequests(Paging(req, w).req, w.jids, w.turns);
    stream, ran := WiresOf(s.log) + [Done(VerdictOf(s, e))], Some(Ran(s, e));
    StreamAddsUp(req, w, Ran(s, e), VerdictOf(s, e));
  }

  /** handleConn up to the subscription loop: refused requests get one error, accepted backfills the executor's
      stream, and subscriptions are handed on. */
  method HandleConn(decoded: Option<Request>, config: Option<map<string, Types.Group>>, w: World)
    returns (stream: seq<Wire>, watching: bool, ran: Option<Ran>)
    ensures watching <==> decoded.Some? && MayWatch(Normalize(decoded.value), config)
    ensures watching ==> stream == [] && ran.None?
    ensures ran.Some? <==> decoded.Some? && Normalize(decoded.value).op == OP_BACKFILL
                           && Owned(Normalize(decoded.value), config)
                           && w.clientReady && w.channelReady && w.anchor.Some?
    ensures ran.Some? ==> Runs(Normalize(decoded.value), w, ran.value)
    ensures ran.Some? ==>
              stream == WiresOf(ran.value.progress.log) + [Done(VerdictOf(ran.value.progress, ran.value.ending))]
    ensures ran.None? && !watching ==> stream == [Done(ERROR)]
  {
    if decoded.None? {
      return [Done(ERROR)], false, None;
    }
    var req := NormalizeRequest(decoded.value);
    var a := Admit(req, config);
    match a {
      case Refused => return [Done(ERROR)], false, None;
      case Watching => return [], true, None;
      case Backfilling =>
        watching := false;
        stream, ran := Execute(req, w);
    }
  }

  // ---------------------------------------------------------------- what a stream adds up to

  datatype Totals = Totals(requested: int, messages: int, envelopes: int, inserted: int, updated: int, hydrated: int)

  /** The numbers of all events together. */
  function TotalsOf(stream: seq<Wire>): Totals {
    if stream == [] then Totals(0, 0, 0, 0, 0, 0)
    else Plus(TotalsOf(stream[..|stream| - 1]), stream[|stream| - 1])
  }

  /** The chats that any event names. */
  function ChatsIn(stream: seq<Wire>): set<string> {
    if stream == [] then {}
    else
      var last := stream[|stream| - 1];
      ChatsIn(stream[..|stream| - 1]) + if last.HistorySyncReceived? then Summary.ToSet(last.chats) else {}
  }

  lemma OneMoreWire(log: seq<Backfill.Notice>, n: Backfill.Notice)
    ensures WiresOf(log + [n]) == WiresOf(log) + [WireOf(n)]
  {
    assert (log + [n])[..|log + [n]| - 1] == log;
  }

  /** What one event adds. */
  function Plus(t: Totals, w: Wire): Totals {
    match w
    case RequestSent(_, _, requested) => t.(requested := t.requested + requested)
    case HistorySyncReceived(messages, mediaEnvelopes, _) =>
      t.(messages := t.messages + messages, envelopes := t.envelopes + mediaEnvelopes)
    case Ingested(rowsInserted, rowsUpdated, mediaHydrated) =>
      t.(inserted := t.inserted + rowsInserted, updated := t.updated + rowsUpdated,
         hydrated := t.hydrated + mediaHydrated)
    case Done(_) => t
  }

  lemma OneMoreAdds(stream: seq<Wire>, w: Wire)
    ensures TotalsOf(stream + [w]) == Plus(TotalsOf(stream), w)
    ensures ChatsIn(stream + [w]) == ChatsIn(stream) + if w.HistorySyncReceived? then Summary.ToSet(w.chats) else {}
  {
    assert (stream + [w])[..|stream + [w]| - 1] == stream;
  }

  function UpToReceived(chunks: seq<Backfill.Chunk>): seq<Wire>
    requires chunks != []
  {
    var c := chunks[|chunks| - 1];
    WiresOf(Backfill.Stream(chunks[..|chunks| - 1])) + [WireOf(Backfill.SentNotice(c))]
    + [WireOf(Backfill.Received(c.summary))]
  }

  lemma StreamOfChunks(chunks: seq<Backfill.Chunk>)
    requires chunks != []
    ensures var full, last := Backfill.Stream(chunks), Backfill.Ingested(chunks[|chunks| - 1].reply.stats);
            && full != [] && WiresOf(full) == UpToReceived(chunks) + [WireOf(last)]
            && WiresOf(full[..|full| - 1]) == UpToReceived(chunks)
  {
    var front, c := Backfill.Stream(chunks[..|chunks| - 1]), chunks[|chunks| - 1];
    var sent := front + [Backfill.SentNotice(c)];
    var received := sent + [Backfill.Received(c.summary)];
    OneMoreWire(front, Backfill.SentNotice(c));
    OneMoreWire(sent, Backfill.Received(c.summary));
    OneMoreWire(received, Backfill.Ingested(c.reply.stats));
    assert Backfill.Stream(chunks) == received + [Backfill.Ingested(c.reply.stats)];
    assert Backfill.Stream(chunks)[..|Backfill.Stream(chunks)| - 1] == received;
  }

  lemma {:induction false} ChunksAddUp(chunks: seq<Backfill.Chunk>)
    ensures TotalsOf(WiresOf(Backfill.Stream(chunks))) == NumbersOf(chunks)
    ensures ChatsIn(WiresOf(Backfill.Stream(chunks)))
         == Summary.ToSet(Summary.MergeAll(Backfill.Summaries(chunks)).chatJIDs)
    decreases |chunks|
  {
    if chunks != [] {
      ChunksAddUp(chunks[..|chunks| - 1]);
      LastChunkAdds(chunks);
    }
  }

  lemma LastChunkAdds(chunks: seq<Backfill.Chunk>)
    requires chunks != []
    requires var front := chunks[..|chunks| - 1];
             && TotalsOf(WiresOf(Backfill.Stream(front))) == NumbersOf(front)
             && ChatsIn(WiresOf(Backfill.Stream(front)))
                == Summary.ToSet(Summary.MergeAll(Backfill.Summaries(front)).chatJIDs)
    ensures TotalsOf(WiresOf(Backfill.Stream(chunks))) == NumbersOf(chunks)
    ensures ChatsIn(WiresOf(Backfill.Stream(chunks)))
         == Summary.ToSet(Summary.MergeAll(Backfill.Summaries(chunks)).chatJIDs)
  {
    LastTriple(chunks);
    MergedChats(chunks);
    MergedNumbers(chunks);
  }

  lemma LastTriple(chunks: seq<Backfill.Chunk>)
    requires chunks != []
    ensures var before, c := WiresOf(Backfill.Stream(chunks[..|chunks| - 1])), chunks[|chunks| - 1];
            && TotalsOf(WiresOf(Backfill.Stream(chunks))) == PlusChunk(TotalsOf(before), c)
            && ChatsIn(WiresOf(Backfill.Stream(chunks))) == ChatsIn(before) + Summary.ToSet(c.summary.chatJIDs)
  {
    var before, chunk := WiresOf(Backfill.Stream(chunks[..|chunks| - 1])), chunks[|chunks| - 1];
    var a, b := WireOf(Backfill.SentNotice(chunk)), WireOf(Backfill.Received(chunk.summary));
    var c := WireOf(Backfill.Ingested(chunk.reply.stats));
    StreamOfChunks(chunks);
    assert WiresOf(Backfill.Stream(chunks)) == before + [a] + [b] + [c];
    ThreeMoreAdd(before, a, b, c);
    ThreePlus(TotalsOf(before), chunk);
  }

  lemma ThreePlus(t: Totals, c: Backfill.Chunk)
    ensures Plus(Plus(Plus(t, WireOf(Backfill.SentNotice(c))), WireOf(Backfill.Received(c.summary))),
                 WireOf(Backfill.Ingested(c.reply.stats)))
         == PlusChunk(t, c)
  {
  }

  /** With the numbers of one more chunk. */
  function PlusChunk(t: Totals, c: Backfill.Chunk): Totals {
    Totals(t.requested + c.count, t.messages + c.summary.core.messages, t.envelopes + c.summary.core.media,
           t.inserted + c.reply.stats.rows.inserted, t.updated + c.reply.stats.rows.updated,
           t.hydrated + c.reply.stats.rows.hydrated)
  }

  lemma ThreeMoreAdd(stream: seq<Wire>, a: Wire, b: Wire, c: Wire)
    requires a.RequestSent? && b.HistorySyncReceived? && c.Ingested?
    ensures TotalsOf(stream + [a] + [b] + [c]) == Plus(Plus(Plus(TotalsOf(stream), a), b), c)
    ensures ChatsIn(stream + [a] + [b] + [c]) == ChatsIn(stream) + Summary.ToSet(b.chats)
  {
    OneMoreAdds(stream, a);
    OneMoreAdds(stream + [a], b);
    OneMoreAdds(stream + [a] + [b], c);
  }

  /** The merged numbers of the chunks. */
  function NumbersOf(chunks: seq<Backfill.Chunk>): Totals {
    var core := Summary.MergeAll(Backfill.Summaries(chunks)).core;
    var rows := HistorySync.MergeAll(Backfill.StatsOf(chunks)).rows;
    Totals(Backfill.Asked(chunks), core.messages, core.media, rows.inserted, rows.updated, rows.hydrated)
  }

  lemma MergedNumbers(chunks: seq<Backfill.Chunk>)
    requires chunks != []
    ensures NumbersOf(chunks) == PlusChunk(NumbersOf(chunks[..|chunks| - 1]), chunks[|chunks| - 1])
  {
    var sums, stats := Backfill.Summaries(chunks), Backfill.StatsOf(chunks);
    assert sums[..|sums| - 1] == Backfill.Summaries(chunks[..|chunks| - 1]);
    assert stats[..|stats| - 1] == Backfill.StatsOf(chunks[..|chunks| - 1]);
    Summary.MergeAllStep(sums);
  }

  lemma MergedChats(chunks: seq<Backfill.Chunk>)
    requires chunks != []
    ensures Summary.ToSet(Summary.MergeAll(Backfill.Summaries(chunks)).chatJIDs)
         == Summary.ToSet(Summary.MergeAll(Backfill.Summaries(chunks[..|chunks| - 1])).chatJIDs)
            + Summary.ToSet(chunks[|chunks| - 1].summary.chatJIDs)
  {
    var sums := Backfill.Summaries(chunks);
    assert sums[..|sums| - 1] == Backfill.Summaries(chunks[..|chunks| - 1]);
  }

  /** Whatever the ending, the requests on the stream add up to the number that the result calls requested, and the
      messages and media envelopes of the replies to those of the result's summary; and unless a client refuses the
      notice of a reply, the rows and files add up to those of the result's statistics. */
  ghost predicate AddsUp(stream: seq<Wire>, ran: Ran) {
    var t, r := TotalsOf(stream), ran.progress.result;
    && t.requested == r.requested && t.messages == r.summary.core.messages && t.envelopes == r.summary.core.media
    && ChatsIn(stream) == Summary.ToSet(r.summary.chatJIDs)
    && (ran.ending != Backfill.ReceivedRefused ==>
          t.inserted == r.stats.rows.inserted && t.updated == r.stats.rows.updated
          && t.hydrated == r.stats.rows.hydrated)
  }

  /** The chunks and what is pending make up the numbers of the result. */
  lemma BookedNumbers(s: Backfill.Progress)
    requires Backfill.Booked(s)
    ensures var t, r := NumbersOf(s.chunks), s.result;
            && r.requested == t.requested + Backfill.PendingCount(s.pending)
            && r.summary.core.messages == t.messages && r.summary.core.media == t.envelopes
            && r.stats.rows == HistorySync.Rows(t.inserted, t.updated, t.hydrated)
            && r.summary.chatJIDs == Summary.MergeAll(Backfill.Summaries(s.chunks)).chatJIDs
  {
  }

  lemma LogAddsUp(x: Backfill.Setting, ran: Ran)
    requires Backfill.Ended(x, ran.progress, ran.ending)
    ensures AddsUp(WiresOf(ran.progress.log), ran)
  {
    var s, e := ran.progress, ran.ending;
    if e.BadLimit? || e.BadAnchor? {
      assert s.log == [] && s.result == Backfill.NO_RESULT;
    } else {
      Coverage.EndedIsExplained(x, s, e);
      Coverage.LogOfEnding(x, s, e);
      BookedLogAddsUp(ran);
    }
  }

  /** From where the log of an ending stands. */
  lemma BookedLogAddsUp(ran: Ran)
    requires var s, e := ran.progress, ran.ending;
             && Backfill.Booked(s)
             && (s.pending.Some? ==>
                   && e != Backfill.ReceivedRefused
                   && s.log == Backfill.Stream(s.chunks) + [Backfill.PendingNotice(s.pending.value)])
             && (s.pending.None? && e != Backfill.ReceivedRefused ==> s.log == Backfill.Stream(s.chunks))
             && (e == Backfill.ReceivedRefused ==>
                   && s.pending.None? && s.chunks != [] && 1 <= |Backfill.Stream(s.chunks)|
                   && s.log == Backfill.Stream(s.chunks)[..|Backfill.Stream(s.chunks)| - 1])
    ensures AddsUp(WiresOf(ran.progress.log), ran)
  {
    var s := ran.progress;
    BookedNumbers(s);
    ChunksAddUp(s.chunks);
    if s.pending.Some? {
      PendingAdds(s.chunks, s.pending.value);
    } else if ran.ending == Backfill.ReceivedRefused {
      CutAddsUp(s.chunks);
    }
  }

  lemma PendingAdds(chunks: seq<Backfill.Chunk>, p: Backfill.Pending)
    ensures var full := WiresOf(Backfill.Stream(chunks));
            var t := TotalsOf(full);
            var longer := WiresOf(Backfill.Stream(chunks) + [Backfill.PendingNotice(p)]);
            && TotalsOf(longer) == t.(requested := t.requested + p.count) && ChatsIn(longer) == ChatsIn(full)
  {
    var full, w := WiresOf(Backfill.Stream(chunks)), WireOf(Backfill.PendingNotice(p));
    OneMoreWire(Backfill.Stream(chunks), Backfill.PendingNotice(p));
    OneMoreAdds(full, w);
  }

  lemma CutAddsUp(chunks: seq<Backfill.Chunk>)
    requires chunks != []
    ensures var full := Backfill.Stream(chunks);
            && full != []
            && var cut, t := WiresOf(full[..|full| - 1]), TotalsOf(WiresOf(full));
               && TotalsOf(cut).requested == t.requested && TotalsOf(cut).messages == t.messages
               && TotalsOf(cut).envelopes == t.envelopes && ChatsIn(cut) == ChatsIn(WiresOf(full))
  {
    StreamOfChunks(chunks);
    OneMoreAdds(UpToReceived(chunks), WireOf(Backfill.Ingested(chunks[|chunks| - 1].reply.stats)));
  }

  lemma DoneAddsNothing(stream: seq<Wire>, ran: Ran, v: Verdict)
    requires AddsUp(stream, ran)
    ensures AddsUp(stream + [Done(v)], ran)
  {
    OneMoreAdds(stream, Done(v));
  }

  lemma StreamAddsUp(req: Request, w: World, ran: Ran, v: Verdict)
    requires Runs(req, w, ran)
    ensures AddsUp(WiresOf(ran.progress.log) + [Done(v)], ran)
  {
    LogAddsUp(Paging(req, w), ran);
    DoneAddsNothing(WiresOf(ran.progress.log), ran, v);
  }

  /** The event of the first request. */
  predicate AsksFirst(w: Wire, x: Backfill.Setting) {
    var a, limit := x.req.anchor, x.req.limit;
    && x.turns(0).send.Some? && w.RequestSent? && w.sendID == x.turns(0).send.value
    && w.anchor == (if a.chatJID == "" then a.(chatJID := x.req.chatJID) else a)
    && w.requested == if limit < 50 then limit else 50
  }

  lemma FirstChunkAsks(x: Backfill.Setting, c: Backfill.Chunk)
    requires Backfill.Follows(x, [], c) && x.req.chunkSize == Backfill.DEFAULT_CHUNK_SIZE
    ensures AsksFirst(WireOf(Backfill.SentNotice(c)), x)
  {
  }

  lemma FirstPendingAsks(x: Backfill.Setting)
    requires Backfill.CanSend(x, []) && x.req.chunkSize == Backfill.DEFAULT_CHUNK_SIZE
    ensures AsksFirst(WireOf(Backfill.PendingNotice(Backfill.PendingAfter(x.req, x.turns(0).send.value, []))), x)
  {
  }

  lemma StandsWhere(x: Backfill.Setting, s: Backfill.Progress, e: Backfill.Ending)
    requires Backfill.Ended(x, s, e) && !e.BadLimit? && !e.BadAnchor?
    ensures s.chunks != [] ==> Backfill.Follows(x, [], s.chunks[0])
    ensures s.pending.Some? && s.chunks == [] ==>
              && Backfill.CanSend(x, [])
              && s.pending.value == Backfill.PendingAfter(x.req, x.turns(0).send.value, [])
  {
    Coverage.EndedIsExplained(x, s, e);
    if s.chunks != [] {
      assert Backfill.Follows(x, s.chunks[..0], s.chunks[0]);
    }
  }

  /** The first event of a stream says what the phone was asked for: by the id that the send returned, from the anchor,
      with its chat filled in, and for the limit or a whole chunk. */
  lemma FirstEventIsTheRequest(req: Request, w: World, ran: Ran)
    requires Runs(req, w, ran) && ran.progress.log != []
    ensures AsksFirst(WiresOf(ran.progress.log)[0], Paging(req, w))
  {
    var x, s, e := Paging(req, w), ran.progress, ran.ending;
    Coverage.LogOfEnding(x, s, e);
    StandsWhere(x, s, e);
    if s.chunks != [] {
      Coverage.StreamStarts(s.chunks);
      FirstChunkAsks(x, s.chunks[0]);
    } else {
      FirstPendingAsks(x);
    }
  }

  // ---------------------------------------------------------------- what a stream looks like

  /** One lone request, or one whole triple, or nothing. */
  predicate Body(stream: seq<Wire>) {
    || stream == []
    || (|stream| == 1 && stream[0].RequestSent?)
    || (|stream| == 3 && stream[0].RequestSent? && stream[1].HistorySyncReceived? && stream[2].Ingested?)
  }

  lemma OneChunkAtMost(req: Request, w: World, ran: Ran)
    requires 1 <= req.limit <= Backfill.DEFAULT_CHUNK_SIZE && Runs(req, w, ran)
    ensures |ran.progress.chunks| <= 1
    ensures ran.progress.pending.Some? ==> ran.progress.chunks == []
  {
    var x, s, e := Paging(req, w), ran.progress, ran.ending;
    if !e.BadLimit? && !e.BadAnchor? {
      Coverage.EndedIsExplained(x, s, e);
      Coverage.AskedExactly(x, s.chunks);
      assert Backfill.SizeOf(x.req) == Backfill.DEFAULT_CHUNK_SIZE;
      FullChunkIsAll(s.chunks, Backfill.DEFAULT_CHUNK_SIZE, req.limit);
      PendingIsLeft(x, s, e);
    }
  }

  lemma FullChunkIsAll(chunks: seq<Backfill.Chunk>, size: int, limit: int)
    requires Coverage.AsksFully(chunks, size, limit) && 1 <= limit <= size
    ensures |chunks| <= 1 && (chunks != [] ==> Backfill.Asked(chunks) == limit)
  {
    TimesIsProduct(|chunks|, size);
    if |chunks| >= 1 {
      TimesIsProduct(|chunks| - 1, size);
      assert |chunks| >= 2 ==> (|chunks| - 1) * size >= size;
    }
  }

  lemma PendingIsLeft(x: Backfill.Setting, s: Backfill.Progress, e: Backfill.Ending)
    requires Backfill.Ended(x, s, e) && !e.BadLimit? && !e.BadAnchor?
    ensures s.pending.Some? ==> Backfill.Asked(s.chunks) < x.req.limit
  {
  }

  lemma ShortLog(log: seq<Backfill.Notice>)
    requires Coverage.WellFormed(log) && |log| <= 3
    ensures Body(WiresOf(log)) && (|log| == 1 <==> !Coverage.Triples(log))
  {
    if Coverage.Triples(log) && log != [] {
      assert |log| == 3;
    } else if log != [] {
      assert Coverage.Triples(log[..|log| - 1]);
    }
  }

  lemma LogLength(x: Backfill.Setting, s: Backfill.Progress, e: Backfill.Ending)
    requires Backfill.Ended(x, s, e)
    ensures |s.log| <= 3 * |s.chunks| + if s.pending.Some? then 1 else 0
  {
    if !e.BadLimit? && !e.BadAnchor? {
      Coverage.LogOfEnding(x, s, e);
      Coverage.StreamIsTriples(s.chunks);
    }
  }

  lemma NothingRefused(x: Backfill.Setting, s: Backfill.Progress, e: Backfill.Ending)
    requires Backfill.Ended(x, s, e)
    requires forall k :: x.turns(k).sentOK && x.turns(k).receivedOK && x.turns(k).ingestedOK
    ensures !e.SentRefused? && !e.ReceivedRefused? && !e.IngestedRefused?
  {
  }

  /** On a connection that takes every event, an accepted backfill sends at most one triple, although the loop
      below it pages: both the limit and the chunk are capped at the same size. */
  lemma StreamShape(req: Request, w: World, ran: Ran)
    requires 1 <= req.limit <= Backfill.DEFAULT_CHUNK_SIZE && Runs(req, w, ran)
    requires forall k :: w.turns(k).sentOK && w.turns(k).receivedOK && w.turns(k).ingestedOK
    ensures Body(WiresOf(ran.progress.log))
    ensures |WiresOf(ran.progress.log)| == 1 <==> ran.ending.NoReply?
  {
    var x, s, e := Paging(req, w), ran.progress, ran.ending;
    NothingRefused(x, s, e);
    Coverage.NoticesAreWellFormed(x, s, e);
    OneChunkAtMost(req, w, ran);
    LogLength(x, s, e);
    ShortLog(s.log);
  }

  lemma SummariesCount(x: Backfill.Setting, chunks: seq<Backfill.Chunk>, k: nat)
    requires Backfill.Chain(x, chunks) && k < |chunks|
    ensures Summary.Counts(chunks[k].summary)
  {
    Coverage.CountPositive(x, chunks, k);
    Summary.FoldCounts(Backfill.FrameOf(x.req, chunks[k]), chunks[k].reply.evt.value.conversations);
  }

  lemma {:induction false} SummariesIn(chunks: seq<Backfill.Chunk>)
    ensures |Backfill.Summaries(chunks)| == |chunks|
    ensures forall k | 0 <= k < |chunks| :: Backfill.Summaries(chunks)[k] == chunks[k].summary
    decreases |chunks|
  {
    if chunks != [] {
      SummariesIn(chunks[..|chunks| - 1]);
    }
  }

  /** The verdict is VIABLE exactly when the run finished and, over its chunks, some valid message, some media
      envelope and some message of the anchor's day before its anchor was seen. */
  lemma ViableExactly(x: Backfill.Setting, s: Backfill.Progress, e: Backfill.Ending)
    requires Backfill.Ended(x, s, e) && !e.BadLimit? && !e.BadAnchor?
    ensures var sums := Backfill.Summaries(s.chunks);
            VerdictOf(s, e) == VIABLE
            <==> && e == Backfill.Complete
                 && Summary.SomeMessage(sums) && Summary.SomeMedia(sums) && Summary.SomeSameDay(sums)
  {
    Coverage.EndedIsExplained(x, s, e);
    AllCount(x, s.chunks);
    Summary.ViableOverChunks(Backfill.Summaries(s.chunks));
  }

  lemma AllCount(x: Backfill.Setting, chunks: seq<Backfill.Chunk>)
    requires Backfill.Chain(x, chunks)
    ensures forall c | c in Backfill.Summaries(chunks) :: Summary.Counts(c)
  {
    SummariesIn(chunks);
    forall c | c in Backfill.Summaries(chunks) ensures Summary.Counts(c) {
      var k :| 0 <= k < |chunks| && Backfill.Summaries(chunks)[k] == c;
      SummariesCount(x, chunks, k);
    }
  }

  /** A request was out, and nothing answered before its time was up. */
  ghost predicate TimedOut(x: Backfill.Setting, s: Backfill.Progress) {
    && Backfill.EndedPending(x, s) && x.turns(|s.chunks|).sentOK
    && Backfill.WaitResult(x.req.chatJID, x.turns(|s.chunks|).arrivals) == Backfill.Unavailable
  }

  /** The last reply was reported, and it held no message of the chat. */
  ghost predicate CameEmpty(x: Backfill.Setting, s: Backfill.Progress) {
    && s.pending.None? && s.chunks != [] && !Backfill.Fruitful(s.chunks[|s.chunks| - 1])
    && Backfill.LastTurn(x, s).receivedOK && Backfill.LastTurn(x, s).ingestedOK
  }

  lemma TimedOutExactly(x: Backfill.Setting, s: Backfill.Progress, e: Backfill.Ending)
    requires Backfill.Ended(x, s, e)
    ensures e == Backfill.NoReply(true) <==> TimedOut(x, s)
  {
  }

  lemma CameEmptyExactly(x: Backfill.Setting, s: Backfill.Progress, e: Backfill.Ending)
    requires Backfill.Ended(x, s, e)
    ensures e == Backfill.NothingOlder <==> CameEmpty(x, s)
  {
  }

  /** The verdict is UNAVAILABLE exactly when nothing answered in time, a reply held no message of the chat, or a
      finished run was not viable; every other ending is an ERROR. What the turns meet decides which. */
  lemma UnavailableExactly(x: Backfill.Setting, s: Backfill.Progress, e: Backfill.Ending)
    requires Backfill.Ended(x, s, e)
    ensures VerdictOf(s, e) == UNAVAILABLE
        <==> (e == Backfill.Complete && !Summary.Viable(s.result.summary)) || TimedOut(x, s) || CameEmpty(x, s)
  {
    TimedOutExactly(x, s, e);
    CameEmptyExactly(x, s, e);
  }

  // ---------------------------------------------------------------- the client

  method ExitCodeForVerdict(v: Verdict) returns (code: int)
    ensures code == ExitCode(v)
  {
    match v {
      case VIABLE => code := 0;
      case UNAVAILABLE => code := 2;
      case ERROR => code := 1;
    }
  }

  function ExitCode(v: Verdict): int {
    match v
    case VIABLE => 0
    case UNAVAILABLE => 2
    case ERROR => 1
  }

  /** The reading loop of RunBackfillClient: None is a line that does not parse; the last done event decides, and
      a stream without one is an error. */
  method ReadStream(lines: seq<Option<Wire>>, scanFails: bool) returns (code: int, failed: bool)
    ensures failed <==>
              || scanFails || None in lines
              || forall i | 0 <= i < |lines| :: !(lines[i].Some? && lines[i].value.Done?)
    ensures failed ==> code == 1
    ensures !failed ==> exists i :: && 0 <= i < |lines| && lines[i].Some? && lines[i].value.Done?
                                    && code == ExitCode(lines[i].value.verdict)
                                    && forall j | i < j < |lines| :: !lines[j].value.Done?
  {
    var final: Option<Verdict> := None;
    ghost var at := 0;
    var i := 0;
    while i < |lines|
      invariant 0 <= i <= |lines| && None !in lines[..i]
      invariant final.None? ==> forall k | 0 <= k < i :: !lines[k].value.Done?
      invariant final.Some? ==> 0 <= at < i && lines[at].value == Done(final.value)
                                && forall k | at < k < i :: !lines[k].value.Done?
    {
      if lines[i].None? {
        return 1, true;
      }
      if lines[i].value.Done? {
        final, at := Some(lines[i].value.verdict), i;
      }
      assert lines[..i + 1] == lines[..i] + [lines[i]];
      i := i + 1;
    }
    assert lines[..i] == lines;
    if scanFails || final.None? {
      return 1, true;
    }
    code := ExitCodeForVerdict(final.value);
    failed := false;
  }

  /** A whole stream as the client's scanner sees it. */
  function Lines(stream: seq<Wire>): seq<Option<Wire>> {
    seq(|stream|, (i: nat) requires i < |stream| => Some(stream[i]))
  }

  /** From the daemon's run to the exit code: nothing before the last event is a done event, so a client that
      reads the whole stream of a run exits 0 exactly on VIABLE, 2 on UNAVAILABLE, and 1 on ERROR. */
  method ClientAndDaemon(req: Request, w: World) returns (code: int, ran: Option<Ran>)
    ensures ran.Some? <==> w.clientReady && w.channelReady && w.anchor.Some?
    ensures ran.Some? ==> Runs(req, w, ran.value)
    ensures code == 0 <==> ran.Some? && VerdictOf(ran.value.progress, ran.value.ending) == VIABLE
    ensures code == 2 <==> ran.Some? && VerdictOf(ran.value.progress, ran.value.ending) == UNAVAILABLE
    ensures code in {0, 1, 2}
  {
    var stream;
    stream, ran := Execute(req, w);
    ghost var v := if ran.Some? then VerdictOf(ran.value.progress, ran.value.ending) else ERROR;
    DoneIsLast(if ran.Some? then ran.value.progress.log else [], v);
    assert stream == WiresOf(if ran.Some? then ran.value.progress.log else []) + [Done(v)];
    code := ReadWhole(stream, v);
  }

  /** Nothing before the last event of a run's stream is a done event. */
  lemma DoneIsLast(log: seq<Backfill.Notice>, v: Verdict)
    ensures var stream := WiresOf(log) + [Done(v)];
            stream[|stream| - 1] == Done(v) && forall i | 0 <= i < |stream| - 1 :: !stream[i].Done?
  {
  }

  method ReadWhole(stream: seq<Wire>, ghost v: Verdict) returns (code: int)
    requires stream != [] && stream[|stream| - 1] == Done(v)
    requires forall i | 0 <= i < |stream| - 1 :: !stream[i].Done?
    ensures code == ExitCode(v)
  {
    var lines := Lines(stream);
    var failed;
    code, failed := ReadStream(lines, false);
    assert lines[|stream| - 1] == Some(stream[|stream| - 1]);
  }
}

/** The request mutex of handleConn: any number of connections, one executor. */
module ExecutorProtocol {
  import opened Text

  datatype Phase = Waiting | Running | Finished

  /** Who holds the mutex, where every connection is, and which connection made each send to the phone or receive
      from the history channel, in order. */
  datatype State = State(holder: Option<nat>, phases: map<nat, Phase>, touches: seq<nat>)

  datatype Action = Arrive(c: nat) | Lock(c: nat) | Touch(c: nat) | Unlock(c: nat)

  predicate Enabled(s: State, a: Action) {
    match a
    case Arrive(c) => c !in s.phases
    case Lock(c) => c in s.phases && s.phases[c].Waiting? && s.holder.None?
    case Touch(c) => c in s.phases && s.phases[c].Running?
    case Unlock(c) => c in s.phases && s.phases[c].Running?
  }

  function Next(s: State, a: Action): State {
    if !Enabled(s, a) then s
    else match a
      case Arrive(c) => s.(phases := s.phases[c := Waiting])
      case Lock(c) => s.(holder := Some(c), phases := s.phases[c := Running])
      case Touch(c) => s.(touches := s.touches + [c])
      case Unlock(c) => s.(holder := None, phases := s.phases[c := Finished])
  }

  function Exec(schedule: seq<Action>): State {
    if schedule == [] then State(None, map[], []) else Next(Exec(schedule[..|schedule| - 1]), schedule[|schedule| - 1])
  }

  /** The touches of one connection are never interleaved with those of another. */
  ghost predicate Unbroken(touches: seq<nat>) {
    forall i, j, k | 0 <= i < j < k < |touches| && touches[i] == touches[k] :: touches[j] == touches[i]
  }

  ghost predicate OneHolder(s: State) {
    forall c :: c in s.phases && s.phases[c].Running? <==> s.holder == Some(c)
  }

  ghost predicate Inv(s: State) {
    && OneHolder(s) && Unbroken(s.touches)
    && (forall i | 0 <= i < |s.touches| :: s.touches[i] in s.phases && !s.phases[s.touches[i]].Waiting?)
    && (s.holder.Some? && s.holder.value in s.touches ==> s.touches[|s.touches| - 1] == s.holder.value)
  }

  lemma StepKeepsInv(s: State, a: Action)
    requires Inv(s)
    ensures Inv(Next(s, a))
  {
    if Enabled(s, a) && a.Touch? {
      var t := s.touches + [a.c];
      forall i, j, k | 0 <= i < j < k < |t| && t[i] == t[k] ensures t[j] == t[i] {
        if k == |t| - 1 {
          assert s.touches[i] == a.c && s.touches[|s.touches| - 1] == a.c;
        }
      }
    }
  }

  /** In every interleaving at most one connection executes, and the requests it sends and the replies it takes
      from the shared channel form one block: no other connection can take a reply between them. */
  lemma {:induction false} ExecutorIsExclusive(schedule: seq<Action>)
    ensures OneHolder(Exec(schedule)) && Unbroken(Exec(schedule).touches) && Inv(Exec(schedule))
    decreases |schedule|
  {
    if schedule != [] {
      ExecutorIsExclusive(schedule[..|schedule| - 1]);
      StepKeepsInv(Exec(schedule[..|schedule| - 1]), schedule[|schedule| - 1]);
    }
  }
}
