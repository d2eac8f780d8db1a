/** What a backfill run amounts to: how many requests it makes, what its notices say, and that faithful replies
    make its chunks a gap-free, newest-first prefix of the history. */
module Coverage {
  import opened Text
  import opened Summary
  import opened Backfill
  import HistorySync

  // ---------------------------------------------------------------- counting

  lemma LastFollows(x: Setting, chunks: seq<Chunk>)
    requires Chain(x, chunks) && chunks != []
    ensures Follows(x, chunks[..|chunks| - 1], chunks[|chunks| - 1])
  {
  }

  lemma FollowsAsks(x: Setting, before: seq<Chunk>, c: Chunk)
    requires Follows(x, before, c)
    ensures Asked(before) < x.req.limit && c.count == Min(SizeOf(x.req), x.req.limit - Asked(before))
  {
  }

  lemma LastAsked(x: Setting, chunks: seq<Chunk>, before: int)
    requires Chain(x, chunks) && chunks != [] && before == Asked(chunks[..|chunks| - 1])
    ensures before < x.req.limit && Asked(chunks) == before + Min(SizeOf(x.req), x.req.limit - before)
  {
    LastFollows(x, chunks);
    FollowsAsks(x, chunks[..|chunks| - 1], chunks[|chunks| - 1]);
  }

  /** Full chunks as long as possible, and then what is left. */
  predicate AsksFully(chunks: seq<Chunk>, size: int, limit: int) {
    && Asked(chunks) == Min(Times(|chunks|, size), limit)
    && (chunks != [] ==> Times(|chunks| - 1, size) == Asked(chunks[..|chunks| - 1]) < limit)
  }

  lemma AsksFullyNext(chunks: seq<Chunk>, size: int, limit: int)
    requires chunks != []
    requires var front := chunks[..|chunks| - 1];
             && AsksFully(front, size, limit) && Asked(front) < limit
             && Asked(chunks) == Asked(front) + Min(size, limit - Asked(front))
    ensures AsksFully(chunks, size, limit)
  {
    assert Times(|chunks|, size) == Times(|chunks| - 1, size) + size;
  }

  /** All requests but the last ask for a full chunk, and the last for what is left. */
  lemma {:induction false} AskedExactly(x: Setting, chunks: seq<Chunk>)
    requires Chain(x, chunks) && x.req.limit > 0
    ensures AsksFully(chunks, SizeOf(x.req), x.req.limit)
    decreases |chunks|
  {
    if chunks != [] {
      FrontChain(x, chunks);
      AskedExactly(x, chunks[..|chunks| - 1]);
      LastAsked(x, chunks, Asked(chunks[..|chunks| - 1]));
      AsksFullyNext(chunks, SizeOf(x.req), x.req.limit);
    }
  }

  lemma FrontFollows(x: Setting, chunks: seq<Chunk>, k: nat)
    requires Chain(x, chunks) && k < |chunks| - 1
    ensures var front := chunks[..|chunks| - 1]; Follows(x, front[..k], front[k])
  {
    var front := chunks[..|chunks| - 1];
    assert front[..k] == chunks[..k] && front[k] == chunks[k];
    assert Follows(x, chunks[..k], chunks[k]);
  }

  lemma FrontChain(x: Setting, chunks: seq<Chunk>)
    requires Chain(x, chunks) && chunks != []
    ensures Chain(x, chunks[..|chunks| - 1])
  {
    var front := chunks[..|chunks| - 1];
    forall k: nat | k < |front| ensures Follows(x, front[..k], front[k]) {
      FrontFollows(x, chunks, k);
    }
  }

  /** A run without an error asked for exactly the limit, in the fewest chunks of that size. */
  lemma CompleteIsCeiling(x: Setting, s: Progress, size: int)
    requires Ended(x, s, Complete) && size == SizeOf(x.req)
    ensures s.result.requested == x.req.limit
    ensures s.result.chunks >= 1
    ensures (s.result.chunks - 1) * size < x.req.limit <= s.result.chunks * size
  {
    AskedExactly(x, s.chunks);
    EndedIsExplained(x, s, Complete);
    TimesIsProduct(|s.chunks|, size);
    TimesIsProduct(if s.chunks == [] then 0 else |s.chunks| - 1, size);
  }

  function SentCount(log: seq<Notice>): int {
    if log == [] then 0
    else
      var last := log[|log| - 1];
      SentCount(log[..|log| - 1]) + if last.RequestSent? then last.count else 0
  }

  lemma SentCountOne(log: seq<Notice>, n: Notice)
    ensures SentCount(log + [n]) == SentCount(log) + if n.RequestSent? then n.count else 0
  {
    assert (log + [n])[..|log + [n]| - 1] == log;
  }

  lemma {:induction false} SentCountOfStream(chunks: seq<Chunk>)
    ensures SentCount(Stream(chunks)) == Asked(chunks)
    decreases |chunks|
  {
    if chunks != [] {
      var front, c := chunks[..|chunks| - 1], chunks[|chunks| - 1];
      SentCountOfStream(front);
      SentCountOne(Stream(front), SentNotice(c));
      SentCountOne(Stream(front) + [SentNotice(c)], Received(c.summary));
      SentCountOne(Stream(front) + [SentNotice(c)] + [Received(c.summary)], Ingested(c.reply.stats));
      assert Stream(chunks) == Stream(front) + [SentNotice(c)] + [Received(c.summary)] + [Ingested(c.reply.stats)];
    }
  }

  lemma SentCountOfPending(chunks: seq<Chunk>, p: Pending)
    ensures SentCount(Stream(chunks) + [PendingNotice(p)]) == Asked(chunks) + p.count
  {
    SentCountOfStream(chunks);
    SentCountOne(Stream(chunks), PendingNotice(p));
  }

  lemma SentCountOfCut(chunks: seq<Chunk>, cut: nat)
    requires chunks != [] && cut <= 1
    ensures cut <= |Stream(chunks)| && SentCount(Stream(chunks)[..|Stream(chunks)| - cut]) == Asked(chunks)
  {
    SentCountOfStream(chunks);
    LastIsIngested(chunks);
    var full := Stream(chunks);
    if cut == 1 {
      SentCountOne(full[..|full| - 1], Ingested(chunks[|chunks| - 1].reply.stats));
    } else {
      assert full[..|full| - 0] == full;
    }
  }

  lemma LogOfPending(x: Setting, s: Progress, e: Ending)
    requires EndedRun(x, s, e) && (e.SentRefused? || e.NoReply?)
    ensures s.pending.Some? && s.log == Stream(s.chunks) + [PendingNotice(s.pending.value)]
  {
  }

  lemma LogOfAnswered(x: Setting, s: Progress, e: Ending)
    requires EndedRun(x, s, e) && (e.ReceivedRefused? || e.IngestedRefused? || e.NothingOlder?)
    ensures s.pending.None? && s.chunks != [] && 1 <= |Stream(s.chunks)|
    ensures s.log == if e.ReceivedRefused? then Stream(s.chunks)[..|Stream(s.chunks)| - 1] else Stream(s.chunks)
  {
    var full := Stream(s.chunks);
    assert full[..|full| - 0] == full;
  }

  /** The first notice is the request of the first chunk. */
  lemma {:induction false} StreamStarts(chunks: seq<Chunk>)
    requires chunks != []
    ensures |Stream(chunks)| >= 3 && Stream(chunks)[0] == SentNotice(chunks[0])
    decreases |chunks|
  {
    if |chunks| > 1 {
      StreamStarts(chunks[..|chunks| - 1]);
    }
  }

  /** What was logged in every ending. */
  lemma LogOfEnding(x: Setting, s: Progress, e: Ending)
    requires Ended(x, s, e) && !e.BadLimit? && !e.BadAnchor?
    ensures s.pending.Some? <==> e.SentRefused? || e.NoReply?
    ensures s.pending.Some? ==> s.log == Stream(s.chunks) + [PendingNotice(s.pending.value)]
    ensures s.pending.None? && e != ReceivedRefused ==> s.log == Stream(s.chunks)
    ensures e == ReceivedRefused ==>
              && s.chunks != [] && 1 <= |Stream(s.chunks)|
              && s.log == Stream(s.chunks)[..|Stream(s.chunks)| - 1]
  {
    if e.SentRefused? || e.NoReply? {
      LogOfPending(x, s, e);
    } else if e.ReceivedRefused? || e.IngestedRefused? || e.NothingOlder? {
      LogOfAnswered(x, s, e);
    }
  }

  /** In every ending, with an error or without, the result's Requested is the sum of the counts that were
      really sent. */
  lemma RequestedIsWhatWasSent(x: Setting, s: Progress, e: Ending)
    requires Ended(x, s, e)
    ensures s.result.requested == SentCount(s.log)
  {
    if !e.BadLimit? && !e.BadAnchor? {
      EndedIsExplained(x, s, e);
      LogOfEnding(x, s, e);
      SentCountOfLog(s, e == ReceivedRefused);
    }
  }

  lemma SentCountOfLog(s: Progress, cut: bool)
    requires s.pending.Some? ==> !cut && s.log == Stream(s.chunks) + [PendingNotice(s.pending.value)]
    requires s.pending.None? && !cut ==> s.log == Stream(s.chunks)
    requires cut ==> s.chunks != [] && 1 <= |Stream(s.chunks)| && s.log == Stream(s.chunks)[..|Stream(s.chunks)| - 1]
    ensures SentCount(s.log) == Asked(s.chunks) + PendingCount(s.pending)
  {
    if s.pending.Some? {
      SentCountOfPending(s.chunks, s.pending.value);
    } else if cut {
      SentCountOfCut(s.chunks, 1);
    } else {
      SentCountOfStream(s.chunks);
    }
  }

  lemma LastIsIngested(chunks: seq<Chunk>)
    requires chunks != []
    ensures Stream(chunks) == Stream(chunks)[..|Stream(chunks)| - 1] + [Ingested(chunks[|chunks| - 1].reply.stats)]
  {
  }

  // ---------------------------------------------------------------- the notices

  /** Request sent, history sync received, ingested; again and again. */
  predicate Triples(log: seq<Notice>) {
    log == [] ||
    (var n := |log|;
     n >= 3 && log[n - 3].RequestSent? && log[n - 2].Received? && log[n - 1].Ingested? && Triples(log[..n - 3]))
  }

  /** Triples, and perhaps one request that was not answered. */
  predicate WellFormed(log: seq<Notice>) {
    Triples(log) || (log != [] && log[|log| - 1].RequestSent? && Triples(log[..|log| - 1]))
  }

  lemma {:induction false} StreamIsTriples(chunks: seq<Chunk>)
    ensures Triples(Stream(chunks)) && |Stream(chunks)| == 3 * |chunks|
    decreases |chunks|
  {
    if chunks != [] {
      var front, c := chunks[..|chunks| - 1], chunks[|chunks| - 1];
      StreamIsTriples(front);
      assert Stream(chunks)[..|Stream(chunks)| - 3] == Stream(front);
    }
  }

  lemma LoneIsWellFormed(log: seq<Notice>, lone: Notice)
    requires Triples(log) && lone.RequestSent?
    ensures WellFormed(log + [lone]) && !Triples(log + [lone])
  {
    assert (log + [lone])[..|log + [lone]| - 1] == log;
  }

  /** As long as no received notice is refused, the notices are triples and at most one lone request. */
  lemma NoticesAreWellFormed(x: Setting, s: Progress, e: Ending)
    requires Ended(x, s, e) && !e.ReceivedRefused?
    ensures WellFormed(s.log)
    ensures Triples(s.log) <==> !e.SentRefused? && !e.NoReply?
  {
    if !e.BadLimit? && !e.BadAnchor? {
      LogOfEnding(x, s, e);
      StreamIsTriples(s.chunks);
      if e.SentRefused? || e.NoReply? {
        LoneIsWellFormed(Stream(s.chunks), PendingNotice(s.pending.value));
      }
    }
  }

  // ---------------------------------------------------------------- coverage

  function TimeAt(h: seq<Anchor>, i: nat): int
    requires i < |h|
  {
    h[i].timestamp
  }

  /** A chat's history, newest first, with distinct times. */
  ghost predicate NewestFirst(h: seq<Anchor>) {
    forall i: nat, j: nat | i < j < |h| :: TimeAt(h, j) < TimeAt(h, i)
  }

  lemma Newer(h: seq<Anchor>, i: nat, j: nat)
    requires NewestFirst(h) && i < j < |h|
    ensures h[j].timestamp < h[i].timestamp
  {
    assert TimeAt(h, j) < TimeAt(h, i);
  }

  /** Where, among the first n messages, those strictly before a time start. */
  function StartTo(h: seq<Anchor>, ts: int, n: nat): (i: nat)
    requires n <= |h|
    ensures i <= n
  {
    if n == 0 || h[n - 1].timestamp >= ts then n else StartTo(h, ts, n - 1)
  }

  /** Where the messages strictly before a time start. */
  function Start(h: seq<Anchor>, ts: int): (i: nat)
    ensures i <= |h|
  {
    StartTo(h, ts, |h|)
  }

  lemma {:induction false} StartToSplits(h: seq<Anchor>, ts: int, n: nat)
    requires NewestFirst(h) && n <= |h|
    ensures forall j | 0 <= j < StartTo(h, ts, n) :: h[j].timestamp >= ts
    ensures forall j | StartTo(h, ts, n) <= j < n :: h[j].timestamp < ts
  {
    if n > 0 && h[n - 1].timestamp < ts {
      StartToSplits(h, ts, n - 1);
    } else {
      forall j | 0 <= j < n - 1 ensures h[j].timestamp >= ts {
        Newer(h, j, n - 1);
      }
    }
  }

  lemma StartSplits(h: seq<Anchor>, ts: int)
    requires NewestFirst(h)
    ensures forall j | 0 <= j < Start(h, ts) :: h[j].timestamp >= ts
    ensures forall j | Start(h, ts) <= j < |h| :: h[j].timestamp < ts
  {
    StartToSplits(h, ts, |h|);
  }

  lemma {:induction false} StartToIs(h: seq<Anchor>, ts: int, n: nat, i: nat)
    requires i <= n <= |h|
    requires forall j | 0 <= j < i :: h[j].timestamp >= ts
    requires forall j | i <= j < n :: h[j].timestamp < ts
    ensures StartTo(h, ts, n) == i
    decreases n
  {
    if i < n {
      StartToIs(h, ts, n - 1, i);
    }
  }

  lemma StartIs(h: seq<Anchor>, ts: int, i: nat)
    requires i <= |h|
    requires forall j | 0 <= j < i :: h[j].timestamp >= ts
    requires forall j | i <= j < |h| :: h[j].timestamp < ts
    ensures Start(h, ts) == i
  {
    StartToIs(h, ts, |h|, i);
  }

  lemma StartAfter(h: seq<Anchor>, e: nat)
    requires NewestFirst(h) && 0 < e <= |h|
    ensures Start(h, h[e - 1].timestamp) == e
  {
    forall j | 0 <= j < e ensures h[j].timestamp >= h[e - 1].timestamp {
      if j < e - 1 { Newer(h, j, e - 1); }
    }
    forall j | e <= j < |h| ensures h[j].timestamp < h[e - 1].timestamp {
      Newer(h, e - 1, j);
    }
    StartIs(h, h[e - 1].timestamp, e);
  }

  /** Where a reply of at most count messages before a time ends. */
  function End(h: seq<Anchor>, ts: int, count: int): int {
    Min(Start(h, ts) + count, |h|)
  }

  /** The valid messages of the requested chat in a chunk's reply. */
  function Got(req: Request, c: Chunk): seq<Anchor> {
    if c.reply.evt.None? then [] else Requested(FrameOf(req, c), c.reply.evt.value.conversations)
  }

  /** These are, in any order, the up-to-count newest messages strictly before a time. */
  ghost predicate NewestBefore(got: seq<Anchor>, ts: int, count: int, h: seq<Anchor>) {
    Start(h, ts) <= End(h, ts, count) && multiset(got) == multiset(h[Start(h, ts)..End(h, ts, count)])
  }

  /** The reply holds the up-to-count newest messages strictly before the anchor. */
  ghost predicate Faithful(req: Request, c: Chunk, h: seq<Anchor>) {
    NewestBefore(Got(req, c), c.anchor.timestamp, c.count, h)
  }

  lemma SameLength(a: seq<Anchor>, b: seq<Anchor>)
    requires multiset(a) == multiset(b)
    ensures |a| == |b| && (forall x :: x in a <==> x in b)
  {
    assert |a| == |multiset(a)| && |b| == |multiset(b)|;
    forall x ensures x in a <==> x in b {
      assert x in a <==> x in multiset(a);
      assert x in b <==> x in multiset(b);
    }
  }

  lemma GotIsCounted(req: Request, c: Chunk)
    requires c.reply.evt.Some? && c.summary == SummaryOf(req, c)
    ensures Tracks(c.summary.core, Got(req, c))
  {
    OldestIsOldest(FrameOf(req, c), c.reply.evt.value.conversations);
  }

  /** The oldest of a slice of the history is its last. */
  lemma OldestOfSlice(h: seq<Anchor>, i: nat, e: nat, got: seq<Anchor>, o: Anchor)
    requires NewestFirst(h) && i < e <= |h| && multiset(got) == multiset(h[i..e])
    requires o in got && forall x | x in got :: o.timestamp <= x.timestamp
    ensures o == h[e - 1]
  {
    SameLength(got, h[i..e]);
    assert h[i..e][e - 1 - i] == h[e - 1];
    var j :| 0 <= j < |h[i..e]| && h[i..e][j] == o;
    assert h[i..e][j] == h[i + j];
    if i + j < e - 1 { Newer(h, i + j, e - 1); }
  }

  lemma OneSlice(core: Core, got: seq<Anchor>, h: seq<Anchor>, i: nat, e: nat, count: int)
    requires NewestFirst(h) && Tracks(core, got) && count > 0 && i <= e <= |h| && e == Min(i + count, |h|)
    requires multiset(got) == multiset(h[i..e])
    ensures core.requested == e - i
    ensures core.requested != 0 && core.found <==> i < |h|
    ensures i < |h| ==> i < e && core.oldest == h[e - 1]
  {
    SameLength(got, h[i..e]);
    if got != [] {
      var k :| 0 <= k < |got| && IsOldest(got, k, core.oldest);
      OldestOfSlice(h, i, e, got, core.oldest);
    }
  }

  /** One faithful chunk: it is fruitful exactly when there is something older, and then its oldest message is the
      last of its slice. */
  lemma OneChunk(c: Chunk, got: seq<Anchor>, h: seq<Anchor>, i: nat, e: nat)
    requires NewestFirst(h) && c.count > 0 && Tracks(c.summary.core, got)
    requires NewestBefore(got, c.anchor.timestamp, c.count, h)
    requires i == Start(h, c.anchor.timestamp) && e == End(h, c.anchor.timestamp, c.count)
    ensures i <= e <= |h| && e == Min(i + c.count, |h|)
    ensures multiset(got) == multiset(h[i..e]) && c.summary.core.requested == e - i
    ensures Fruitful(c) <==> i < |h|
    ensures Fruitful(c) ==> i < e && c.summary.core.oldest == h[e - 1]
  {
    OneSlice(c.summary.core, got, h, i, e, c.count);
  }

  /** The chunks that a history explains. */
  ghost predicate Explained(x: Setting, chunks: seq<Chunk>, h: seq<Anchor>) {
    && Chain(x, chunks) && NewestFirst(h)
    && (forall j | 0 <= j < |h| :: h[j].timestamp < StartOf(x.req).timestamp)
    && (forall k: nat | k < |chunks| :: Faithful(x.req, chunks[k], h))
  }

  /** Where chunk k starts and ends in the history. */
  function From(chunks: seq<Chunk>, h: seq<Anchor>, k: nat): nat
    requires k < |chunks|
  {
    Start(h, chunks[k].anchor.timestamp)
  }

  function To(chunks: seq<Chunk>, h: seq<Anchor>, k: nat): int
    requires k < |chunks|
  {
    End(h, chunks[k].anchor.timestamp, chunks[k].count)
  }

  /** The chunks are consecutive slices of the history, cut at these places. */
  ghost predicate Laid(req: Request, chunks: seq<Chunk>, h: seq<Anchor>, cuts: seq<int>) {
    LaidTo(req, chunks, h, cuts, |chunks|)
  }

  ghost predicate LaidTo(req: Request, chunks: seq<Chunk>, h: seq<Anchor>, cuts: seq<int>, k: nat) {
    && k <= |chunks| && |cuts| == k + 1 && cuts[0] == 0
    && forall j: nat | j < k :: IsSlice(req, chunks[j], h, cuts[j], cuts[j + 1])
  }

  ghost predicate IsSlice(req: Request, c: Chunk, h: seq<Anchor>, a: int, b: int) {
    && 0 <= a <= b <= |h| && c.count > 0 && b == Min(a + c.count, |h|)
    && multiset(Got(req, c)) == multiset(h[a..b])
    && c.summary.core.requested == b - a
  }

  lemma CountPositive(x: Setting, chunks: seq<Chunk>, k: nat)
    requires Chain(x, chunks) && k < |chunks|
    ensures chunks[k].count > 0 && chunks[k].reply.evt.Some? && chunks[k].summary == SummaryOf(x.req, chunks[k])
    ensures chunks[k].anchor == NextAnchor(x.req, chunks[..k])
    ensures Tracks(chunks[k].summary.core, Got(x.req, chunks[k]))
  {
    assert Follows(x, chunks[..k], chunks[k]);
    GotAnswers(x.req.chatJID, x.turns(k).arrivals);
    GotIsCounted(x.req, chunks[k]);
  }

  lemma NextAnchorAt(req: Request, chunks: seq<Chunk>, k: nat)
    requires k < |chunks|
    ensures NextAnchor(req, chunks[..k + 1]) == chunks[k].summary.core.oldest
  {
  }

  /** From one chunk to the next. */
  lemma NextStarts(c: Chunk, got: seq<Anchor>, next: Chunk, h: seq<Anchor>, i: nat, e: nat)
    requires NewestFirst(h) && c.count > 0 && Tracks(c.summary.core, got)
    requires NewestBefore(got, c.anchor.timestamp, c.count, h)
    requires i == Start(h, c.anchor.timestamp) && e == End(h, c.anchor.timestamp, c.count)
    requires Fruitful(c) && next.anchor == c.summary.core.oldest
    ensures Start(h, next.anchor.timestamp) == e
    ensures next.anchor.timestamp < c.anchor.timestamp
  {
    OneChunk(c, got, h, i, e);
    StartSplits(h, c.anchor.timestamp);
    StartAfter(h, e);
  }

  lemma ChunkToChunk(x: Setting, chunks: seq<Chunk>, h: seq<Anchor>, k: nat)
    requires Explained(x, chunks, h) && k + 1 < |chunks|
    ensures From(chunks, h, k + 1) == To(chunks, h, k)
    ensures chunks[k + 1].anchor.timestamp < chunks[k].anchor.timestamp
  {
    CountPositive(x, chunks, k);
    CountPositive(x, chunks, k + 1);
    NextAnchorAt(x.req, chunks, k);
    assert Digested(x.turns(k), chunks[k]);
    NextStarts(chunks[k], Got(x.req, chunks[k]), chunks[k + 1], h, From(chunks, h, k), To(chunks, h, k));
  }

  lemma ChunkIsSlice(x: Setting, chunks: seq<Chunk>, h: seq<Anchor>, k: nat, a: int, b: int)
    requires Explained(x, chunks, h) && k < |chunks|
    requires a == From(chunks, h, k) && b == To(chunks, h, k)
    ensures IsSlice(x.req, chunks[k], h, a, b)
  {
    CountPositive(x, chunks, k);
    OneChunk(chunks[k], Got(x.req, chunks[k]), h, a, b);
  }

  lemma FirstStarts(x: Setting, chunks: seq<Chunk>, h: seq<Anchor>)
    requires Explained(x, chunks, h) && chunks != []
    ensures From(chunks, h, 0) == 0
  {
    CountPositive(x, chunks, 0);
    StartIs(h, chunks[0].anchor.timestamp, 0);
  }

  /** Each chunk is a slice, and starts where the one before it ends. */
  ghost predicate Joined(req: Request, chunks: seq<Chunk>, h: seq<Anchor>) {
    && (chunks != [] ==> From(chunks, h, 0) == 0)
    && (forall k: nat | k + 1 < |chunks| :: From(chunks, h, k + 1) == To(chunks, h, k))
    && (forall k: nat | k < |chunks| :: IsSlice(req, chunks[k], h, From(chunks, h, k), To(chunks, h, k)))
  }

  lemma ExplainedIsJoined(x: Setting, chunks: seq<Chunk>, h: seq<Anchor>)
    requires Explained(x, chunks, h)
    ensures Joined(x.req, chunks, h)
  {
    if chunks != [] {
      FirstStarts(x, chunks, h);
    }
    forall k: nat | k + 1 < |chunks| ensures From(chunks, h, k + 1) == To(chunks, h, k) {
      ChunkToChunk(x, chunks, h, k);
    }
    forall k: nat | k < |chunks| ensures IsSlice(x.req, chunks[k], h, From(chunks, h, k), To(chunks, h, k)) {
      ChunkIsSlice(x, chunks, h, k, From(chunks, h, k), To(chunks, h, k));
    }
  }

  lemma OneMoreCut(req: Request, chunks: seq<Chunk>, h: seq<Anchor>, cuts: seq<int>, k: nat, b: int)
    requires LaidTo(req, chunks, h, cuts, k) && k < |chunks| && IsSlice(req, chunks[k], h, cuts[k], b)
    ensures LaidTo(req, chunks, h, cuts + [b], k + 1)
  {
  }

  lemma {:induction false} JoinedIsLaid(req: Request, chunks: seq<Chunk>, h: seq<Anchor>, k: nat)
    returns (cuts: seq<int>)
    requires Joined(req, chunks, h) && k <= |chunks|
    ensures LaidTo(req, chunks, h, cuts, k)
    ensures k < |chunks| ==> cuts[k] == From(chunks, h, k)
    ensures k > 0 ==> cuts[k] == To(chunks, h, k - 1)
    decreases k
  {
    cuts := [0];
    if k > 0 {
      cuts := JoinedIsLaid(req, chunks, h, k - 1);
      OneMoreCut(req, chunks, h, cuts, k - 1, To(chunks, h, k - 1));
      cuts := cuts + [To(chunks, h, k - 1)];
      assert k < |chunks| ==> From(chunks, h, (k - 1) + 1) == To(chunks, h, k - 1);
    }
  }

  /** The chunks of a faithful run are consecutive slices. */
  lemma ExplainedIsLaid(x: Setting, chunks: seq<Chunk>, h: seq<Anchor>) returns (cuts: seq<int>)
    requires Explained(x, chunks, h)
    ensures Laid(x.req, chunks, h, cuts)
    ensures chunks != [] ==> cuts[|chunks|] == To(chunks, h, |chunks| - 1)
  {
    ExplainedIsJoined(x, chunks, h);
    cuts := JoinedIsLaid(x.req, chunks, h, |chunks|);
  }

  /** Their anchors move strictly back. */
  lemma AnchorsDecrease(x: Setting, chunks: seq<Chunk>, h: seq<Anchor>, k: nat)
    requires Explained(x, chunks, h) && k + 1 < |chunks|
    ensures chunks[k + 1].anchor.timestamp < chunks[k].anchor.timestamp
  {
    ChunkToChunk(x, chunks, h, k);
  }

  /** A cut is what was asked for so far, or all there is. */
  lemma {:induction false} CutIsAsked(req: Request, chunks: seq<Chunk>, h: seq<Anchor>, cuts: seq<int>, k: nat)
    requires Laid(req, chunks, h, cuts) && k <= |chunks|
    ensures 0 <= cuts[k] == Min(Asked(chunks[..k]), |h|)
    decreases k
  {
    if k > 0 {
      CutIsAsked(req, chunks, h, cuts, k - 1);
      assert IsSlice(req, chunks[k - 1], h, cuts[k - 1], cuts[k]);
      assert chunks[..k][..k - 1] == chunks[..k - 1];
    }
  }

  /** Everything that the first k chunks brought. */
  function Seen(req: Request, chunks: seq<Chunk>, k: nat): multiset<Anchor>
    requires k <= |chunks|
  {
    if k == 0 then multiset{} else Seen(req, chunks, k - 1) + multiset(Got(req, chunks[k - 1]))
  }

  /** The first k chunks together are a prefix of the history. */
  lemma {:induction false} SeenIsPrefix(req: Request, chunks: seq<Chunk>, h: seq<Anchor>, cuts: seq<int>, k: nat)
    requires Laid(req, chunks, h, cuts) && k <= |chunks|
    ensures 0 <= cuts[k] <= |h| && Seen(req, chunks, k) == multiset(h[..cuts[k]])
    decreases k
  {
    if k > 0 {
      SeenIsPrefix(req, chunks, h, cuts, k - 1);
      assert IsSlice(req, chunks[k - 1], h, cuts[k - 1], cuts[k]);
      assert h[..cuts[k]] == h[..cuts[k - 1]] + h[cuts[k - 1]..cuts[k]];
    }
  }

  lemma RequestedOneMore(chunks: seq<Chunk>)
    requires chunks != []
    ensures MergeAll(Summaries(chunks)).core.requested
         == MergeAll(Summaries(chunks[..|chunks| - 1])).core.requested + chunks[|chunks| - 1].summary.core.requested
  {
    var sums := Summaries(chunks);
    assert sums[..|sums| - 1] == Summaries(chunks[..|chunks| - 1]);
    MergeAllStep(sums);
  }

  /** The merged summary counts exactly these messages. */
  lemma {:induction false} RequestedIsCut(req: Request, chunks: seq<Chunk>, h: seq<Anchor>, cuts: seq<int>, k: nat)
    requires Laid(req, chunks, h, cuts) && k <= |chunks|
    ensures MergeAll(Summaries(chunks[..k])).core.requested == cuts[k]
    decreases k
  {
    if k > 0 {
      RequestedIsCut(req, chunks, h, cuts, k - 1);
      assert chunks[..k][..k - 1] == chunks[..k - 1];
      RequestedOneMore(chunks[..k]);
      assert IsSlice(req, chunks[k - 1], h, cuts[k - 1], cuts[k]);
    }
  }

  lemma {:induction false} CutsGrow(req: Request, chunks: seq<Chunk>, h: seq<Anchor>, cuts: seq<int>, j: nat, k: nat)
    requires Laid(req, chunks, h, cuts) && j <= k <= |chunks|
    ensures cuts[j] <= cuts[k]
    decreases k
  {
    if j < k {
      CutsGrow(req, chunks, h, cuts, j, k - 1);
      assert IsSlice(req, chunks[k - 1], h, cuts[k - 1], cuts[k]);
    }
  }

  /** No message comes twice. */
  lemma ChunksDisjoint(x: Setting, chunks: seq<Chunk>, h: seq<Anchor>, j: nat, k: nat)
    requires Explained(x, chunks, h) && j < k < |chunks|
    ensures multiset(Got(x.req, chunks[j])) !! multiset(Got(x.req, chunks[k]))
  {
    var cuts := ExplainedIsLaid(x, chunks, h);
    LaidIsDisjoint(x.req, chunks, h, cuts, j, k);
  }

  lemma LaidIsDisjoint(req: Request, chunks: seq<Chunk>, h: seq<Anchor>, cuts: seq<int>, j: nat, k: nat)
    requires Laid(req, chunks, h, cuts) && NewestFirst(h) && j < k < |chunks|
    ensures multiset(Got(req, chunks[j])) !! multiset(Got(req, chunks[k]))
  {
    assert IsSlice(req, chunks[j], h, cuts[j], cuts[j + 1]) && IsSlice(req, chunks[k], h, cuts[k], cuts[k + 1]);
    CutsGrow(req, chunks, h, cuts, j + 1, k);
    SlicesDisjoint(h, cuts[j], cuts[j + 1], cuts[k], cuts[k + 1]);
  }

  lemma SlicesDisjoint(h: seq<Anchor>, a: nat, b: nat, c: nat, d: nat)
    requires NewestFirst(h) && a <= b <= c <= d <= |h|
    ensures multiset(h[a..b]) !! multiset(h[c..d])
  {
    var p, q := h[a..b], h[c..d];
    forall i, j | 0 <= i < |p| && 0 <= j < |q| ensures p[i] != q[j] {
      Newer(h, a + i, c + j);
    }
    assert forall x :: x in multiset(p) ==> x in p && x !in q && x !in multiset(q);
  }

  lemma EndedIsExplained(x: Setting, s: Progress, e: Ending)
    requires Ended(x, s, e) && !e.BadLimit? && !e.BadAnchor?
    ensures Chain(x, s.chunks) && Booked(s)
    ensures e == NothingOlder ==> s.chunks != [] && !Fruitful(s.chunks[|s.chunks| - 1])
    ensures e == Complete ==> Asked(s.chunks) == x.req.limit
  {
  }

  /** The last chunk is empty only when the chunks reach the end. */
  lemma UnfruitfulIsTheEnd(x: Setting, chunks: seq<Chunk>, h: seq<Anchor>)
    requires Explained(x, chunks, h) && chunks != [] && !Fruitful(chunks[|chunks| - 1])
    ensures To(chunks, h, |chunks| - 1) == |h|
  {
    CountPositive(x, chunks, |chunks| - 1);
    var k := |chunks| - 1;
    OneChunk(chunks[k], Got(x.req, chunks[k]), h, From(chunks, h, k), To(chunks, h, k));
  }

  lemma LaidCovers(req: Request, chunks: seq<Chunk>, h: seq<Anchor>, cuts: seq<int>)
    requires Laid(req, chunks, h, cuts)
    ensures var n := Min(Asked(chunks), |h|);
            0 <= n == cuts[|chunks|] && Seen(req, chunks, |chunks|) == multiset(h[..n])
            && MergeAll(Summaries(chunks)).core.requested == n
  {
    SeenIsPrefix(req, chunks, h, cuts, |chunks|);
    CutIsAsked(req, chunks, h, cuts, |chunks|);
    RequestedIsCut(req, chunks, h, cuts, |chunks|);
    assert chunks[..|chunks|] == chunks;
  }

  lemma ExplainedCovers(x: Setting, chunks: seq<Chunk>, h: seq<Anchor>)
    requires Explained(x, chunks, h)
    ensures var n := Min(Asked(chunks), |h|);
            && 0 <= n <= |h|
            && Seen(x.req, chunks, |chunks|) == multiset(h[..n])
            && MergeAll(Summaries(chunks)).core.requested == n
            && (chunks != [] && !Fruitful(chunks[|chunks| - 1]) ==> n == |h|)
  {
    var cuts := ExplainedIsLaid(x, chunks, h);
    LaidCovers(x.req, chunks, h, cuts);
    if chunks != [] && !Fruitful(chunks[|chunks| - 1]) {
      UnfruitfulIsTheEnd(x, chunks, h);
    }
  }

  /** The run has seen exactly the n newest messages of the history, and its summary counts them. */
  ghost predicate Covers(req: Request, s: Progress, h: seq<Anchor>, n: int) {
    && 0 <= n <= |h| && n == Min(Asked(s.chunks), |h|)
    && Seen(req, s.chunks, |s.chunks|) == multiset(h[..n])
    && s.result.summary.core.requested == n
  }

  lemma ExplainedRunCovers(x: Setting, s: Progress, h: seq<Anchor>, n: int)
    requires Explained(x, s.chunks, h) && s.result.summary == MergeAll(Summaries(s.chunks))
    requires n == Min(Asked(s.chunks), |h|)
    ensures Covers(x.req, s, h, n)
    ensures s.chunks != [] && !Fruitful(s.chunks[|s.chunks| - 1]) ==> n == |h|
  {
    ExplainedCovers(x, s.chunks, h);
  }

  /** What a whole run has seen: a prefix of the history in every ending, as long as what was asked for or the
      whole; that is the limit when it completes; and it finds nothing older only after it has seen everything. */
  lemma RunCovers(x: Setting, s: Progress, e: Ending, h: seq<Anchor>, n: int)
    requires Ended(x, s, e) && !e.BadLimit? && !e.BadAnchor?
    requires NewestFirst(h) && forall j | 0 <= j < |h| :: h[j].timestamp < StartOf(x.req).timestamp
    requires forall k: nat | k < |s.chunks| :: Faithful(x.req, s.chunks[k], h)
    requires n == Min(Asked(s.chunks), |h|)
    ensures Covers(x.req, s, h, n)
    ensures e == Complete ==> n == Min(x.req.limit, |h|)
    ensures e == NothingOlder ==> n == |h|
  {
    EndedIsExplained(x, s, e);
    ExplainedRunCovers(x, s, h, n);
  }

  /** The merged statistics of a run balance over its replies when those of every reply do. */
  lemma RunStatsBalance(s: Progress, totals: seq<int>)
    requires Booked(s) && |totals| == |StatsOf(s.chunks)|
    requires forall k | 0 <= k < |totals| :: HistorySync.Balanced(StatsOf(s.chunks)[k], totals[k])
    ensures HistorySync.Balanced(s.result.stats, Sum(totals))
  {
    HistorySync.MergedStatsBalance(StatsOf(s.chunks), totals);
  }
}
