/** The message store: writer.go. Every SQL statement is a function over the tables, each transaction is
    a function that either applies all of its statements or none, and class Writer performs them in the
    source's order. */
module Store {
  import opened Text
  import opened Types
  import MediaPath

  // ---------------------------------------------------------------- statements

  function IdentityOf(ev: Event, pk: int): Identity {
    Identity(pk, ev.chatJID, ev.chatLabel, ev.msgID, NullEmpty(ev.senderJID), ev.timestamp, ev.fromMe, ev.rawType)
  }

  function ContentOf(ev: Event): Content {
    Content(NullEmpty(ev.senderName), NullEmpty(ev.text), NullEmpty(ev.messageType), NullEmpty(ev.mediaType),
            NullEmpty(ev.mediaTitle), NullEmpty(ev.mediaPath), NullEmpty(ev.mediaURL), NullZero(ev.mediaSize),
            TextHash(ev.text, ev.mediaTitle))
  }

  function FtsOf(id: string, ev: Event): FtsRow {
    FtsRow(id, ev.text, ev.chatLabel, ev.senderName, ev.mediaTitle)
  }

  /** insert into whatsapp_messages ... on conflict(id) do update */
  function Upsert(messages: map<string, Row>, id: string, ev: Event, pk: int, now: int): map<string, Row> {
    var status := NullEmpty(ev.hydrationStatus);
    if id in messages then
      var row := messages[id];
      var media := if status.None? then row.media
                   else row.media.(status := status, attempts := row.media.attempts + ev.hydrationAttempts);
      messages[id := row.(content := ContentOf(ev), media := media, ingestedAt := now)]
    else
      var attempts := if status.None? then 0 else ev.hydrationAttempts;
      messages[id := Row(IdentityOf(ev, pk), ContentOf(ev), Media(None, None, status, attempts, None), now)]
  }

  /** delete from whatsapp_messages_fts where id=? */
  function WithoutId(fts: seq<FtsRow>, id: string): seq<FtsRow> {
    if fts == [] then []
    else if fts[0].id == id then WithoutId(fts[1..], id)
    else [fts[0]] + WithoutId(fts[1..], id)
  }

  /** The index rows of one message. */
  function Matching(fts: seq<FtsRow>, id: string): (r: seq<FtsRow>)
    ensures forall f | f in r :: f.id == id && f in fts
    ensures forall f | f in fts && f.id == id :: f in r
  {
    if fts == [] then []
    else if fts[0].id == id then [fts[0]] + Matching(fts[1..], id)
    else Matching(fts[1..], id)
  }

  /** How res.Inserted and res.Updated come out of the first transaction. */
  function InsertedFlag(messages: map<string, Row>, id: string): bool {
    id !in messages
  }

  function UpdatedFlag(messages: map<string, Row>, id: string, ev: Event): bool {
    id in messages &&
    (messages[id].content.textHash != TextHash(ev.text, ev.mediaTitle) || ev.hydrationStatus != "")
  }

  /** insert into whatsapp_ingest_runs ... on conflict(run_id) do update */
  function RecordRun(runs: map<string, Run>, id: string, now: int, inserted: bool, updated: bool,
                     pending: bool, allowed: int): map<string, Run>
  {
    var i := if inserted then 1 else 0;
    var u := if !inserted && updated then 1 else 0;
    var s := if !inserted && !updated then 1 else 0;
    var status := if pending then "pending" else "ok";
    var runId := RunID(id, now);
    if runId in runs then
      var r := runs[runId];
      runs[runId := r.(finishedAt := Some(now), scanned := r.scanned + 1, inserted := r.inserted + i,
                       updated := r.updated + u, skipped := r.skipped + s, status := status)]
    else
      runs[runId := Run(now, Some(now), false, allowed, 1, i, u, s, 0, status)]
  }

  // ---------------------------------------------------------------- the key lookup

  function PksOf(messages: map<string, Row>, k: NaturalKey): set<int> {
    set id | id in messages && KeyOfRow(messages[id].ident) == k :: messages[id].ident.sourcePK
  }

  lemma {:induction false} HasMax(s: set<int>)
    requires s != {}
    ensures exists m :: m in s && forall p | p in s :: p <= m
  {
    SomeMember(s);
    var x: int :| x in s;
    var rest := s - {x};
    assert forall p | p in s :: p == x || p in rest;
    if rest != {} {
      HasMax(rest);
      var m: int :| m in rest && forall p | p in rest :: p <= m;
      var top := if x <= m then m else x;
      assert top in s;
    }
  }

  /** select source_pk ... order by source_pk desc limit 1, or 0 when there is no row. */
  function Lookup(messages: map<string, Row>, k: NaturalKey): (pk: int)
    ensures PksOf(messages, k) == {} ==> pk == 0
    ensures PksOf(messages, k) != {} ==> pk in PksOf(messages, k) && forall p | p in PksOf(messages, k) :: p <= pk
  {
    var pks := PksOf(messages, k);
    if pks == {} then 0
    else
      HasMax(pks);
      var m :| m in pks && forall p | p in pks :: p <= m;
      m
  }

  /** sourcePKFor */
  function ResolvePK(messages: map<string, Row>, ev: Event, lookupFails: bool): int {
    if ev.sourcePK != 0 then ev.sourcePK
    else if lookupFails then 0
    else Lookup(messages, KeyOfEvent(ev))
  }

  // ---------------------------------------------------------------- transactions

  /** What the index statements of one transaction meet. */
  datatype FtsOutcome = FtsOk | NoTableOnDelete | NoTableOnInsert | ErrorOnDelete | ErrorOnInsert

  /** Where, if anywhere, the other statements of a transaction fail. */
  datatype Fault = NoFault | QueryFails | UpsertFails | RunFails | CommitFails

  datatype FtsResult = FtsResult(fts: seq<FtsRow>, unavailable: bool, failed: bool)

  /** refreshFTSTx: a missing index switches the index off and is not an error. */
  function RefreshFts(fts: seq<FtsRow>, unavailable: bool, id: string, ev: Event, outcome: FtsOutcome): FtsResult {
    if unavailable then FtsResult(fts, true, false)
    else match outcome
      case NoTableOnDelete => FtsResult(fts, true, false)
      case ErrorOnDelete => FtsResult(fts, false, true)
      case NoTableOnInsert => FtsResult(WithoutId(fts, id), true, false)
      case ErrorOnInsert => FtsResult(WithoutId(fts, id), false, true)
      case FtsOk => FtsResult(WithoutId(fts, id) + [FtsOf(id, ev)], false, false)
  }

  /** The tables, the media files and the in-memory flag that outlives a rollback. */
  datatype Disk = Disk(tables: Tables, files: map<string, Bytes>, ftsUnavailable: bool)

  datatype FirstOutcome = FirstOutcome(disk: Disk, committed: bool, inserted: bool, updated: bool)

  predicate ForeignKeyHolds(t: Tables, id: string, ev: Event) {
    id in t.messages || ev.chatJID in t.groups
  }

  /** The first transaction of Write, all or nothing. */
  function FirstTx(d: Disk, id: string, pk: int, ev: Event, now: int, allowed: int, fault: Fault, fts: FtsOutcome)
    : FirstOutcome
  {
    var t := d.tables;
    var inserted, updated := InsertedFlag(t.messages, id), UpdatedFlag(t.messages, id, ev);
    if fault.QueryFails? || fault.UpsertFails? || !ForeignKeyHolds(t, id, ev) then
      FirstOutcome(d, false, false, false)
    else
      var refreshed := RefreshFts(t.fts, d.ftsUnavailable, id, ev, fts);
      if refreshed.failed || fault.RunFails? || fault.CommitFails? then
        FirstOutcome(d.(ftsUnavailable := refreshed.unavailable), false, false, false)
      else
        FirstOutcome(
          d.(tables := t.(messages := Upsert(t.messages, id, ev, pk, now), fts := refreshed.fts,
                          runs := RecordRun(t.runs, id, now, inserted, updated, ev.mediaBytes != [], allowed)),
             ftsUnavailable := refreshed.unavailable),
          true, inserted, updated)
  }

  function MarkRow(messages: map<string, Row>, id: string, media: Media -> Media): map<string, Row> {
    if id in messages then messages[id := messages[id].(media := media(messages[id].media))] else messages
  }

  /** markMediaOK, all or nothing. */
  function MarkOK(t: Tables, id: string, runId: string, path: string, now: int): Tables {
    var marked := MarkRow(t.messages, id, (m: Media) => Media(Some(path), Some(now), Some("ok"), m.attempts + 1, None));
    t.(messages := marked,
       runs := if runId in t.runs
               then t.runs[runId := t.runs[runId].(status := "ok", mediaCopied := t.runs[runId].mediaCopied + 1)]
               else t.runs)
  }

  /** markMediaFailure, all or nothing. */
  function MarkFailed(t: Tables, id: string, runId: string): Tables {
    var marked := MarkRow(t.messages, id, (m: Media) => m.(status := Some("failed"), attempts := m.attempts + 1));
    t.(messages := marked,
       runs := if runId in t.runs then t.runs[runId := t.runs[runId].(status := "ok")] else t.runs)
  }

  function FinalPath(root: string, ev: Event): string {
    MediaPath.Final(root, ev.chatJID, ev.msgID, ev.mediaExt, ev.messageType)
  }

  // ---------------------------------------------------------------- one whole call

  /** How far writeMedia gets: n of the bytes reach the temporary file, and the rename may fail. */
  datatype MediaOutcome = NotOpened | Partial(n: nat) | NotRenamed | Renamed

  /** Everything Write meets that it does not decide: cancellation, clocks and failures. */
  datatype Env = Env(
    cancelled: bool,
    lookupFails: bool,
    now: int,
    fault: Fault,
    fts: FtsOutcome,
    media: MediaOutcome,
    markNow: int,
    markFails: bool)

  datatype Error = Cancelled | MissingFields | NotStored | MediaFailed | MediaFailedUnmarked | MarkNotStored

  datatype Result = Result(id: string, inserted: bool, updated: bool, mediaPath: string)

  const NO_RESULT := Result("", false, false, "")

  datatype Outcome = Outcome(disk: Disk, result: Result, error: Option<Error>)

  function Rename(files: map<string, Bytes>, from: string, to: string): map<string, Bytes>
    requires from in files
  {
    (files - {from})[to := files[from]]
  }

  /** The media files after writeMedia. */
  function MediaFilesAfter(files: map<string, Bytes>, path: string, body: Bytes, media: MediaOutcome)
    : map<string, Bytes>
  {
    var tmp := MediaPath.Tmp(path);
    match media
    case NotOpened => files
    case Partial(n) => files[tmp := if n <= |body| then body[..n] else body]
    case NotRenamed => files[tmp := body]
    case Renamed => Rename(files[tmp := body], tmp, path)
  }

  predicate Complete(ev: Event) {
    ev.chatJID != "" && ev.msgID != "" && ev.timestamp != 0
  }

  /** The file write and the second transaction. */
  function MediaPhase(d: Disk, path: string, body: Bytes, runId: string, res: Result, env: Env): Outcome {
    var d2 := d.(files := MediaFilesAfter(d.files, path, body, env.media));
    if !env.media.Renamed? then
      if env.markFails then Outcome(d2, res, Some(MediaFailedUnmarked))
      else Outcome(d2.(tables := MarkFailed(d2.tables, res.id, runId)), res, Some(MediaFailed))
    else
      var res2 := res.(mediaPath := path, updated := res.updated || !res.inserted);
      if env.markFails then Outcome(d2, res2, Some(MarkNotStored))
      else Outcome(d2.(tables := MarkOK(d2.tables, res.id, runId, path, env.markNow)), res2, None)
  }

  /** What follows the first transaction. */
  function AfterText(first: FirstOutcome, id: string, path: string, body: Bytes, env: Env): Outcome {
    if !first.committed then Outcome(first.disk, NO_RESULT, Some(NotStored))
    else
      var res := Result(id, first.inserted, first.updated, "");
      if body == [] then Outcome(first.disk, res, None)
      else MediaPhase(first.disk, path, body, RunID(id, env.now), res, env)
  }

  /** Write, from the first check to the last transaction, with nothing interleaved. */
  function WriteAlone(d: Disk, root: string, allowed: int, ev: Event, env: Env): Outcome {
    if env.cancelled then Outcome(d, NO_RESULT, Some(Cancelled))
    else if !Complete(ev) then Outcome(d, NO_RESULT, Some(MissingFields))
    else
      var pk := ResolvePK(d.tables.messages, ev, env.lookupFails);
      var id := MessageID(KeyOfEvent(ev), pk);
      var first := FirstTx(d, id, pk, ev, env.now, allowed, env.fault, env.fts);
      AfterText(first, id, FinalPath(root, ev), ev.mediaBytes, env)
  }

  class Writer {
    const mediaRoot: string
    var messages: map<string, Row>
    var fts: seq<FtsRow>
    var runs: map<string, Run>
    var groups: map<string, GroupRow>
    var files: map<string, Bytes>
    var allowedGroupCount: int
    var ftsUnavailable: bool

    constructor (root: string)
      ensures mediaRoot == root
      ensures State() == Disk(Tables(map[], [], map[], map[]), map[], false) && allowedGroupCount == 0
    {
      mediaRoot := root;
      messages, fts, runs, groups, files := map[], [], map[], map[], map[];
      allowedGroupCount, ftsUnavailable := 0, false;
    }

    function State(): Disk
      reads this
    {
      Disk(Tables(messages, fts, runs, groups), files, ftsUnavailable)
    }

    /** The group rows after EnsureGroups on a list: later entries of one JID win. */
    static function UpsertGroups(groups: map<string, GroupRow>, gs: seq<Group>, now: int): (r: map<string, GroupRow>)
      ensures r.Keys == groups.Keys + set g | g in gs :: g.jid
    {
      if gs == [] then groups
      else
        var front, g := gs[..|gs| - 1], gs[|gs| - 1];
        assert gs == front + [g];
        UpsertGroups(groups, front, now)[g.jid := GroupRow(g.chatLabel, g.purpose, g.ingestText, g.ingestMediaMetadata,
                                                           g.copyMedia, g.indexEmbeddings, g.retentionDays, now)]
    }

    /** failAt is the statement that fails, if any; the group count is set either way. */
    method EnsureGroups(gs: seq<Group>, now: int, failAt: Option<nat>) returns (ok: bool)
      modifies this`groups, this`allowedGroupCount
      ensures allowedGroupCount == |gs|
      ensures ok == (failAt.None? || |gs| <= failAt.value)
      ensures groups == if ok then UpsertGroups(old(groups), gs, now) else old(groups)
    {
      allowedGroupCount := |gs|;
      var before := groups;
      var i := 0;
      while i < |gs|
        invariant 0 <= i <= |gs| && allowedGroupCount == |gs|
        invariant failAt.Some? ==> i <= failAt.value
        invariant groups == UpsertGroups(before, gs[..i], now)
      {
        if failAt == Some(i) {
          groups := before;
          return false;
        }
        var g := gs[i];
        groups := groups[g.jid := GroupRow(g.chatLabel, g.purpose, g.ingestText, g.ingestMediaMetadata,
                                           g.copyMedia, g.indexEmbeddings, g.retentionDays, now)];
        assert gs[..i + 1][..i] == gs[..i];
        i := i + 1;
      }
      assert gs[..i] == gs;
      ok := true;
    }

    method SourcePKFor(ev: Event, lookupFails: bool) returns (pk: int)
      ensures pk == ResolvePK(messages, ev, lookupFails)
    {
      if ev.sourcePK != 0 {
        return ev.sourcePK;
      }
      if !lookupFails {
        return Lookup(messages, KeyOfEvent(ev));
      }
      return 0;
    }

    method RefreshFtsTx(id: string, ev: Event, outcome: FtsOutcome) returns (ok: bool)
      modifies this`fts, this`ftsUnavailable
      ensures FtsResult(fts, ftsUnavailable, !ok) == RefreshFts(old(fts), old(ftsUnavailable), id, ev, outcome)
    {
      if ftsUnavailable {
        return true;
      }
      if outcome.NoTableOnDelete? || outcome.ErrorOnDelete? {
        ok := HandleFtsError(outcome.NoTableOnDelete?);
        return;
      }
      fts := WithoutId(fts, id);
      if outcome.NoTableOnInsert? || outcome.ErrorOnInsert? {
        ok := HandleFtsError(outcome.NoTableOnInsert?);
        return;
      }
      fts := fts + [FtsOf(id, ev)];
      ok := true;
    }

    method HandleFtsError(missing: bool) returns (ok: bool)
      modifies this`ftsUnavailable
      ensures ok == missing && ftsUnavailable == (missing || old(ftsUnavailable))
    {
      if missing {
        ftsUnavailable := true;
      }
      ok := missing;
    }

    /** What the event is to the row that is there. */
    method Compare(id: string, ev: Event) returns (inserted: bool, updated: bool)
      ensures inserted == InsertedFlag(messages, id) && updated == UpdatedFlag(messages, id, ev)
    {
      inserted, updated := false, false;
      if id !in messages {
        inserted := true;
      } else if messages[id].content.textHash != TextHash(ev.text, ev.mediaTitle) {
        updated := true;
      }
      if ev.hydrationStatus != "" && id in messages {
        updated := true;
      }
    }

    /** The first transaction, statement by statement; on a failure every table is put back. */
    method StoreText(id: string, pk: int, ev: Event, now: int, fault: Fault, outcome: FtsOutcome)
      returns (committed: bool, inserted: bool, updated: bool)
      modifies this`messages, this`fts, this`runs, this`ftsUnavailable
      ensures FirstOutcome(State(), committed, inserted, updated)
           == FirstTx(old(State()), id, pk, ev, now, allowedGroupCount, fault, outcome)
    {
      if fault.QueryFails? {
        return false, false, false;
      }
      inserted, updated := Compare(id, ev);
      if fault.UpsertFails? || (id !in messages && ev.chatJID !in groups) {
        return false, false, false;
      }
      committed := UpsertAndRecord(id, pk, ev, now, inserted, updated, fault, outcome);
      if !committed {
        return false, false, false;
      }
    }

    /** From the upsert to the commit. */
    method UpsertAndRecord(id: string, pk: int, ev: Event, now: int, inserted: bool, updated: bool, fault: Fault,
                           outcome: FtsOutcome)
      returns (committed: bool)
      modifies this`messages, this`fts, this`runs, this`ftsUnavailable
      ensures var r := RefreshFts(old(fts), old(ftsUnavailable), id, ev, outcome);
              && committed == (!r.failed && !fault.RunFails? && !fault.CommitFails?)
              && ftsUnavailable == r.unavailable
              && messages == (if committed then Upsert(old(messages), id, ev, pk, now) else old(messages))
              && fts == (if committed then r.fts else old(fts))
              && runs == (if committed
                          then RecordRun(old(runs), id, now, inserted, updated, ev.mediaBytes != [], allowedGroupCount)
                          else old(runs))
    {
      var messages0, fts0 := messages, fts;
      messages := Upsert(messages, id, ev, pk, now);
      var indexed := RefreshFtsTx(id, ev, outcome);
      if !indexed || fault.RunFails? || fault.CommitFails? {
        messages, fts := messages0, fts0;
        return false;
      }
      runs := RecordRun(runs, id, now, inserted, updated, ev.mediaBytes != [], allowedGroupCount);
      committed := true;
    }

    /** Temporary file, then rename: the final name never shows a partial file. */
    method WriteMedia(final: string, body: Bytes, outcome: MediaOutcome) returns (ok: bool)
      modifies this`files
      ensures ok == outcome.Renamed?
      ensures files == MediaFilesAfter(old(files), final, body, outcome)
    {
      var tmp := MediaPath.Tmp(final);
      if outcome.NotOpened? {
        return false;
      }
      files := files[tmp := []];
      if outcome.Partial? {
        files := files[tmp := if outcome.n <= |body| then body[..outcome.n] else body];
        return false;
      }
      files := files[tmp := body];
      if outcome.NotRenamed? {
        return false;
      }
      files := Rename(files, tmp, final);
      ok := true;
    }

    method MarkMediaOK(id: string, runId: string, path: string, now: int, fails: bool) returns (ok: bool)
      modifies this`messages, this`runs
      ensures ok == !fails
      ensures State().tables == if fails then old(State()).tables else MarkOK(old(State()).tables, id, runId, path, now)
    {
      if fails {
        return false;
      }
      if id in messages {
        var m := messages[id].media;
        var hydrated := Media(Some(path), Some(now), Some("ok"), m.attempts + 1, None);
        messages := messages[id := messages[id].(media := hydrated)];
      }
      if runId in runs {
        runs := runs[runId := runs[runId].(status := "ok", mediaCopied := runs[runId].mediaCopied + 1)];
      }
      ok := true;
    }

    method MarkMediaFailure(id: string, runId: string, fails: bool) returns (ok: bool)
      modifies this`messages, this`runs
      ensures ok == !fails
      ensures State().tables == if fails then old(State()).tables else MarkFailed(old(State()).tables, id, runId)
    {
      if fails {
        return false;
      }
      if id in messages {
        var m := messages[id].media;
        messages := messages[id := messages[id].(media := m.(status := Some("failed"), attempts := m.attempts + 1))];
      }
      if runId in runs {
        runs := runs[runId := runs[runId].(status := "ok")];
      }
      ok := true;
    }

    method Write(ev: Event, env: Env) returns (res: Result, err: Option<Error>)
      modifies this`messages, this`fts, this`runs, this`files, this`ftsUnavailable
      ensures Outcome(State(), res, err) == WriteAlone(old(State()), mediaRoot, allowedGroupCount, ev, env)
    {
      if env.cancelled {
        return NO_RESULT, Some(Cancelled);
      }
      if ev.chatJID == "" || ev.msgID == "" || ev.timestamp == 0 {
        return NO_RESULT, Some(MissingFields);
      }
      var pk := SourcePKFor(ev, env.lookupFails);
      var id := MessageID(KeyOfEvent(ev), pk);
      var committed, inserted, updated := StoreText(id, pk, ev, env.now, env.fault, env.fts);
      if !committed {
        return NO_RESULT, Some(NotStored);
      }
      res, err := Result(id, inserted, updated, ""), None;
      if |ev.mediaBytes| > 0 {
        res, err := StoreMedia(ev, RunID(id, env.now), res, env);
      }
    }

    method StoreMedia(ev: Event, runId: string, first: Result, env: Env) returns (res: Result, err: Option<Error>)
      modifies this`messages, this`runs, this`files
      ensures Outcome(State(), res, err)
           == MediaPhase(old(State()), FinalPath(mediaRoot, ev), ev.mediaBytes, runId, first, env)
    {
      res := first;
      var path := FinalPath(mediaRoot, ev);
      var written := WriteMedia(path, ev.mediaBytes, env.media);
      if !written {
        var marked := MarkMediaFailure(res.id, runId, env.markFails);
        return res, Some(if marked then MediaFailed else MediaFailedUnmarked);
      }
      res := res.(mediaPath := path);
      if !res.inserted {
        res := res.(updated := true);
      }
      var marked := MarkMediaOK(res.id, runId, path, env.markNow, env.markFails);
      if !marked {
        return res, Some(MarkNotStored);
      }
      return res, None;
    }
  }

  // ---------------------------------------------------------------- facts about one call

  /** The row of a chat carries the settings of its last entry in the list. */
  lemma {:induction false} LastGroupWins(groups: map<string, GroupRow>, gs: seq<Group>, now: int, i: nat)
    requires i < |gs| && forall j | i < j < |gs| :: gs[j].jid != gs[i].jid
    ensures var rows, g := Writer.UpsertGroups(groups, gs, now), gs[i];
            && g.jid in rows && rows[g.jid].chatLabel == g.chatLabel && rows[g.jid].purpose == g.purpose
            && rows[g.jid].ingestText == g.ingestText && rows[g.jid].ingestMediaMetadata == g.ingestMediaMetadata
            && rows[g.jid].copyMedia == g.copyMedia && rows[g.jid].indexEmbeddings == g.indexEmbeddings
            && rows[g.jid].retentionDays == g.retentionDays && rows[g.jid].updatedAt == now
    decreases |gs|
  {
    if i < |gs| - 1 {
      LastGroupWins(groups, gs[..|gs| - 1], now, i);
    }
  }

  /** Chats that are not listed keep their rows. */
  lemma {:induction false} OtherGroupsKept(groups: map<string, GroupRow>, gs: seq<Group>, now: int, jid: string)
    requires jid in groups && forall i | 0 <= i < |gs| :: gs[i].jid != jid
    ensures jid in Writer.UpsertGroups(groups, gs, now) && Writer.UpsertGroups(groups, gs, now)[jid] == groups[jid]
    decreases |gs|
  {
    if gs != [] {
      OtherGroupsKept(groups, gs[..|gs| - 1], now, jid);
    }
  }

  lemma CallFacts(d: Disk, id: string, pk: int, ev: Event, allowed: int, path: string, env: Env)
    ensures var first := FirstTx(d, id, pk, ev, env.now, allowed, env.fault, env.fts);
            var o := AfterText(first, id, path, ev.mediaBytes, env);
            && !(o.result.inserted && o.result.updated)
            && (o.error.None? || o.error == Some(MediaFailed) ==> RunIsOk(o, env) && o.result.id == id)
            && (o.error in {Some(MediaFailed), Some(MediaFailedUnmarked)} ==> o.result.id == id && KeepsText(d, o, ev))
  {
    var first := FirstTx(d, id, pk, ev, env.now, allowed, env.fault, env.fts);
    if first.committed {
      assert first.disk.tables.runs[RunID(id, env.now)].finishedAt == Some(env.now);
    }
  }

  /** The run of a call is 'ok' and carries its time, so the reader's cursor may follow it. */
  predicate RunIsOk(o: Outcome, env: Env) {
    var runId := RunID(o.result.id, env.now);
    && runId in o.disk.tables.runs
    && o.disk.tables.runs[runId].status == "ok"
    && o.disk.tables.runs[runId].finishedAt == Some(env.now)
  }

  /** The text of the event is stored, and the row points at no file that it did not point at before. */
  predicate KeepsText(d: Disk, o: Outcome, ev: Event) {
    var id := o.result.id;
    && id in o.disk.tables.messages
    && o.disk.tables.messages[id].content == ContentOf(ev)
    && o.disk.tables.messages[id].media.localPath
       == (if id in d.tables.messages then d.tables.messages[id].media.localPath else None)
  }

  /** One call of Write: it never reports a row as both inserted and updated; when it returns no error, or only
      failed to store the media, its run is 'ok'; and a media failure loses nothing of the text. */
  lemma WriteFacts(d: Disk, root: string, allowed: int, ev: Event, env: Env)
    ensures var o := WriteAlone(d, root, allowed, ev, env);
            && !(o.result.inserted && o.result.updated)
            && (o.error.None? || o.error == Some(MediaFailed) ==> RunIsOk(o, env))
            && (o.error in {Some(MediaFailed), Some(MediaFailedUnmarked)} ==> KeepsText(d, o, ev))
  {
    var pk := ResolvePK(d.tables.messages, ev, env.lookupFails);
    CallFacts(d, MessageID(KeyOfEvent(ev), pk), pk, ev, allowed, FinalPath(root, ev), env);
  }
}
