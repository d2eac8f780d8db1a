/** The read side: unseen.go. Cutoff, query, selection, cursor and surfacing marks of one run. */
module Unseen {
  import opened Text
  import opened Types
  import opened Output
  import opened StoreProtocol
  import MediaPath
  import Store

  const OVERLAP: int := 1800
  const MARGIN: int := 60
  const DAY: int := 86400

  /** What reading the cursor file gives. */
  datatype StateFile = Missing | Holding(text: string) | Unreadable

  /** int64(x): truncation toward zero. */
  function Truncate(x: real): int {
    if x >= 0.0 then x.Floor else -((-x).Floor)
  }

  /** The number in the cursor file, if there is one. */
  function CursorIn(file: StateFile): Option<int> {
    if file.Holding? then ParseInt(TrimSpace(file.text)) else None
  }

  /** cutoffFor; None is an error. */
  function CutoffFor(now: int, file: StateFile, sinceHours: Option<real>): Option<int> {
    if sinceHours.Some? then
      Some(if sinceHours.value == 0.0 then 0 else Truncate(now as real - sinceHours.value * 3600.0))
    else if file.Unreadable? then None
    else match CursorIn(file)
      case None => Some(now - DAY)
      case Some(prior) =>
        var cutoff := Wrap64(prior - OVERLAP);
        Some(if cutoff < 0 then 0 else cutoff)
  }

  /** priorCursor; None is an error. */
  function PriorCursor(file: StateFile): Option<int> {
    if file.Unreadable? then None
    else match CursorIn(file)
      case None => Some(0)
      case Some(prior) => Some(prior)
  }

  // ---------------------------------------------------------------- the query

  /** where from_me = 0 and chat_jid in (...) and (ts >= ? or hydrated and not surfaced) */
  predicate Qualifies(row: Row, jids: seq<string>, cutoff: int) {
    && !row.ident.fromMe
    && row.ident.chatJID in jids
    && (cutoff <= row.ident.ts || Unsurfaced(row))
  }

  /** order by chat_label, ts */
  predicate InOrder(a: Row, b: Row) {
    if a.ident.chatLabel == b.ident.chatLabel then a.ident.ts <= b.ident.ts
    else Less(a.ident.chatLabel, b.ident.chatLabel)
  }

  /** One of the answers SQLite may give: every qualifying row once, in order; ties in any order. */
  predicate IsAnswer(messages: map<string, Row>, jids: seq<string>, cutoff: int, ids: seq<string>) {
    && (forall i | 0 <= i < |ids| :: ids[i] in messages && Qualifies(messages[ids[i]], jids, cutoff))
    && (forall id | id in messages && Qualifies(messages[id], jids, cutoff) :: id in ids)
    && (forall i, j | 0 <= i < j < |ids| :: ids[i] != ids[j] && InOrder(messages[ids[i]], messages[ids[j]]))
  }

  const SKIP_TYPES := {"reaction", "sticker", "system", "group_event", "type_46", "type_66", "ptt"}

  predicate Skipped(row: Row) {
    MediaPath.ToLower(Coalesce(row.content.messageType)) in SKIP_TYPES
  }

  predicate NeedsMark(row: Row) {
    row.media.hydratedAt.Some? && row.media.hydratedAt.value != 0 && row.media.surfacedAt.None?
  }

  function MsgOf(id: string, row: Row): Msg {
    Msg(id, row.ident.chatJID, row.ident.chatLabel, row.ident.ts, row.media.localPath, row.media.hydratedAt,
        NeedsMark(row))
  }

  /** The rows that are printed, in query order. */
  function Selected(messages: map<string, Row>, ids: seq<string>): (r: seq<Msg>)
    requires forall id | id in ids :: id in messages
  {
    if ids == [] then []
    else
      var front, last := ids[..|ids| - 1], ids[|ids| - 1];
      Selected(messages, front) + if Skipped(messages[last]) then [] else [MsgOf(last, messages[last])]
  }

  predicate Prints(msgs: seq<Msg>, id: string) {
    exists m :: m in msgs && m.id == id
  }

  lemma {:induction false} SelectedMembers(messages: map<string, Row>, ids: seq<string>)
    requires forall id | id in ids :: id in messages
    ensures forall m | m in Selected(messages, ids) ::
              m.id in ids && !Skipped(messages[m.id]) && m == MsgOf(m.id, messages[m.id])
    ensures forall id | id in ids && !Skipped(messages[id]) :: MsgOf(id, messages[id]) in Selected(messages, ids)
    decreases |ids|
  {
    if ids != [] {
      var front, last := ids[..|ids| - 1], ids[|ids| - 1];
      assert forall id | id in ids :: id in front || id == last;
      SelectedMembers(messages, front);
    }
  }

  /** A run prints exactly the rows that qualify and are not of a skipped type. */
  lemma PrintedExactly(messages: map<string, Row>, jids: seq<string>, cutoff: int, ids: seq<string>, id: string)
    requires IsAnswer(messages, jids, cutoff, ids)
    ensures Prints(Selected(messages, ids), id)
        <==> id in messages && Qualifies(messages[id], jids, cutoff) && !Skipped(messages[id])
  {
    SelectedMembers(messages, ids);
    if id in messages && Qualifies(messages[id], jids, cutoff) && !Skipped(messages[id]) {
      assert MsgOf(id, messages[id]) in Selected(messages, ids);
    }
  }

  // ---------------------------------------------------------------- tenants do not see each other

  /** It is the row of a message that is not the account's own. */
  predicate OfOther(messages: map<string, Row>, m: Msg) {
    && m.id in messages && !messages[m.id].ident.fromMe
    && m.chatJID == messages[m.id].ident.chatJID && m.chatLabel == messages[m.id].ident.chatLabel
    && m.ts == messages[m.id].ident.ts
  }

  /** A run prints rows of the tenant's chats only, and nothing for a tenant without chats. */
  lemma PrintedOfTenant(messages: map<string, Row>, jids: seq<string>, cutoff: int, ids: seq<string>)
    requires IsAnswer(messages, jids, cutoff, ids)
    ensures forall m | m in Selected(messages, ids) :: m.chatJID in jids && OfOther(messages, m)
    ensures jids == [] ==> Selected(messages, ids) == []
  {
    SelectedMembers(messages, ids);
    if Selected(messages, ids) != [] {
      var m := Selected(messages, ids)[0];
      assert m in Selected(messages, ids) && m.id in ids;
    }
  }

  lemma PrintedLinesOfTenant(messages: map<string, Row>, jids: seq<string>, cutoff: int, ids: seq<string>)
    requires IsAnswer(messages, jids, cutoff, ids)
    ensures forall m | m in Grouped(Selected(messages, ids)) :: m.chatJID in jids && OfOther(messages, m)
  {
    PrintedOfTenant(messages, jids, cutoff, ids);
    PrintedExactlyOnce(Selected(messages, ids));
    forall m | m in Grouped(Selected(messages, ids)) ensures m in Selected(messages, ids) {
      assert m in multiset(Grouped(Selected(messages, ids)));
    }
  }

  /** What a run prints, column by column: a message of somebody else in one of the chats, from the cutoff on or with a
      file that was fetched and not shown yet, and of no skipped type. */
  lemma PrintedByColumns(messages: map<string, Row>, jids: seq<string>, cutoff: int, ids: seq<string>, id: string)
    requires IsAnswer(messages, jids, cutoff, ids)
    ensures Prints(Selected(messages, ids), id)
        <==> && id in messages
             && var row := messages[id];
                && row.ident.fromMe == false && row.ident.chatJID in jids
                && (row.ident.ts >= cutoff || (row.media.hydratedAt != None && row.media.surfacedAt == None))
                && (row.content.messageType == None
                    || MediaPath.ToLower(row.content.messageType.value)
                       !in {"reaction", "sticker", "system", "group_event", "type_46", "type_66", "ptt"})
  {
    PrintedExactly(messages, jids, cutoff, ids, id);
    if id in messages {
      SkippedByType(messages[id]);
    }
  }

  lemma SkippedByType(row: Row)
    ensures Skipped(row)
        <==> row.content.messageType != None
             && MediaPath.ToLower(row.content.messageType.value)
                in {"reaction", "sticker", "system", "group_event", "type_46", "type_66", "ptt"}
  {
    assert MediaPath.ToLower("") == "";
  }

  /** What a run marks, column by column: the rows that it prints with a file that has a time and was not shown yet. */
  lemma MarkedByColumns(messages: map<string, Row>, jids: seq<string>, cutoff: int, ids: seq<string>, id: string)
    requires IsAnswer(messages, jids, cutoff, ids)
    ensures id in MarkedIds(Selected(messages, ids))
        <==> && id in messages
             && var row := messages[id];
                && row.ident.fromMe == false && row.ident.chatJID in jids && !Skipped(row)
                && row.media.hydratedAt != None && row.media.hydratedAt != Some(0) && row.media.surfacedAt == None
  {
    SelectedMembers(messages, ids);
    if id in messages && id in ids && !Skipped(messages[id]) {
      assert MsgOf(id, messages[id]) in Selected(messages, ids);
    }
    if id in messages && NeedsMark(messages[id]) && messages[id].ident.chatJID in jids && !messages[id].ident.fromMe {
      assert Qualifies(messages[id], jids, cutoff);
    }
  }

  /** Two tables that hold the same rows of these chats. */
  ghost predicate SameChats(jids: seq<string>, messages: map<string, Row>, messages': map<string, Row>) {
    && (forall id | id in messages && messages[id].ident.chatJID in jids ::
          id in messages' && messages'[id] == messages[id])
    && (forall id | id in messages' && messages'[id].ident.chatJID in jids ::
          id in messages && messages[id] == messages'[id])
  }

  lemma {:induction false} SelectedSame(messages: map<string, Row>, messages': map<string, Row>, ids: seq<string>)
    requires forall id | id in ids :: id in messages && id in messages' && messages[id] == messages'[id]
    ensures Selected(messages, ids) == Selected(messages', ids)
    decreases |ids|
  {
    if ids != [] {
      SelectedSame(messages, messages', ids[..|ids| - 1]);
    }
  }

  lemma AnswerCarriesOver(jids: seq<string>, messages: map<string, Row>, messages': map<string, Row>, cutoff: int,
                          ids: seq<string>)
    requires SameChats(jids, messages, messages') && IsAnswer(messages, jids, cutoff, ids)
    ensures IsAnswer(messages', jids, cutoff, ids)
    ensures forall id | id in ids :: id in messages && id in messages' && messages[id] == messages'[id]
  {
    forall i | 0 <= i < |ids|
      ensures ids[i] in messages' && messages'[ids[i]] == messages[ids[i]]
    {
      assert Qualifies(messages[ids[i]], jids, cutoff);
    }
  }

  /** Whatever happens in the chats of others, a run has the same answer, and writes the same lines and the same
      cursor. */
  lemma TenantsAreIsolated(file: StateFile, messages: map<string, Row>, messages': map<string, Row>,
                           runs: map<string, Run>, e: RunEnv)
    requires e.jids.Some? && SameChats(e.jids.value, messages, messages')
    requires Queries(file, e) && Answered(file, messages, e)
    ensures Answered(file, messages', e)
    ensures LinesOf(file, messages, e) == LinesOf(file, messages', e)
    ensures SameChats(e.jids.value, MessagesAfter(file, messages, runs, e), MessagesAfter(file, messages', runs, e))
  {
    var cutoff := CutoffFor(e.now, file, e.sinceHours).value;
    AnswerCarriesOver(e.jids.value, messages, messages', cutoff, e.answer);
    SelectedSame(messages, messages', e.answer);
  }

  /** The query's order makes the printed order the query's order: grouping moves nothing. */
  lemma PrintedInQueryOrder(messages: map<string, Row>, jids: seq<string>, cutoff: int, ids: seq<string>)
    requires IsAnswer(messages, jids, cutoff, ids)
    ensures Grouped(Selected(messages, ids)) == Selected(messages, ids)
  {
    SelectedSorted(messages, ids);
    SortedIsPrintedAsIs(Selected(messages, ids));
  }

  lemma {:induction false} SelectedSorted(messages: map<string, Row>, ids: seq<string>)
    requires forall i | 0 <= i < |ids| :: ids[i] in messages
    requires forall i, j | 0 <= i < j < |ids| :: InOrder(messages[ids[i]], messages[ids[j]])
    ensures SortedByLabel(Selected(messages, ids))
    decreases |ids|
  {
    if ids != [] {
      var front, last := ids[..|ids| - 1], ids[|ids| - 1];
      SelectedSorted(messages, front);
      SelectedMembers(messages, front);
      forall m | m in Selected(messages, front)
        ensures m.chatLabel == messages[last].ident.chatLabel || Less(m.chatLabel, messages[last].ident.chatLabel)
      {
        var i :| 0 <= i < |front| && front[i] == m.id;
        assert InOrder(messages[ids[i]], messages[ids[|ids| - 1]]);
      }
    }
  }

  // ---------------------------------------------------------------- the cursor

  function OkTimes(runs: map<string, Run>): set<int> {
    set k | k in runs && runs[k].status == "ok" && !runs[k].dryRun && runs[k].finishedAt.Some? ::
      runs[k].finishedAt.value
  }

  /** select max(finished_at) ... where status = 'ok' and dry_run = 0 */
  function LatestOK(runs: map<string, Run>): (r: Option<int>)
    ensures r.None? <==> OkTimes(runs) == {}
    ensures r.Some? ==> r.value in OkTimes(runs) && forall t | t in OkTimes(runs) :: t <= r.value
  {
    var times := OkTimes(runs);
    if times == {} then None
    else
      Store.HasMax(times);
      var m: int :| m in times && forall t | t in times :: t <= m;
      Some(m)
  }

  /** The cursor a run writes, or None when it leaves the cursor alone. */
  function NewCursor(now: int, ingest: int, prior: int): Option<int> {
    var maxAdvance := ingest - MARGIN;
    if maxAdvance <= prior then None else Some(if now < maxAdvance then now else maxAdvance)
  }

  function MarkedIds(msgs: seq<Msg>): set<string> {
    set m | m in msgs && m.needsMark :: m.id
  }

  datatype RunError = BadTenants | CursorUnreadable | NoAnswer | IngestUnknown | CursorNotWritten | NotMarked

  /** What a run is called with and what it meets: jids is None when the configuration cannot be read, answer is the
      order that SQLite chose. */
  datatype RunEnv = RunEnv(
    now: int,
    jids: Option<seq<string>>,
    sinceHours: Option<real>,
    noAdvance: bool,
    answer: seq<string>,
    failQuery: bool,
    failIngest: bool,
    failWrite: bool,
    failMark: bool)

  /** The run gets as far as its query. */
  predicate Queries(file: StateFile, e: RunEnv) {
    e.jids.Some? && CutoffFor(e.now, file, e.sinceHours).Some?
  }

  /** As far as looking up the latest ingest. */
  predicate Looks(file: StateFile, e: RunEnv) {
    Queries(file, e) && !e.failQuery && !e.noAdvance
  }

  /** As far as deciding about the cursor. */
  predicate Decides(file: StateFile, runs: map<string, Run>, e: RunEnv) {
    Looks(file, e) && !e.failIngest && LatestOK(runs).Some? && PriorCursor(file).Some?
  }

  function Advance(file: StateFile, runs: map<string, Run>, e: RunEnv): Option<int>
    requires Decides(file, runs, e)
  {
    NewCursor(e.now, LatestOK(runs).value, PriorCursor(file).value)
  }

  /** As far as marking. */
  predicate Marks(file: StateFile, runs: map<string, Run>, e: RunEnv) {
    Decides(file, runs, e) && !(Advance(file, runs, e).Some? && e.failWrite)
  }

  function ShownBy(file: StateFile, messages: map<string, Row>, e: RunEnv): seq<Msg>
    requires forall id | id in e.answer :: id in messages
  {
    if Queries(file, e) && !e.failQuery then Selected(messages, e.answer) else []
  }

  /** Everything that a run writes. */
  function LinesOf(file: StateFile, messages: map<string, Row>, e: RunEnv): seq<Line>
    requires forall id | id in e.answer :: id in messages
  {
    if Queries(file, e) && !e.failQuery
    then Lines(CutoffFor(e.now, file, e.sinceHours).value, Selected(messages, e.answer)) else []
  }

  /** The query of the run is answered. */
  predicate Answered(file: StateFile, messages: map<string, Row>, e: RunEnv) {
    && (forall id | id in e.answer :: id in messages)
    && (Queries(file, e) ==>
          IsAnswer(messages, e.jids.value, CutoffFor(e.now, file, e.sinceHours).value, e.answer))
  }

  function FileAfter(file: StateFile, runs: map<string, Run>, e: RunEnv): StateFile {
    if Decides(file, runs, e) && Advance(file, runs, e).Some? && !e.failWrite
    then Holding(FormatInt(Advance(file, runs, e).value)) else file
  }

  function MessagesAfter(file: StateFile, messages: map<string, Row>, runs: map<string, Run>, e: RunEnv)
    : map<string, Row>
    requires forall id | id in e.answer :: id in messages
  {
    if Marks(file, runs, e) && !e.failMark
    then StoreProtocol.SurfaceRows(messages, MarkedIds(Selected(messages, e.answer)), e.now) else messages
  }

  /** One undisturbed run on a cursor file and a database. */
  class Reader {
    var file: StateFile
    var messages: map<string, Row>
    var runs: map<string, Run>

    constructor (file: StateFile, messages: map<string, Row>, runs: map<string, Run>)
      ensures this.file == file && this.messages == messages && this.runs == runs
    {
      this.file, this.messages, this.runs := file, messages, runs;
    }

    /** The selection loop of runWithDB. */
    method Select(ids: seq<string>) returns (msgs: seq<Msg>)
      requires forall id | id in ids :: id in messages
      ensures msgs == Selected(messages, ids)
    {
      msgs := [];
      var i := 0;
      while i < |ids|
        invariant 0 <= i <= |ids|
        invariant msgs == Selected(messages, ids[..i])
      {
        assert ids[..i + 1][..i] == ids[..i];
        var row := messages[ids[i]];
        if !Skipped(row) {
          msgs := msgs + [MsgOf(ids[i], row)];
        }
        i := i + 1;
      }
      assert ids[..i] == ids;
    }

    /** runWithDB: the output, the cursor file, the marks, and for each error exactly when it is returned. */
    method Run(e: RunEnv) returns (printed: seq<Line>, error: Option<RunError>)
      requires forall id | id in e.answer :: id in messages
      modifies this`file, this`messages
      ensures printed == LinesOf(old(file), old(messages), e)
      ensures Items(printed) == Grouped(ShownBy(old(file), old(messages), e))
      ensures Answered(old(file), old(messages), e) ==>
                forall m | m in Items(printed) :: e.jids.Some? && m.chatJID in e.jids.value && OfOther(old(messages), m)
      ensures file == FileAfter(old(file), runs, e)
      ensures messages == MessagesAfter(old(file), old(messages), runs, e)
      ensures error == Some(BadTenants) <==> e.jids.None?
      ensures error == Some(CursorUnreadable) <==>
                || (e.jids.Some? && !Queries(old(file), e))
                || (Looks(old(file), e) && !e.failIngest && LatestOK(runs).Some? && PriorCursor(old(file)).None?)
      ensures error == Some(NoAnswer) <==> Queries(old(file), e) && e.failQuery
      ensures error == Some(IngestUnknown) <==> Looks(old(file), e) && e.failIngest
      ensures error == Some(CursorNotWritten) <==> Decides(old(file), runs, e) && !Marks(old(file), runs, e)
      ensures error == Some(NotMarked) <==>
                Marks(old(file), runs, e) && e.failMark && MarkedIds(Selected(old(messages), e.answer)) != {}
    {
      printed := [];
      if e.jids.None? {
        return [], Some(BadTenants);
      }
      var cutoff := CutoffFor(e.now, file, e.sinceHours);
      if cutoff.None? {
        return [], Some(CursorUnreadable);
      }
      if e.failQuery {
        return [], Some(NoAnswer);
      }
      var msgs := Select(e.answer);
      printed := WriteOutput(cutoff.value, msgs);
      if Answered(file, messages, e) {
        PrintedLinesOfTenant(messages, e.jids.value, cutoff.value, e.answer);
      }
      if e.noAdvance {
        return printed, None;
      }
      error := AdvanceAndMark(e, msgs);
    }

    /** What follows the output of a run that may advance. */
    method AdvanceAndMark(e: RunEnv, msgs: seq<Msg>) returns (error: Option<RunError>)
      requires Looks(file, e)
      modifies this`file, this`messages
      ensures file == FileAfter(old(file), runs, e)
      ensures messages == if Marks(old(file), runs, e) && !e.failMark
                          then StoreProtocol.SurfaceRows(old(messages), MarkedIds(msgs), e.now) else old(messages)
      ensures error.None? || error.value in {IngestUnknown, CursorUnreadable, CursorNotWritten, NotMarked}
      ensures error == Some(IngestUnknown) <==> e.failIngest
      ensures error == Some(CursorUnreadable) <==>
                !e.failIngest && LatestOK(runs).Some? && PriorCursor(old(file)).None?
      ensures error == Some(CursorNotWritten) <==> Decides(old(file), runs, e) && !Marks(old(file), runs, e)
      ensures error == Some(NotMarked) <==> Marks(old(file), runs, e) && e.failMark && MarkedIds(msgs) != {}
    {
      if e.failIngest {
        return Some(IngestUnknown);
      }
      var ingest := LatestOK(runs);
      if ingest.None? {
        return None;
      }
      var prior := PriorCursor(file);
      if prior.None? {
        return Some(CursorUnreadable);
      }
      var written := WriteCursor(e, ingest.value, prior.value);
      if !written {
        return Some(CursorNotWritten);
      }
      var marked := MarkSurfaced(msgs, e.now, e.failMark);
      error := if marked then None else Some(NotMarked);
    }

    /** The cursor of a run, unless it would not advance. */
    method WriteCursor(e: RunEnv, ingest: int, prior: int) returns (ok: bool)
      modifies this`file
      ensures var next := NewCursor(e.now, ingest, prior);
              && ok == !(next.Some? && e.failWrite)
              && file == if next.Some? && ok then Holding(FormatInt(next.value)) else old(file)
    {
      var maxAdvance := ingest - MARGIN;
      ok := true;
      if maxAdvance > prior {
        var newCursor := maxAdvance;
        if e.now < newCursor {
          newCursor := e.now;
        }
        if e.failWrite {
          return false;
        }
        file := Holding(FormatInt(newCursor));
      }
    }

    method MarkSurfaced(msgs: seq<Msg>, now: int, fails: bool) returns (ok: bool)
      modifies this`messages
      ensures ok == (!fails || MarkedIds(msgs) == {})
      ensures messages == if fails then old(messages) else SurfaceRows(old(messages), MarkedIds(msgs), now)
    {
      var ids: set<string> := {};
      var i := 0;
      while i < |msgs|
        invariant 0 <= i <= |msgs|
        invariant ids == MarkedIds(msgs[..i])
      {
        assert msgs[..i + 1] == msgs[..i] + [msgs[i]];
        if msgs[i].needsMark {
          ids := ids + {msgs[i].id};
        }
        i := i + 1;
      }
      assert msgs[..i] == msgs;
      if ids == {} {
        assert SurfaceRows(messages, {}, now) == messages;
        return true;
      }
      if fails {
        return false;
      }
      messages := SurfaceRows(messages, ids, now);
      ok := true;
    }
  }

  // ---------------------------------------------------------------- facts about one run

  /** A conversion to an integer drops the fraction, toward zero. */
  lemma TruncateIs(x: real)
    ensures x >= 0.0 ==> Truncate(x) as real <= x < Truncate(x) as real + 1.0 && Truncate(x) >= 0
    ensures x <= 0.0 ==> Truncate(x) as real - 1.0 < x <= Truncate(x) as real && Truncate(x) <= 0
  {
  }

  /** A written cursor reads back as itself. */
  lemma WrittenCursorReadsBack(n: int)
    requires IsInt64(n)
    ensures CursorIn(Holding(FormatInt(n))) == Some(n)
  {
    FormatIntIsTrimmed(n);
    FormatParseRoundTrip(n);
  }

  /** The cursor never passes now or the margin before the latest successful ingest, and never goes back. */
  lemma CursorBounds(now: int, ingest: int, prior: int)
    requires prior <= now
    ensures var next := NewCursor(now, ingest, prior);
            next.Some? ==> prior <= next.value <= now && next.value <= ingest - MARGIN
  {
  }

  /** With a clock behind the cursor the cursor does go back, exactly when there is a newer ingest. */
  lemma CursorGoesBackExactly(now: int, ingest: int, prior: int)
    ensures (NewCursor(now, ingest, prior).Some? && NewCursor(now, ingest, prior).value < prior)
        <==> (now < prior && prior < ingest - MARGIN)
  {
  }

  /** The cutoff of a default run on a cursor. */
  function DefaultCutoff(cursor: int): int {
    if cursor < OVERLAP then 0 else cursor - OVERLAP
  }

  lemma DefaultCutoffIs(now: int, file: StateFile)
    requires CursorIn(file).Some? && INT64_MIN + OVERLAP <= CursorIn(file).value <= INT64_MAX
    ensures CutoffFor(now, file, None) == Some(DefaultCutoff(CursorIn(file).value))
  {
  }

  /** Where the cursor stands after a run that gets that far. */
  function CursorAfter(now: int, ingest: int, prior: int): int {
    var next := NewCursor(now, ingest, prior);
    if next.Some? then next.value else prior
  }

  /** A time that a default run would cover, but neither this run nor the default run after it does. */
  predicate IsPassed(t: int, before: int, cutoff: int, after: int) {
    before <= t < cutoff && t < after
  }

  /** Exactly when a run with --since-hours can pass rows that a default run would have printed: if and only if the
      default range starts before its own cutoff and before that of the default run after it. */
  lemma SinceHoursSkipsExactly(now: int, prior: int, ingest: int, cutoff: int)
    ensures var before, after := DefaultCutoff(prior), DefaultCutoff(CursorAfter(now, ingest, prior));
            (exists t :: IsPassed(t, before, cutoff, after)) <==> before < cutoff && before < after
  {
    var before, after := DefaultCutoff(prior), DefaultCutoff(CursorAfter(now, ingest, prior));
    if before < cutoff && before < after {
      assert IsPassed(before, before, cutoff, after);
    }
  }
}
