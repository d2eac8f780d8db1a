/** What the tables hold after any interleaving of writes: identity from the first event of a row, content and
    index entry from the last. */
module LastWrite {
  import opened Text
  import opened Types
  import opened Store
  import opened StoreProtocol

  /** The first and the last commit of an id in a log. */
  function FirstCommit(log: seq<Commit>, id: string): Option<Commit> {
    if log == [] then None
    else
      var front := FirstCommit(log[..|log| - 1], id);
      if front.Some? then front
      else if log[|log| - 1].id == id then Some(log[|log| - 1]) else None
  }

  function LastCommit(log: seq<Commit>, id: string): Option<Commit> {
    if log == [] then None
    else if log[|log| - 1].id == id then Some(log[|log| - 1])
    else LastCommit(log[..|log| - 1], id)
  }

  lemma LogStep(log: seq<Commit>, c: Commit, id: string)
    ensures LastCommit(log + [c], id) == if c.id == id then Some(c) else LastCommit(log, id)
    ensures FirstCommit(log + [c], id)
         == if FirstCommit(log, id).None? && c.id == id then Some(c) else FirstCommit(log, id)
  {
    var longer := log + [c];
    assert longer[..|longer| - 1] == log;
  }

  /** One row, given what the table held at the start and the commits since. */
  ghost predicate RowFromLog(base: map<string, Row>, log: seq<Commit>, id: string, row: Row) {
    var first, last := FirstCommit(log, id), LastCommit(log, id);
    && (if id in base then row.ident == base[id].ident
        else first.Some? && row.ident == IdentityOf(first.value.ev, first.value.pk))
    && (if last.Some? then row.content == ContentOf(last.value.ev)
        else id in base && row.content == base[id].content)
  }

  ghost predicate RowsFromLog(base: map<string, Row>, messages: map<string, Row>, log: seq<Commit>) {
    && (forall id :: id in messages <==> id in base || LastCommit(log, id).Some?)
    && (forall id | id in messages :: RowFromLog(base, log, id, messages[id]))
  }

  lemma {:induction false} FirstIffLast(log: seq<Commit>, id: string)
    ensures FirstCommit(log, id).Some? <==> LastCommit(log, id).Some?
  {
    if log != [] {
      FirstIffLast(log[..|log| - 1], id);
    }
  }

  lemma CommitRefines(base: map<string, Row>, messages: map<string, Row>, log: seq<Commit>, c: Commit, now: int)
    requires RowsFromLog(base, messages, log)
    ensures RowsFromLog(base, Upsert(messages, c.id, c.ev, c.pk, now), log + [c])
  {
    var messages' := Upsert(messages, c.id, c.ev, c.pk, now);
    forall id ensures id in messages' <==> id in base || LastCommit(log + [c], id).Some? {
      LogStep(log, c, id);
    }
    forall id | id in messages' ensures RowFromLog(base, log + [c], id, messages'[id]) {
      LogStep(log, c, id);
      FirstIffLast(log, id);
      if id != c.id {
        assert RowFromLog(base, log, id, messages[id]);
      }
    }
  }

  lemma StepRefines(base: map<string, Row>, s: Sys, a: Action)
    requires RowsFromLog(base, s.disk.tables.messages, s.log)
    ensures RowsFromLog(base, Next(s, a).disk.tables.messages, Next(s, a).log)
  {
    if Commits(s, a) {
      CommitEffect(s, a);
      var id := JobID(s, a.j);
      CommitRefines(base, s.disk.tables.messages, s.log,
                    CommitOf(s, a), a.now);
    } else {
      QuietEffect(s, a);
    }
  }

  /** Last write wins: after any schedule every row has the identity of its first event (or of the row that was
      there) and the content of its last event; nothing else has a row. */
  lemma {:induction false} LastWriteWins(s: Sys, schedule: seq<Action>)
    requires s.log == []
    ensures RowsFromLog(s.disk.tables.messages, Exec(s, schedule).disk.tables.messages, Exec(s, schedule).log)
  {
    if schedule != [] {
      LastWriteWins(s, schedule[..|schedule| - 1]);
      StepRefines(s.disk.tables.messages, Exec(s, schedule[..|schedule| - 1]), schedule[|schedule| - 1]);
    }
  }

  /** What the columns of a row say about the event they come from, each by its name. */
  lemma ColumnsReadBack(ev: Event, pk: int)
    ensures var c, i := ContentOf(ev), IdentityOf(ev, pk);
            && Coalesce(c.senderName) == ev.senderName && Coalesce(c.text) == ev.text
            && Coalesce(c.messageType) == ev.messageType && Coalesce(c.mediaType) == ev.mediaType
            && Coalesce(c.mediaTitle) == ev.mediaTitle && Coalesce(c.mediaPath) == ev.mediaPath
            && Coalesce(c.mediaURL) == ev.mediaURL
            && c.mediaSize == (if ev.mediaSize == 0 then None else Some(ev.mediaSize))
            && i.sourcePK == pk && i.chatJID == ev.chatJID && i.chatLabel == ev.chatLabel && i.msgID == ev.msgID
            && Coalesce(i.senderJID) == ev.senderJID && i.ts == ev.timestamp
            && i.fromMe == ev.fromMe && i.rawType == ev.rawType
  {
  }

  /** What an upsert does to the columns of the media life cycle: a status that is given is set, and its attempts are
      added; without one nothing changes, and a new row has neither. The file and its times are left alone. */
  lemma MediaColumns(m: map<string, Row>, id: string, ev: Event, pk: int, now: int)
    ensures var m' := Upsert(m, id, ev, pk, now);
            && id in m' && m'[id].ingestedAt == now
            && var before, after := if id in m then m[id].media else Media(None, None, None, 0, None), m'[id].media;
               && after.status == (if ev.hydrationStatus == "" then before.status else Some(ev.hydrationStatus))
               && after.attempts == before.attempts + (if ev.hydrationStatus == "" then 0 else ev.hydrationAttempts)
               && after.localPath == before.localPath && after.hydratedAt == before.hydratedAt
               && after.surfacedAt == before.surfacedAt
    ensures forall x | x in m && x != id :: x in Upsert(m, id, ev, pk, now) && Upsert(m, id, ev, pk, now)[x] == m[x]
  {
  }

  /** A row that holds one event is reported as updated by the next exactly when the text, the title or a given
      status is new; the hash confuses nothing as long as the texts hold no NUL. */
  lemma UpdatedExactly(m: map<string, Row>, id: string, prev: Event, ev: Event)
    requires id in m && m[id].content == ContentOf(prev) && NulFree(prev.text) && NulFree(ev.text)
    ensures UpdatedFlag(m, id, ev)
        <==> ev.text != prev.text || ev.mediaTitle != prev.mediaTitle || ev.hydrationStatus != ""
  {
    if TextHash(ev.text, ev.mediaTitle) == TextHash(prev.text, prev.mediaTitle) {
      JoinedInjective(ev.text, ev.mediaTitle, prev.text, prev.mediaTitle);
    }
  }

  // ---------------------------------------------------------------- the full-text index

  lemma {:induction false} MatchingWithout(fts: seq<FtsRow>, id: string, other: string)
    ensures Matching(WithoutId(fts, id), other) == if other == id then [] else Matching(fts, other)
    ensures forall f | f in WithoutId(fts, id) :: f in fts && f.id != id
    decreases |fts|
  {
    if fts != [] {
      MatchingWithout(fts[1..], id, other);
      if fts[0].id != id {
        var rest := WithoutId(fts[1..], id);
        assert ([fts[0]] + rest)[1..] == rest;
      }
    }
  }

  lemma {:induction false} MatchingAppend(fts: seq<FtsRow>, f: FtsRow, id: string)
    ensures Matching(fts + [f], id) == Matching(fts, id) + if f.id == id then [f] else []
    decreases |fts|
  {
    if fts == [] {
      assert (fts + [f])[1..] == [];
    } else {
      assert (fts + [f])[1..] == fts[1..] + [f];
      MatchingAppend(fts[1..], f, id);
    }
  }

  /** What a refresh does to the entries of every id. */
  lemma RefreshedEntries(fts: seq<FtsRow>, id: string, ev: Event, other: string)
    ensures Matching(WithoutId(fts, id) + [FtsOf(id, ev)], other)
         == if other == id then [FtsOf(id, ev)] else Matching(fts, other)
  {
    MatchingWithout(fts, id, other);
    MatchingAppend(WithoutId(fts, id), FtsOf(id, ev), other);
  }

  /** The label that the latest event of each row carried. */
  function LabelsAfter(labels: map<string, string>, log: seq<Commit>): map<string, string> {
    if log == [] then labels
    else LabelsAfter(labels, log[..|log| - 1])[log[|log| - 1].id := log[|log| - 1].ev.chatLabel]
  }

  function EntryOf(id: string, c: Content, chatLabel: string): FtsRow {
    FtsRow(id, Coalesce(c.text), chatLabel, Coalesce(c.senderName), Coalesce(c.mediaTitle))
  }

  /** A message has exactly one entry, with its text, sender name and title and the label of its latest event. */
  predicate EntryAgrees(t: Tables, labels: map<string, string>, id: string)
    requires id in t.messages
  {
    id in labels && Matching(t.fts, id) == [EntryOf(id, t.messages[id].content, labels[id])]
  }

  predicate NoOrphans(t: Tables) {
    forall f | f in t.fts :: f.id in t.messages
  }

  ghost predicate IndexAgrees(t: Tables, labels: map<string, string>) {
    (forall id | id in t.messages :: EntryAgrees(t, labels, id)) && NoOrphans(t)
  }

  lemma LabelsStep(labels: map<string, string>, log: seq<Commit>, c: Commit)
    ensures LabelsAfter(labels, log + [c]) == LabelsAfter(labels, log)[c.id := c.ev.chatLabel]
  {
    var longer := log + [c];
    assert longer[..|longer| - 1] == log;
  }

  /** The commit writes the entry of its message anew. */
  predicate Refreshes(s: Sys, a: Action) {
    Commits(s, a) && !s.disk.ftsUnavailable && a.fts.FtsOk?
  }

  /** The commit leaves the entry of its message right: it writes it anew, or the index is missing and what stands
      there is already the entry of the event. */
  predicate Indexes(s: Sys, a: Action)
    requires Commits(s, a)
  {
    || Refreshes(s, a)
    || ((s.disk.ftsUnavailable || a.fts.NoTableOnDelete?)
        && Matching(s.disk.tables.fts, JobID(s, a.j)) == [FtsOf(JobID(s, a.j), s.jobs[a.j].ev)])
  }

  /** What the index statements of one transaction leave of the entries, for each of their outcomes. */
  lemma EntriesAfter(fts: seq<FtsRow>, unavailable: bool, id: string, ev: Event, outcome: FtsOutcome, other: string)
    requires !RefreshFts(fts, unavailable, id, ev, outcome).failed
    ensures Matching(RefreshFts(fts, unavailable, id, ev, outcome).fts, other)
         == if unavailable || outcome.NoTableOnDelete? || other != id then Matching(fts, other)
            else if outcome.FtsOk? then [FtsOf(id, ev)]
            else []
  {
    RefreshedEntries(fts, id, ev, other);
    MatchingWithout(fts, id, other);
  }

  lemma SameEntry(id: string, ev: Event)
    ensures EntryOf(id, ContentOf(ev), ev.chatLabel) == FtsOf(id, ev)
  {
  }

  /** The entry of the committed message. */
  lemma CommitOwnEntry(labels: map<string, string>, s: Sys, a: Action)
    requires Commits(s, a)
    ensures JobID(s, a.j) in Next(s, a).disk.tables.messages
    ensures EntryAgrees(Next(s, a).disk.tables, LabelsAfter(labels, Next(s, a).log), JobID(s, a.j)) <==> Indexes(s, a)
  {
    CommitEffect(s, a);
    var id, ev, d := JobID(s, a.j), s.jobs[a.j].ev, s.disk;
    LabelsStep(labels, s.log, CommitOf(s, a));
    EntriesAfter(d.tables.fts, d.ftsUnavailable, id, ev, a.fts, id);
    SameEntry(id, ev);
  }

  /** Those of all others. */
  lemma CommitOtherEntry(labels: map<string, string>, s: Sys, a: Action, id: string)
    requires Commits(s, a) && id in Next(s, a).disk.tables.messages && id != JobID(s, a.j)
    ensures id in s.disk.tables.messages
    ensures EntryAgrees(Next(s, a).disk.tables, LabelsAfter(labels, Next(s, a).log), id)
        <==> EntryAgrees(s.disk.tables, LabelsAfter(labels, s.log), id)
  {
    CommitEffect(s, a);
    var stored, ev, d := JobID(s, a.j), s.jobs[a.j].ev, s.disk;
    LabelsStep(labels, s.log, CommitOf(s, a));
    EntriesAfter(d.tables.fts, d.ftsUnavailable, stored, ev, a.fts, id);
  }

  /** The index and the labels after a commit, entry by entry. */
  lemma CommitEntry(labels: map<string, string>, s: Sys, a: Action, id: string)
    requires Commits(s, a) && id in Next(s, a).disk.tables.messages
    ensures EntryAgrees(Next(s, a).disk.tables, LabelsAfter(labels, Next(s, a).log), id)
        <==> if id == JobID(s, a.j) then Indexes(s, a)
             else id in s.disk.tables.messages && EntryAgrees(s.disk.tables, LabelsAfter(labels, s.log), id)
  {
    if id == JobID(s, a.j) {
      CommitOwnEntry(labels, s, a);
    } else {
      CommitOtherEntry(labels, s, a, id);
    }
  }

  lemma RefreshAddsNoOrphan(fts: seq<FtsRow>, unavailable: bool, id: string, ev: Event, outcome: FtsOutcome)
    ensures forall f | f in RefreshFts(fts, unavailable, id, ev, outcome).fts :: f in fts || f.id == id
  {
    MatchingWithout(fts, id, id);
  }

  lemma NoOrphansKept(s: Sys, a: Action)
    requires NoOrphans(s.disk.tables)
    ensures NoOrphans(Next(s, a).disk.tables)
  {
    if Commits(s, a) {
      CommitEffect(s, a);
      RefreshAddsNoOrphan(s.disk.tables.fts, s.disk.ftsUnavailable, JobID(s, a.j), s.jobs[a.j].ev, a.fts);
    } else {
      QuietEffect(s, a);
    }
  }

  /** Any other step leaves an entry as it is, unless it loses the index. */
  lemma QuietEntry(labels: map<string, string>, s: Sys, a: Action, id: string)
    requires !Commits(s, a) && id in Next(s, a).disk.tables.messages
    ensures EntryAgrees(Next(s, a).disk.tables, LabelsAfter(labels, Next(s, a).log), id)
        <==> !a.LoseIndex? && id in s.disk.tables.messages
             && EntryAgrees(s.disk.tables, LabelsAfter(labels, s.log), id)
  {
    QuietEffect(s, a);
  }

  /** The steps that keep the index in agreement. */
  predicate KeepsIndex(s: Sys, a: Action) {
    if Commits(s, a) then Indexes(s, a) else a.LoseIndex? ==> s.disk.tables.messages == map[]
  }

  /** A step from a state in which index and messages agree keeps the agreement if and only if it is one of those. */
  lemma IndexKeptExactly(labels: map<string, string>, s: Sys, a: Action)
    requires IndexAgrees(s.disk.tables, LabelsAfter(labels, s.log))
    ensures IndexAgrees(Next(s, a).disk.tables, LabelsAfter(labels, Next(s, a).log)) <==> KeepsIndex(s, a)
  {
    var s' := Next(s, a);
    NoOrphansKept(s, a);
    if Commits(s, a) {
      CommitEffect(s, a);
      forall id | id in s'.disk.tables.messages
        ensures EntryAgrees(s'.disk.tables, LabelsAfter(labels, s'.log), id) <==> id != JobID(s, a.j) || Indexes(s, a)
      {
        CommitEntry(labels, s, a, id);
      }
      assert JobID(s, a.j) in s'.disk.tables.messages;
    } else {
      QuietEffect(s, a);
      forall id | id in s'.disk.tables.messages
        ensures EntryAgrees(s'.disk.tables, LabelsAfter(labels, s'.log), id) <==> !a.LoseIndex?
      {
        QuietEntry(labels, s, a, id);
      }
      SomeRow(s.disk.tables.messages);
    }
  }

  lemma SomeRow(messages: map<string, Row>)
    ensures messages == map[] || exists id :: id in messages
  {
    if !exists id :: id in messages {
      assert messages == map[];
    }
  }

  /** Over a whole run: index and messages agree all the time if and only if every step keeps them so. */
  ghost predicate AgreesThroughout(labels: map<string, string>, s: Sys, schedule: seq<Action>) {
    forall i | 0 <= i <= |schedule| ::
      IndexAgrees(Exec(s, schedule[..i]).disk.tables, LabelsAfter(labels, Exec(s, schedule[..i]).log))
  }

  ghost predicate AllKeepIndex(s: Sys, schedule: seq<Action>) {
    forall i | 0 <= i < |schedule| :: KeepsIndex(Exec(s, schedule[..i]), schedule[i])
  }

  lemma ExecStep(s: Sys, schedule: seq<Action>, i: nat)
    requires i < |schedule|
    ensures Exec(s, schedule[..i + 1]) == Next(Exec(s, schedule[..i]), schedule[i])
  {
    assert schedule[..i + 1][..i] == schedule[..i];
  }

  lemma {:induction false} AgreesUpTo(labels: map<string, string>, s: Sys, schedule: seq<Action>, n: nat)
    requires n <= |schedule| && AllKeepIndex(s, schedule)
    requires IndexAgrees(s.disk.tables, LabelsAfter(labels, s.log))
    ensures IndexAgrees(Exec(s, schedule[..n]).disk.tables, LabelsAfter(labels, Exec(s, schedule[..n]).log))
    decreases n
  {
    if n > 0 {
      AgreesUpTo(labels, s, schedule, n - 1);
      ExecStep(s, schedule, n - 1);
      IndexKeptExactly(labels, Exec(s, schedule[..n - 1]), schedule[n - 1]);
    }
  }

  lemma AgreesThroughoutExactly(labels: map<string, string>, s: Sys, schedule: seq<Action>)
    requires IndexAgrees(s.disk.tables, LabelsAfter(labels, s.log))
    ensures AgreesThroughout(labels, s, schedule) <==> AllKeepIndex(s, schedule)
  {
    if AgreesThroughout(labels, s, schedule) {
      forall i | 0 <= i < |schedule| ensures KeepsIndex(Exec(s, schedule[..i]), schedule[i]) {
        ExecStep(s, schedule, i);
        IndexKeptExactly(labels, Exec(s, schedule[..i]), schedule[i]);
      }
    }
    if AllKeepIndex(s, schedule) {
      forall i | 0 <= i <= |schedule|
        ensures IndexAgrees(Exec(s, schedule[..i]).disk.tables, LabelsAfter(labels, Exec(s, schedule[..i]).log))
      {
        AgreesUpTo(labels, s, schedule, i);
      }
    }
  }

  /** Some step of the schedule commits an event under this id. */
  predicate StoredIn(s: Sys, schedule: seq<Action>, id: string) {
    schedule != [] &&
    var front, last := Exec(s, schedule[..|schedule| - 1]), schedule[|schedule| - 1];
    (Commits(front, last) && JobID(front, last.j) == id) || StoredIn(s, schedule[..|schedule| - 1], id)
  }

  /** Every commit of the schedule refreshes the index, and the index is not lost. */
  predicate AllRefresh(s: Sys, schedule: seq<Action>) {
    schedule != [] ==>
      var front, last := Exec(s, schedule[..|schedule| - 1]), schedule[|schedule| - 1];
      && AllRefresh(s, schedule[..|schedule| - 1])
      && !last.LoseIndex? && (Commits(front, last) ==> Refreshes(front, last))
  }

  /** Over such a schedule an entry becomes right when its message is stored, and otherwise stays what it was. */
  lemma {:induction false} EntryFollows(labels: map<string, string>, s: Sys, schedule: seq<Action>, id: string)
    requires AllRefresh(s, schedule) && id in Exec(s, schedule).disk.tables.messages
    ensures EntryAgrees(Exec(s, schedule).disk.tables, LabelsAfter(labels, Exec(s, schedule).log), id)
        <==> || StoredIn(s, schedule, id)
             || (id in s.disk.tables.messages && EntryAgrees(s.disk.tables, LabelsAfter(labels, s.log), id))
    ensures id in s.disk.tables.messages || StoredIn(s, schedule, id)
    decreases |schedule|
  {
    if schedule != [] {
      var front, last := Exec(s, schedule[..|schedule| - 1]), schedule[|schedule| - 1];
      if id in front.disk.tables.messages {
        EntryFollows(labels, s, schedule[..|schedule| - 1], id);
      } else {
        NotStored(s, schedule[..|schedule| - 1], id);
      }
      if Commits(front, last) {
        CommitEffect(front, last);
        CommitEntry(labels, front, last, id);
      } else {
        QuietEffect(front, last);
        QuietEntry(labels, front, last, id);
      }
    }
  }

  /** A row that is not there was never there. */
  lemma {:induction false} NotStored(s: Sys, schedule: seq<Action>, id: string)
    requires id !in Exec(s, schedule).disk.tables.messages
    ensures id !in s.disk.tables.messages && !StoredIn(s, schedule, id)
    decreases |schedule|
  {
    if schedule != [] {
      var front, last := Exec(s, schedule[..|schedule| - 1]), schedule[|schedule| - 1];
      RowsPersist(front, last);
      NotStored(s, schedule[..|schedule| - 1], id);
      if Commits(front, last) {
        CommitEffect(front, last);
      }
    }
  }

  lemma {:induction false} OrphansNever(s: Sys, schedule: seq<Action>)
    requires NoOrphans(s.disk.tables)
    ensures NoOrphans(Exec(s, schedule).disk.tables)
  {
    if schedule != [] {
      OrphansNever(s, schedule[..|schedule| - 1]);
      NoOrphansKept(Exec(s, schedule[..|schedule| - 1]), schedule[|schedule| - 1]);
    }
  }

  /** After a schedule in which every commit refreshes the index, index and messages agree if and only if every
      message whose entry was wrong or missing at the start has been stored again. */
  lemma IndexFollows(labels: map<string, string>, s: Sys, schedule: seq<Action>)
    requires NoOrphans(s.disk.tables) && AllRefresh(s, schedule)
    ensures IndexAgrees(Exec(s, schedule).disk.tables, LabelsAfter(labels, Exec(s, schedule).log))
        <==> forall id | id in s.disk.tables.messages ::
               EntryAgrees(s.disk.tables, LabelsAfter(labels, s.log), id) || StoredIn(s, schedule, id)
  {
    OrphansNever(s, schedule);
    RowsKept(s, schedule);
    forall id | id in Exec(s, schedule).disk.tables.messages
      ensures EntryAgrees(Exec(s, schedule).disk.tables, LabelsAfter(labels, Exec(s, schedule).log), id)
          <==> || StoredIn(s, schedule, id)
               || (id in s.disk.tables.messages && EntryAgrees(s.disk.tables, LabelsAfter(labels, s.log), id))
      ensures id in s.disk.tables.messages || StoredIn(s, schedule, id)
    {
      EntryFollows(labels, s, schedule, id);
    }
  }

  lemma {:induction false} RowsKept(s: Sys, schedule: seq<Action>)
    ensures s.disk.tables.messages.Keys <= Exec(s, schedule).disk.tables.messages.Keys
  {
    if schedule != [] {
      RowsKept(s, schedule[..|schedule| - 1]);
      RowsPersist(Exec(s, schedule[..|schedule| - 1]), schedule[|schedule| - 1]);
    }
  }

  /** No commit of the schedule refreshes the index. */
  predicate NoneRefreshes(s: Sys, schedule: seq<Action>) {
    schedule != [] ==>
      && NoneRefreshes(s, schedule[..|schedule| - 1])
      && !Refreshes(Exec(s, schedule[..|schedule| - 1]), schedule[|schedule| - 1])
  }

  lemma {:induction false} StaysEmpty(s: Sys, schedule: seq<Action>)
    requires s.disk.tables.fts == [] && NoneRefreshes(s, schedule)
    ensures Exec(s, schedule).disk.tables.fts == []
  {
    if schedule != [] {
      StaysEmpty(s, schedule[..|schedule| - 1]);
      var front, last := Exec(s, schedule[..|schedule| - 1]), schedule[|schedule| - 1];
      if Commits(front, last) {
        CommitEffect(front, last);
      } else {
        QuietEffect(front, last);
      }
    }
  }

  /** The index table is lost, the daemon goes on without it, and a restart creates it again: it is available and
      empty, and after any schedule in which every commit refreshes it, it agrees with the messages if and only if
      every message that was there at the restart has been stored once more. */
  lemma RestartForgetsTheIndex(labels: map<string, string>, s: Sys, outage: seq<Action>, schedule: seq<Action>)
    requires NoneRefreshes(Next(s, LoseIndex), outage)
    requires AllRefresh(Next(Exec(Next(s, LoseIndex), outage), Crash), schedule)
    ensures var s1 := Next(Exec(Next(s, LoseIndex), outage), Crash);
            && !s1.disk.ftsUnavailable && s1.disk.tables.fts == []
            && s.disk.tables.messages.Keys <= s1.disk.tables.messages.Keys
            && (IndexAgrees(Exec(s1, schedule).disk.tables, LabelsAfter(labels, Exec(s1, schedule).log))
                <==> forall id | id in s1.disk.tables.messages :: StoredIn(s1, schedule, id))
  {
    StaysEmpty(Next(s, LoseIndex), outage);
    RowsKept(Next(s, LoseIndex), outage);
    QuietEffect(s, LoseIndex);
    QuietEffect(Exec(Next(s, LoseIndex), outage), Crash);
    IndexFollows(labels, Next(Exec(Next(s, LoseIndex), outage), Crash), schedule);
  }

  /** A renamed chat: the row keeps its first label while its index entry takes the new one, so the two agree
      exactly when the first and the latest event carried the same label. */
  lemma LabelsAgreeExactly(base: map<string, Row>, labels: map<string, string>, s: Sys, id: string)
    requires RowsFromLog(base, s.disk.tables.messages, s.log) && IndexAgrees(s.disk.tables, LabelsAfter(labels, s.log))
    requires id in s.disk.tables.messages && id !in base
    ensures FirstCommit(s.log, id).Some? && LastCommit(s.log, id).Some? && Matching(s.disk.tables.fts, id) != []
    ensures (Matching(s.disk.tables.fts, id)[0].chatLabel == s.disk.tables.messages[id].ident.chatLabel)
        <==> (FirstCommit(s.log, id).value.ev.chatLabel == LastCommit(s.log, id).value.ev.chatLabel)
  {
    LastLabel(labels, s.log, id);
    FirstIffLast(s.log, id);
    assert RowFromLog(base, s.log, id, s.disk.tables.messages[id]);
  }

  lemma {:induction false} LastLabel(labels: map<string, string>, log: seq<Commit>, id: string)
    requires LastCommit(log, id).Some?
    ensures id in LabelsAfter(labels, log) && LabelsAfter(labels, log)[id] == LastCommit(log, id).value.ev.chatLabel
    decreases |log|
  {
    if log[|log| - 1].id != id {
      LastLabel(labels, log[..|log| - 1], id);
    }
  }
}
