/** Concurrent calls of Write, readers and crashes, one atomic step at a time.

    The live worker and every history-sync goroutine call Write at once. A call is four pieces, and anything
    may happen between them: the key lookup, the first transaction, the file write and its rename, and the
    second transaction. A schedule is any sequence of actions; an action whose turn it is not does nothing. */
module StoreProtocol {
  import opened Text
  import opened Types
  import opened Store
  import MediaPath

  datatype Phase =
    | Looking
    | Keyed(pk: int)
    | Stored(id: string, runId: string)
    | Writing(id: string, runId: string, sent: nat)
    | Placed(id: string, runId: string)
    | Broken(id: string, runId: string)

  datatype Job = Job(ev: Event, path: string, phase: Phase)

  /** One committed first transaction. */
  datatype Commit = Commit(id: string, pk: int, ev: Event, now: int, created: bool, updated: bool)

  /** place is where an event's file goes (FinalPath in the daemon). log, started and hydrations record
      history; surfacing holds the ids that readers, which are processes of their own, have fetched as hydrated and
      not surfaced. */
  datatype Sys = Sys(
    place: Event -> string,
    disk: Disk,
    jobs: map<nat, Job>,
    started: set<Event>,
    log: seq<Commit>,
    hydrations: nat,
    surfacing: set<string>)

  /** Crash is one of the writer's process, and its restart. LoseIndex is what is behind "no such table": the index
      table disappears, and the schema of the next start recreates it empty. */
  datatype Action =
    | Start(j: nat, ev: Event)
    | LookUp(j: nat, fails: bool)
    | StoreText(j: nat, now: int, allowed: int, fault: Fault, fts: FtsOutcome)
    | OpenTmp(j: nat)
    | Append(j: nat, n: nat)
    | PlaceFile(j: nat)
    | GiveUp(j: nat)
    | FinishOK(j: nat, now: int)
    | FinishFailed(j: nat)
    | FinishLost(j: nat)
    | AddGroups(gs: seq<Group>, now: int)
    | FetchHydrated(ids: set<string>)
    | Surface(ids: set<string>, now: int)
    | LoseIndex
    | Crash

  // ---------------------------------------------------------------- the steps

  predicate Unsurfaced(row: Row) {
    row.media.hydratedAt.Some? && row.media.surfacedAt.None?
  }

  /** Whose turn it is. */
  predicate Enabled(s: Sys, a: Action) {
    match a
    case Start(j, ev) => j !in s.jobs && Complete(ev)
    case LookUp(j, _) => j in s.jobs && s.jobs[j].phase.Looking?
    case StoreText(j, _, _, _, _) => j in s.jobs && s.jobs[j].phase.Keyed?
    case OpenTmp(j) => j in s.jobs && s.jobs[j].phase.Stored?
    case Append(j, n) =>
      && j in s.jobs && s.jobs[j].phase.Writing? && MediaPath.Tmp(s.jobs[j].path) in s.disk.files
      && s.jobs[j].phase.sent + n <= |s.jobs[j].ev.mediaBytes|
    case PlaceFile(j) =>
      && j in s.jobs && s.jobs[j].phase.Writing? && MediaPath.Tmp(s.jobs[j].path) in s.disk.files
      && s.jobs[j].phase.sent == |s.jobs[j].ev.mediaBytes|
    case GiveUp(j) => j in s.jobs && (s.jobs[j].phase.Stored? || s.jobs[j].phase.Writing?)
    case FinishOK(j, _) => j in s.jobs && s.jobs[j].phase.Placed?
    case FinishFailed(j) => j in s.jobs && s.jobs[j].phase.Broken?
    case FinishLost(j) => j in s.jobs && (s.jobs[j].phase.Placed? || s.jobs[j].phase.Broken?)
    case AddGroups(_, _) => true
    case FetchHydrated(ids) =>
      forall id | id in ids :: id in s.disk.tables.messages && Unsurfaced(s.disk.tables.messages[id])
    case Surface(ids, _) => ids <= s.surfacing
    case LoseIndex => true
    case Crash => true
  }

  function JobID(s: Sys, j: nat): string
    requires j in s.jobs && s.jobs[j].phase.Keyed?
  {
    MessageID(KeyOfEvent(s.jobs[j].ev), s.jobs[j].phase.pk)
  }

  /** What the first transaction of job j does. */
  function FirstOf(s: Sys, a: Action): FirstOutcome
    requires a.StoreText? && Enabled(s, a)
  {
    FirstTx(s.disk, JobID(s, a.j), s.jobs[a.j].phase.pk, s.jobs[a.j].ev, a.now, a.allowed, a.fault, a.fts)
  }

  function SurfaceRows(messages: map<string, Row>, ids: set<string>, now: int): map<string, Row> {
    map id | id in messages ::
      if id in ids then messages[id].(media := messages[id].media.(surfacedAt := Some(now))) else messages[id]
  }

  function TablesAfter(s: Sys, a: Action): Tables
    requires Enabled(s, a)
  {
    var t := s.disk.tables;
    match a
    case StoreText(_, _, _, _, _) => FirstOf(s, a).disk.tables
    case FinishOK(j, now) => MarkOK(t, s.jobs[j].phase.id, s.jobs[j].phase.runId, s.jobs[j].path, now)
    case FinishFailed(j) => MarkFailed(t, s.jobs[j].phase.id, s.jobs[j].phase.runId)
    case AddGroups(gs, now) => t.(groups := Writer.UpsertGroups(t.groups, gs, now))
    case Surface(ids, now) => t.(messages := SurfaceRows(t.messages, ids, now))
    case LoseIndex => t.(fts := [])
    case _ => t
  }

  /** A write at an offset: what is missing below it reads as zeros. A write of nothing changes nothing. */
  function WriteAt(f: Bytes, at: nat, chunk: Bytes): Bytes {
    if chunk == [] then f
    else
      (if |f| <= at then f + seq(at - |f|, _ => 0 as byte) else f[..at]) + chunk
      + (if at + |chunk| < |f| then f[at + |chunk|..] else [])
  }

  /** Byte by byte: the chunk where it was written, elsewhere what was there, and zeros in between. */
  lemma WriteAtBytes(f: Bytes, at: nat, chunk: Bytes, k: nat)
    requires chunk != []
    ensures |WriteAt(f, at, chunk)| == if at + |chunk| < |f| then |f| else at + |chunk|
    ensures k < |WriteAt(f, at, chunk)| ==>
              WriteAt(f, at, chunk)[k]
              == if at <= k < at + |chunk| then chunk[k - at] else if k < |f| then f[k] else 0
  {
  }

  function FilesAfter(s: Sys, a: Action): map<string, Bytes>
    requires Enabled(s, a)
  {
    var files := s.disk.files;
    match a
    case OpenTmp(j) => files[MediaPath.Tmp(s.jobs[j].path) := []]
    case Append(j, n) =>
      var tmp, sent := MediaPath.Tmp(s.jobs[j].path), s.jobs[j].phase.sent;
      files[tmp := WriteAt(files[tmp], sent, s.jobs[j].ev.mediaBytes[sent..sent + n])]
    case PlaceFile(j) => Rename(files, MediaPath.Tmp(s.jobs[j].path), s.jobs[j].path)
    case _ => files
  }

  function PhaseAfter(s: Sys, j: nat, phase: Phase): map<nat, Job>
    requires j in s.jobs
  {
    s.jobs[j := s.jobs[j].(phase := phase)]
  }

  function JobsAfter(s: Sys, a: Action): map<nat, Job>
    requires Enabled(s, a)
  {
    match a
    case Start(j, ev) => s.jobs[j := Job(ev, s.place(ev), Looking)]
    case LookUp(j, fails) => PhaseAfter(s, j, Keyed(ResolvePK(s.disk.tables.messages, s.jobs[j].ev, fails)))
    case StoreText(j, now, _, _, _) =>
      if FirstOf(s, a).committed && s.jobs[j].ev.mediaBytes != [] then
        PhaseAfter(s, j, Stored(JobID(s, j), RunID(JobID(s, j), now)))
      else s.jobs - {j}
    case OpenTmp(j) => PhaseAfter(s, j, Writing(s.jobs[j].phase.id, s.jobs[j].phase.runId, 0))
    case Append(j, n) => PhaseAfter(s, j, s.jobs[j].phase.(sent := s.jobs[j].phase.sent + n))
    case PlaceFile(j) => PhaseAfter(s, j, Placed(s.jobs[j].phase.id, s.jobs[j].phase.runId))
    case GiveUp(j) => PhaseAfter(s, j, Broken(s.jobs[j].phase.id, s.jobs[j].phase.runId))
    case FinishOK(j, _) => s.jobs - {j}
    case FinishFailed(j) => s.jobs - {j}
    case FinishLost(j) => s.jobs - {j}
    case Crash => map[]
    case _ => s.jobs
  }

  function LogAfter(s: Sys, a: Action): seq<Commit>
    requires Enabled(s, a)
  {
    if a.StoreText? && FirstOf(s, a).committed then
      s.log + [Commit(JobID(s, a.j), s.jobs[a.j].phase.pk, s.jobs[a.j].ev, a.now,
                      FirstOf(s, a).inserted, FirstOf(s, a).updated)]
    else s.log
  }

  function SurfacingAfter(s: Sys, a: Action): set<string>
    requires Enabled(s, a)
  {
    match a
    case FetchHydrated(ids) => s.surfacing + ids
    case _ => s.surfacing
  }

  /** The flag is a field of the writer's process, so a restart clears it. */
  function FlagAfter(s: Sys, a: Action): bool
    requires Enabled(s, a)
  {
    if a.StoreText? then FirstOf(s, a).disk.ftsUnavailable else !a.Crash? && s.disk.ftsUnavailable
  }

  function Next(s: Sys, a: Action): Sys {
    if !Enabled(s, a) then s
    else Sys(
      s.place,
      Disk(TablesAfter(s, a), FilesAfter(s, a), FlagAfter(s, a)),
      JobsAfter(s, a),
      if a.Start? then s.started + {a.ev} else s.started,
      LogAfter(s, a),
      if a.FinishOK? then s.hydrations + 1 else s.hydrations,
      SurfacingAfter(s, a))
  }

  function Exec(s: Sys, schedule: seq<Action>): Sys {
    if schedule == [] then s
    else Next(Exec(s, schedule[..|schedule| - 1]), schedule[|schedule| - 1])
  }

  /** What a crash leaves, whenever it comes: tables and files as they are, and a writer that has begun nothing. */
  lemma CrashLeaves(s: Sys)
    ensures var s' := Next(s, Crash);
            s'.disk == s.disk.(ftsUnavailable := false) && s'.jobs == map[] && s'.surfacing == s.surfacing
  {
  }

  /** Group rows can be written at any time. */
  lemma GroupsCanCome(s: Sys, gs: seq<Group>, now: int)
    ensures Next(s, AddGroups(gs, now)).disk.tables.groups == Writer.UpsertGroups(s.disk.tables.groups, gs, now)
  {
  }

  /** Readers can fetch what is hydrated and not surfaced, and mark what they have fetched. */
  lemma ReadersMark(s: Sys, ids: set<string>, now: int)
    requires ids <= s.disk.tables.messages.Keys
    ensures (forall id | id in ids :: Unsurfaced(s.disk.tables.messages[id])) ==>
              Next(s, FetchHydrated(ids)).surfacing == s.surfacing + ids
    ensures ids <= s.surfacing ==>
              Next(s, Surface(ids, now)).disk.tables.messages == SurfaceRows(s.disk.tables.messages, ids, now)
    ensures forall id | id in ids :: SurfaceRows(s.disk.tables.messages, ids, now)[id].media.surfacedAt == Some(now)
  {
  }

  // ---------------------------------------------------------------- rows persist

  /** No step removes a row or touches what its first insert decided. */
  predicate Persists(m: map<string, Row>, m': map<string, Row>) {
    forall id | id in m :: id in m' && m'[id].ident == m[id].ident
  }

  lemma RowsPersist(s: Sys, a: Action)
    ensures Persists(s.disk.tables.messages, Next(s, a).disk.tables.messages)
  {
    if Enabled(s, a) {
      assert Next(s, a).disk.tables == TablesAfter(s, a);
    }
  }

  predicate Commits(s: Sys, a: Action) {
    a.StoreText? && Enabled(s, a) && FirstOf(s, a).committed
  }

  /** What history remembers of a commit. */
  function CommitOf(s: Sys, a: Action): Commit
    requires Commits(s, a)
  {
    var id, messages := JobID(s, a.j), s.disk.tables.messages;
    Commit(id, s.jobs[a.j].phase.pk, s.jobs[a.j].ev, a.now, id !in messages, UpdatedFlag(messages, id, s.jobs[a.j].ev))
  }

  /** What a committed first transaction leaves behind. */
  lemma CommitEffect(s: Sys, a: Action)
    requires Commits(s, a)
    ensures var ev, pk, id := s.jobs[a.j].ev, s.jobs[a.j].phase.pk, JobID(s, a.j);
            var t, t' := s.disk.tables, Next(s, a).disk.tables;
            && t'.messages == Upsert(t.messages, id, ev, pk, a.now)
            && t'.runs == RecordRun(t.runs, id, a.now, InsertedFlag(t.messages, id), UpdatedFlag(t.messages, id, ev),
                                    ev.mediaBytes != [], a.allowed)
            && t'.fts == RefreshFts(t.fts, s.disk.ftsUnavailable, id, ev, a.fts).fts
            && Next(s, a).disk.ftsUnavailable == RefreshFts(t.fts, s.disk.ftsUnavailable, id, ev, a.fts).unavailable
            && Next(s, a).log == s.log + [CommitOf(s, a)]
  {
  }

  /** Every other step keeps the set of rows, their contents and the log, and the index unless it is lost. */
  lemma QuietEffect(s: Sys, a: Action)
    requires !Commits(s, a)
    ensures var m, m' := s.disk.tables.messages, Next(s, a).disk.tables.messages;
            m'.Keys == m.Keys && forall id | id in m :: m'[id].ident == m[id].ident && m'[id].content == m[id].content
    ensures Next(s, a).log == s.log
    ensures Next(s, a).disk.tables.fts == if a.LoseIndex? then [] else s.disk.tables.fts
    ensures s.disk.ftsUnavailable && !a.Crash? ==> Next(s, a).disk.ftsUnavailable
  {
    if Enabled(s, a) {
      assert Next(s, a).disk.tables == TablesAfter(s, a);
    }
  }

  /** Where a job of the next state comes from. */
  lemma JobOrigin(s: Sys, a: Action, j: nat)
    requires j in Next(s, a).jobs
    ensures var job := Next(s, a).jobs[j];
            if a.Start? && Enabled(s, a) && a.j == j then job == Job(a.ev, s.place(a.ev), Looking)
            else
              && j in s.jobs && job.ev == s.jobs[j].ev && job.path == s.jobs[j].path
              && (job.phase.Keyed? ==>
                    job.phase == s.jobs[j].phase
                    || (a.LookUp? && a.j == j && job.phase.pk == ResolvePK(s.disk.tables.messages, job.ev, a.fails)))
  {
  }
}
