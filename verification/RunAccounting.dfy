/** The ingest-run counters: summed over all run rows they count exactly what happened, although writes of one
    message within one second share a row and calls interleave. */
module RunAccounting {
  import opened Text
  import opened Types
  import opened Store
  import opened StoreProtocol

  datatype Column = Scanned | Inserted | Updated | Skipped | Copied

  function Value(r: Run, c: Column): int {
    match c
    case Scanned => r.scanned
    case Inserted => r.inserted
    case Updated => r.updated
    case Skipped => r.skipped
    case Copied => r.mediaCopied
  }

  predicate Balanced(r: Run) {
    r.scanned == r.inserted + r.updated + r.skipped
  }

  lemma SomeKey(runs: map<string, Run>)
    ensures runs == map[] || exists k: string :: k in runs
  {
    if !exists k: string :: k in runs {
      assert runs == map[];
    }
  }

  /** select sum(column) from whatsapp_ingest_runs */
  ghost function Total(runs: map<string, Run>, c: Column): int
    decreases |runs|
  {
    if runs == map[] then 0
    else
      SomeKey(runs);
      var k: string :| k in runs;
      Value(runs[k], c) + Total(runs - {k}, c)
  }

  lemma {:induction false} TotalSplit(runs: map<string, Run>, c: Column, k: string)
    requires k in runs
    ensures Total(runs, c) == Value(runs[k], c) + Total(runs - {k}, c)
    decreases |runs|
  {
    SomeKey(runs);
    var first: string :| first in runs && Total(runs, c) == Value(runs[first], c) + Total(runs - {first}, c);
    if first != k {
      TotalSplit(runs - {first}, c, k);
      TotalSplit(runs - {k}, c, first);
      assert runs - {first} - {k} == runs - {k} - {first};
    }
  }

  lemma TotalUpdate(runs: map<string, Run>, k: string, r: Run, c: Column)
    ensures Total(runs[k := r], c) == Total(runs, c) - (if k in runs then Value(runs[k], c) else 0) + Value(r, c)
  {
    TotalSplit(runs[k := r], c, k);
    assert runs[k := r] - {k} == runs - {k};
    if k in runs {
      TotalSplit(runs, c, k);
    } else {
      assert runs - {k} == runs;
    }
  }

  predicate HasRunRow(s: Sys, j: nat)
    requires j in s.jobs
  {
    var phase := s.jobs[j].phase;
    phase.Stored? || phase.Writing? || phase.Placed? ==> phase.runId in s.disk.tables.runs
  }

  /** What a commit adds to a column. */
  function Adds(c: Commit, col: Column): int {
    match col
    case Scanned => 1
    case Inserted => if c.created then 1 else 0
    case Updated => if c.updated && !c.created then 1 else 0
    case Skipped => if !c.created && !c.updated then 1 else 0
    case Copied => 0
  }

  /** What all commits of a log add to it. */
  function Added(log: seq<Commit>, col: Column): int {
    if log == [] then 0 else Added(log[..|log| - 1], col) + Adds(log[|log| - 1], col)
  }

  lemma AddedOne(log: seq<Commit>, c: Commit, col: Column)
    ensures Added(log + [c], col) == Added(log, col) + Adds(c, col)
  {
    assert (log + [c])[..|log + [c]| - 1] == log;
  }

  lemma {:induction false} ScannedAll(log: seq<Commit>)
    ensures Added(log, Scanned) == |log|
  {
    if log != [] {
      ScannedAll(log[..|log| - 1]);
    }
  }

  /** Every run row is balanced, and a call past its first transaction has its run row. */
  ghost predicate Inv(s: Sys) {
    && (forall k | k in s.disk.tables.runs :: Balanced(s.disk.tables.runs[k]))
    && (forall j | j in s.jobs :: HasRunRow(s, j))
  }

  ghost predicate Grew(s: Sys, s': Sys) {
    var t, t' := s.disk.tables, s'.disk.tables;
    && (forall c | c != Copied :: Total(t'.runs, c) - Total(t.runs, c) == Added(s'.log, c) - Added(s.log, c))
    && Total(t'.runs, Inserted) - Total(t.runs, Inserted) == |t'.messages| - |t.messages|
    && Total(t'.runs, Copied) - Total(t.runs, Copied) == s'.hydrations - s.hydrations
    && t.runs.Keys <= t'.runs.Keys
  }

  function ValueAt(runs: map<string, Run>, k: string, c: Column): int {
    if k in runs then Value(runs[k], c) else 0
  }

  predicate AllBalanced(runs: map<string, Run>) {
    forall k | k in runs :: Balanced(runs[k])
  }

  /** One run row changes. */
  lemma OneRunGrows(runs: map<string, Run>, runs': map<string, Run>, k: string)
    requires k in runs' && runs' == runs[k := runs'[k]]
    ensures forall c :: Total(runs', c) == Total(runs, c) - ValueAt(runs, k, c) + ValueAt(runs', k, c)
  {
    forall c ensures Total(runs', c) == Total(runs, c) - ValueAt(runs, k, c) + ValueAt(runs', k, c) {
      TotalUpdate(runs, k, runs'[k], c);
    }
  }

  /** A commit adds to its own run row, and to no other. */
  lemma RecordAdds(runs: map<string, Run>, c: Commit, pending: bool, allowed: int, col: Column)
    ensures var runs' := RecordRun(runs, c.id, c.now, c.created, c.updated, pending, allowed);
            forall k ::
              ValueAt(runs', k, col) == ValueAt(runs, k, col) + if k == RunID(c.id, c.now) then Adds(c, col) else 0
  {
  }

  lemma RecordGrows(runs: map<string, Run>, c: Commit, pending: bool, allowed: int)
    requires forall k | k in runs :: Balanced(runs[k])
    ensures var runs' := RecordRun(runs, c.id, c.now, c.created, c.updated, pending, allowed);
            && (forall col :: Total(runs', col) == Total(runs, col) + Adds(c, col))
            && runs.Keys <= runs'.Keys
            && forall k | k in runs' :: Balanced(runs'[k])
  {
    var runs' := RecordRun(runs, c.id, c.now, c.created, c.updated, pending, allowed);
    OneRunGrows(runs, runs', RunID(c.id, c.now));
    forall col ensures Total(runs', col) == Total(runs, col) + Adds(c, col) {
      RecordAdds(runs, c, pending, allowed, col);
    }
  }

  lemma UpsertGrows(messages: map<string, Row>, id: string, ev: Event, pk: int, now: int)
    ensures |Upsert(messages, id, ev, pk, now)| == |messages| + if id in messages then 0 else 1
  {
    var after := Upsert(messages, id, ev, pk, now);
    assert after.Keys == messages.Keys + {id};
    assert |after| == |after.Keys| && |messages| == |messages.Keys|;
    if id in messages {
      assert messages.Keys + {id} == messages.Keys;
    }
  }

  lemma CommitGrows(s: Sys, a: Action)
    requires Commits(s, a) && Inv(s)
    ensures Grew(s, Next(s, a)) && AllBalanced(Next(s, a).disk.tables.runs)
  {
    CommitEffect(s, a);
    var id, ev, t := JobID(s, a.j), s.jobs[a.j].ev, s.disk.tables;
    RecordGrows(t.runs, CommitOf(s, a), ev.mediaBytes != [], a.allowed);
    forall c ensures Added(Next(s, a).log, c) == Added(s.log, c) + Adds(CommitOf(s, a), c) {
      AddedOne(s.log, CommitOf(s, a), c);
    }
    UpsertGrows(t.messages, id, ev, s.jobs[a.j].phase.pk, a.now);
  }

  lemma SameSize(m: map<string, Row>, m': map<string, Row>)
    requires m.Keys == m'.Keys
    ensures |m| == |m'|
  {
    assert |m| == |m.Keys| && |m'| == |m'.Keys|;
  }

  lemma MarkOKGrows(t: Tables, id: string, runId: string, path: string, now: int)
    requires (forall k | k in t.runs :: Balanced(t.runs[k])) && runId in t.runs
    ensures var runs' := MarkOK(t, id, runId, path, now).runs;
            && (forall c :: Total(runs', c) == Total(t.runs, c) + if c == Copied then 1 else 0)
            && runs'.Keys == t.runs.Keys && forall k | k in runs' :: Balanced(runs'[k])
  {
    OneRunGrows(t.runs, MarkOK(t, id, runId, path, now).runs, runId);
  }

  lemma MarkFailedGrows(t: Tables, id: string, runId: string)
    requires forall k | k in t.runs :: Balanced(t.runs[k])
    ensures var runs' := MarkFailed(t, id, runId).runs;
            && (forall c :: Total(runs', c) == Total(t.runs, c))
            && runs'.Keys == t.runs.Keys && forall k | k in runs' :: Balanced(runs'[k])
  {
    if runId in t.runs {
      OneRunGrows(t.runs, MarkFailed(t, id, runId).runs, runId);
    }
  }

  lemma QuietGrows(s: Sys, a: Action)
    requires !Commits(s, a) && Inv(s)
    ensures Grew(s, Next(s, a)) && AllBalanced(Next(s, a).disk.tables.runs)
  {
    QuietEffect(s, a);
    SameSize(s.disk.tables.messages, Next(s, a).disk.tables.messages);
    if Enabled(s, a) {
      assert Next(s, a).disk.tables == TablesAfter(s, a);
      if a.FinishOK? {
        assert HasRunRow(s, a.j);
        MarkOKGrows(s.disk.tables, s.jobs[a.j].phase.id, s.jobs[a.j].phase.runId, s.jobs[a.j].path, a.now);
      } else if a.FinishFailed? {
        MarkFailedGrows(s.disk.tables, s.jobs[a.j].phase.id, s.jobs[a.j].phase.runId);
      }
    }
  }

  lemma StepGrows(s: Sys, a: Action)
    requires Inv(s)
    ensures Inv(Next(s, a)) && Grew(s, Next(s, a))
  {
    var s' := Next(s, a);
    if Commits(s, a) {
      CommitGrows(s, a);
      CommitEffect(s, a);
    } else {
      QuietGrows(s, a);
    }
    assert s.disk.tables.runs.Keys <= s'.disk.tables.runs.Keys;
    forall j | j in s'.jobs ensures HasRunRow(s', j) {
      RunRowExists(s, a, j);
    }
  }

  lemma RunRowExists(s: Sys, a: Action, j: nat)
    requires Inv(s) && s.disk.tables.runs.Keys <= Next(s, a).disk.tables.runs.Keys
    requires Commits(s, a) ==> RunID(JobID(s, a.j), a.now) in Next(s, a).disk.tables.runs
    requires j in Next(s, a).jobs
    ensures HasRunRow(Next(s, a), j)
  {
    JobOrigin(s, a, j);
    if Enabled(s, a) {
      assert Next(s, a).jobs == JobsAfter(s, a);
    }
  }

  /** The main result: over any schedule every run row stays balanced; the growth of scanned is the number of committed
      first transactions, that of inserted the number of rows created, those of updated and skipped the numbers of
      commits that changed a row and that did not, and that of media_copied the number of hydrations. */
  lemma {:induction false} CountersConserved(s: Sys, schedule: seq<Action>)
    requires Inv(s)
    ensures Inv(Exec(s, schedule)) && Grew(s, Exec(s, schedule))
    ensures Total(Exec(s, schedule).disk.tables.runs, Scanned) - Total(s.disk.tables.runs, Scanned)
         == |Exec(s, schedule).log| - |s.log|
  {
    ScannedAll(s.log);
    ScannedAll(Exec(s, schedule).log);
    if schedule != [] {
      CountersConserved(s, schedule[..|schedule| - 1]);
      StepGrows(Exec(s, schedule[..|schedule| - 1]), schedule[|schedule| - 1]);
    }
  }

  // ---------------------------------------------------------------- one run row

  /** What the commits of one run add to a column. */
  function AddedTo(log: seq<Commit>, k: string, col: Column): int {
    if log == [] then 0
    else
      var c := log[|log| - 1];
      AddedTo(log[..|log| - 1], k, col) + if RunID(c.id, c.now) == k then Adds(c, col) else 0
  }

  lemma AddedToOne(log: seq<Commit>, c: Commit, k: string, col: Column)
    ensures AddedTo(log + [c], k, col) == AddedTo(log, k, col) + if RunID(c.id, c.now) == k then Adds(c, col) else 0
  {
    assert (log + [c])[..|log + [c]| - 1] == log;
  }

  lemma StepAddsTo(s: Sys, a: Action, k: string, col: Column)
    requires col != Copied
    ensures ValueAt(Next(s, a).disk.tables.runs, k, col) - ValueAt(s.disk.tables.runs, k, col)
         == AddedTo(Next(s, a).log, k, col) - AddedTo(s.log, k, col)
  {
    if Commits(s, a) {
      CommitEffect(s, a);
      RecordAdds(s.disk.tables.runs, CommitOf(s, a), s.jobs[a.j].ev.mediaBytes != [], a.allowed, col);
      AddedToOne(s.log, CommitOf(s, a), k, col);
    } else {
      QuietEffect(s, a);
      if Enabled(s, a) {
        assert Next(s, a).disk.tables == TablesAfter(s, a);
      }
    }
  }

  /** However calls interleave, every run row counts the commits of its own message and second, and no others. */
  lemma {:induction false} RunRowCounts(s: Sys, schedule: seq<Action>, k: string, col: Column)
    requires col != Copied
    ensures ValueAt(Exec(s, schedule).disk.tables.runs, k, col) - ValueAt(s.disk.tables.runs, k, col)
         == AddedTo(Exec(s, schedule).log, k, col) - AddedTo(s.log, k, col)
  {
    if schedule != [] {
      RunRowCounts(s, schedule[..|schedule| - 1], k, col);
      StepAddsTo(Exec(s, schedule[..|schedule| - 1]), schedule[|schedule| - 1], k, col);
    }
  }

  /** A run row that the daemon made: real, finished in the second it was started in, and named after it. */
  ghost predicate MadeByDaemon(k: string, r: Run) {
    && r.dryRun == false && r.finishedAt == Some(r.startedAt) && (r.status == "ok" || r.status == "pending")
    && exists id :: k == RunID(id, r.startedAt)
  }

  ghost predicate AllMadeByDaemon(runs: map<string, Run>) {
    forall k | k in runs :: MadeByDaemon(k, runs[k])
  }

  lemma RecordMade(runs: map<string, Run>, id: string, now: int, inserted: bool, updated: bool, pending: bool,
                   allowed: int)
    requires AllMadeByDaemon(runs)
    ensures AllMadeByDaemon(RecordRun(runs, id, now, inserted, updated, pending, allowed))
  {
    var k := RunID(id, now);
    if k in runs {
      var id' :| k == RunID(id', runs[k].startedAt);
      RunIDInjective(id, now, id', runs[k].startedAt);
    }
  }

  lemma StepMade(s: Sys, a: Action)
    requires AllMadeByDaemon(s.disk.tables.runs)
    ensures AllMadeByDaemon(Next(s, a).disk.tables.runs)
  {
    if Commits(s, a) {
      CommitEffect(s, a);
      var c := CommitOf(s, a);
      RecordMade(s.disk.tables.runs, c.id, c.now, c.created, c.updated, s.jobs[a.j].ev.mediaBytes != [], a.allowed);
    } else if Enabled(s, a) {
      assert Next(s, a).disk.tables == TablesAfter(s, a);
    }
  }

  /** No schedule of the daemon makes a dry run, or a run without a finish time. */
  lemma {:induction false} RunsAreReal(s: Sys, schedule: seq<Action>)
    requires AllMadeByDaemon(s.disk.tables.runs)
    ensures AllMadeByDaemon(Exec(s, schedule).disk.tables.runs)
  {
    if schedule != [] {
      RunsAreReal(s, schedule[..|schedule| - 1]);
      StepMade(Exec(s, schedule[..|schedule| - 1]), schedule[|schedule| - 1]);
    }
  }

  /** The run row right after a commit: pending exactly when a file is still to be written, and where it is new, with
      the number of allowed chats. */
  lemma RunRowOfCommit(s: Sys, a: Action)
    requires Commits(s, a)
    ensures var k, runs, runs' := RunID(JobID(s, a.j), a.now), s.disk.tables.runs, Next(s, a).disk.tables.runs;
            && k in runs' && runs'[k].finishedAt == Some(a.now)
            && (runs'[k].status == "pending" <==> s.jobs[a.j].ev.mediaBytes != [])
            && (runs'[k].status == "ok" <==> s.jobs[a.j].ev.mediaBytes == [])
            && (k !in runs ==>
                  runs'[k].startedAt == a.now && runs'[k].dryRun == false && runs'[k].allowedGroupCount == a.allowed
                  && runs'[k].mediaCopied == 0)
  {
    CommitEffect(s, a);
  }

  /** What a run row was started with stays. */
  lemma {:induction false} RunKeepsItsStart(s: Sys, schedule: seq<Action>, k: string)
    requires k in s.disk.tables.runs
    ensures var r, runs' := s.disk.tables.runs[k], Exec(s, schedule).disk.tables.runs;
            && k in runs' && runs'[k].startedAt == r.startedAt && runs'[k].dryRun == r.dryRun
            && runs'[k].allowedGroupCount == r.allowedGroupCount
  {
    if schedule != [] {
      RunKeepsItsStart(s, schedule[..|schedule| - 1], k);
      StepKeepsStart(Exec(s, schedule[..|schedule| - 1]), schedule[|schedule| - 1], k);
    }
  }

  lemma StepKeepsStart(s: Sys, a: Action, k: string)
    requires k in s.disk.tables.runs
    ensures var r, runs' := s.disk.tables.runs[k], Next(s, a).disk.tables.runs;
            && k in runs' && runs'[k].startedAt == r.startedAt && runs'[k].dryRun == r.dryRun
            && runs'[k].allowedGroupCount == r.allowedGroupCount
  {
    if Commits(s, a) {
      CommitEffect(s, a);
    } else if Enabled(s, a) {
      assert Next(s, a).disk.tables == TablesAfter(s, a);
    }
  }

  // ---------------------------------------------------------------- rows and inserts

  /** The commits that reported a new row. */
  function Creations(log: seq<Commit>): nat {
    if log == [] then 0 else Creations(log[..|log| - 1]) + if log[|log| - 1].created then 1 else 0
  }

  lemma StepCreates(s: Sys, a: Action)
    ensures |Next(s, a).disk.tables.messages| - |s.disk.tables.messages|
         == Creations(Next(s, a).log) - Creations(s.log)
  {
    var s' := Next(s, a);
    if Commits(s, a) {
      CommitEffect(s, a);
      assert s'.log[..|s'.log| - 1] == s.log;
      UpsertGrows(s.disk.tables.messages, JobID(s, a.j), s.jobs[a.j].ev, s.jobs[a.j].phase.pk, a.now);
    } else {
      QuietEffect(s, a);
      SameSize(s.disk.tables.messages, s'.disk.tables.messages);
    }
  }

  /** However calls interleave, no row is reported as inserted twice, and none is created without being reported: the
      table grows by exactly the number of calls whose first transaction reported an insert. */
  lemma {:induction false} RowsAreCreations(s: Sys, schedule: seq<Action>)
    ensures |Exec(s, schedule).disk.tables.messages| - |s.disk.tables.messages|
         == Creations(Exec(s, schedule).log) - Creations(s.log)
  {
    if schedule != [] {
      RowsAreCreations(s, schedule[..|schedule| - 1]);
      StepCreates(Exec(s, schedule[..|schedule| - 1]), schedule[|schedule| - 1]);
    }
  }
}
