/** Runs of one tenant's reader, interleaved with the writer, step by step under a clock that never goes back. */
module UnseenProtocol {
  import opened Text
  import opened Types
  import opened Output
  import opened Unseen
  import StoreProtocol

  /** Where the current run is. now is the time it read first, msgs is what it printed. */
  datatype Phase =
    | Idle
    | Started(now: int)
    | Cut(now: int, jids: seq<string>, cutoff: int)
    | Shown(now: int, msgs: seq<Msg>)
    | Advancing(now: int, msgs: seq<Msg>, ingest: int)
    | Deciding(now: int, msgs: seq<Msg>, ingest: int, next: int)
    | Marking(now: int, msgs: seq<Msg>)

  /** printed collects the ids of everything printed so far. */
  datatype World = World(
    clock: int,
    messages: map<string, Row>,
    runs: map<string, Run>,
    file: StateFile,
    phase: Phase,
    printed: set<string>)

  datatype Action =
    | Tick(to: int)
    | StoreWrites(messages: map<string, Row>, runs: map<string, Run>)
    | Begin
    | ReadCutoff(jids: seq<string>, sinceHours: Option<real>)
    | Fetch(answer: seq<string>)
    | ReadIngest
    | ReadPrior
    | WriteCursor
    | Mark
    | Stop

  predicate Enabled(w: World, a: Action) {
    match a
    case Tick(to) => w.clock <= to <= INT64_MAX
    case StoreWrites(messages, _) => StoreProtocol.Persists(w.messages, messages)
    case Begin => w.phase.Idle?
    case ReadCutoff(_, sinceHours) => w.phase.Started? && CutoffFor(w.phase.now, w.file, sinceHours).Some?
    case Fetch(answer) => w.phase.Cut? && IsAnswer(w.messages, w.phase.jids, w.phase.cutoff, answer)
    case ReadIngest => w.phase.Shown? && LatestOK(w.runs).Some?
    case ReadPrior => w.phase.Advancing? && PriorCursor(w.file).Some?
    case WriteCursor => w.phase.Deciding?
    case Mark => w.phase.Marking?
    case Stop => true
  }

  /** One step. Stop is the end of a run wherever it comes: --no-advance, a warning, an error, a crash. */
  function Next(w: World, a: Action): World {
    if !Enabled(w, a) then w
    else match a
      case Tick(to) => w.(clock := to)
      case StoreWrites(messages, runs) => w.(messages := messages, runs := runs)
      case Begin => w.(phase := Started(w.clock))
      case ReadCutoff(jids, sinceHours) =>
        w.(phase := Cut(w.phase.now, jids, CutoffFor(w.phase.now, w.file, sinceHours).value))
      case Fetch(answer) =>
        var msgs := Selected(w.messages, answer);
        w.(phase := Shown(w.phase.now, msgs), printed := w.printed + set m | m in msgs :: m.id)
      case ReadIngest => w.(phase := Advancing(w.phase.now, w.phase.msgs, LatestOK(w.runs).value))
      case ReadPrior =>
        var next := NewCursor(w.phase.now, w.phase.ingest, PriorCursor(w.file).value);
        w.(phase := if next.Some? then Deciding(w.phase.now, w.phase.msgs, w.phase.ingest, next.value)
                    else Marking(w.phase.now, w.phase.msgs))
      case WriteCursor =>
        w.(file := Holding(FormatInt(w.phase.next)), phase := Marking(w.phase.now, w.phase.msgs))
      case Mark =>
        w.(messages := StoreProtocol.SurfaceRows(w.messages, MarkedIds(w.phase.msgs), w.phase.now), phase := Idle)
      case Stop => w.(phase := Idle)
  }

  function Exec(w: World, schedule: seq<Action>): World {
    if schedule == [] then w
    else Next(Exec(w, schedule[..|schedule| - 1]), schedule[|schedule| - 1])
  }

  // ---------------------------------------------------------------- the cursor

  /** The file holds a number, not after now; the lowest 1800 values of int64 would wrap. */
  predicate SoundCursor(w: World) {
    && CursorIn(w.file).Some?
    && INT64_MIN + OVERLAP <= CursorIn(w.file).value <= w.clock <= INT64_MAX
  }

  function Cursor(w: World): int
    requires SoundCursor(w)
  {
    CursorIn(w.file).value
  }

  ghost predicate Inv(w: World) {
    && SoundCursor(w)
    && (!w.phase.Idle? ==> Cursor(w) <= w.phase.now <= w.clock)
    && (w.phase.Deciding? ==> Cursor(w) <= w.phase.next <= w.phase.now && w.phase.next <= w.phase.ingest - MARGIN)
  }

  /** The cursor never goes back; it only moves when a run writes it, and then to a value that is not after now
      and not after the margin before the successful ingest that the run read. */
  lemma CursorStep(w: World, a: Action)
    requires Inv(w)
    ensures Inv(Next(w, a))
    ensures Cursor(w) <= Cursor(Next(w, a))
    ensures Cursor(Next(w, a)) != Cursor(w) ==>
              && a.WriteCursor? && w.phase.Deciding?
              && Cursor(Next(w, a)) <= w.phase.now <= w.clock && Cursor(Next(w, a)) <= w.phase.ingest - MARGIN
  {
    if Enabled(w, a) {
      if a.WriteCursor? {
        WrittenCursorReadsBack(w.phase.next);
      }
      if a.ReadPrior? {
        CursorBounds(w.phase.now, w.phase.ingest, Cursor(w));
      }
    }
  }

  lemma {:induction false} CursorNeverGoesBack(w: World, schedule: seq<Action>)
    requires Inv(w)
    ensures Inv(Exec(w, schedule)) && Cursor(w) <= Cursor(Exec(w, schedule))
  {
    if schedule != [] {
      CursorNeverGoesBack(w, schedule[..|schedule| - 1]);
      CursorStep(Exec(w, schedule[..|schedule| - 1]), schedule[|schedule| - 1]);
    }
  }

  // ---------------------------------------------------------------- no missed message

  /** A cutoff is safe when it reaches back as far as that of a default run: before everything, or the overlap before
      the cursor. */
  predicate SafeStep(w: World, a: Action) {
    a.ReadCutoff? && Enabled(w, a) ==>
      var cutoff := CutoffFor(w.phase.now, w.file, a.sinceHours).value;
      cutoff <= 0 || (CursorIn(w.file).Some? && cutoff <= CursorIn(w.file).value - OVERLAP)
  }

  ghost predicate SafeSchedule(w: World, schedule: seq<Action>) {
    forall i | 0 <= i < |schedule| :: SafeStep(Exec(w, schedule[..i]), schedule[i])
  }

  /** Default runs are safe, and so are runs over everything. */
  lemma DefaultIsSafe(w: World, a: Action)
    requires SoundCursor(w) && (a.ReadCutoff? ==> a.sinceHours == None || a.sinceHours == Some(0.0))
    ensures SafeStep(w, a)
  {
    if a.ReadCutoff? && a.sinceHours.None? {
      DefaultCutoffIs(0, w.file);
    }
  }

  lemma SafeFront(w: World, schedule: seq<Action>)
    requires SafeSchedule(w, schedule) && schedule != []
    ensures SafeSchedule(w, schedule[..|schedule| - 1])
    ensures SafeStep(Exec(w, schedule[..|schedule| - 1]), schedule[|schedule| - 1])
  {
    var front := schedule[..|schedule| - 1];
    forall i | 0 <= i < |front| ensures SafeStep(Exec(w, front[..i]), front[i]) {
      assert front[..i] == schedule[..i] && front[i] == schedule[i];
    }
  }

  /** As long as nothing was fetched since time c, neither the cursor nor anything that a running reader may
      still write lies after c. */
  ghost predicate NotPassed(w: World, c: int) {
    && Inv(w)
    && Cursor(w) <= c
    && (w.phase.Cut? ==> w.phase.cutoff <= 0 || w.phase.cutoff <= c - OVERLAP)
    && (w.phase.Shown? || w.phase.Advancing? || w.phase.Deciding? ==> w.phase.now <= c)
  }

  /** The cutoff of a run that has not fetched yet lies before the overlap of the cursor. */
  ghost predicate CutIsSafe(w: World) {
    SoundCursor(w) && (w.phase.Cut? ==> w.phase.cutoff <= 0 || w.phase.cutoff <= Cursor(w) - OVERLAP)
  }

  lemma CutStaysSafe(w: World, a: Action)
    requires Inv(w) && CutIsSafe(w) && SafeStep(w, a)
    ensures Inv(Next(w, a)) && CutIsSafe(Next(w, a))
  {
    CursorStep(w, a);
  }

  lemma {:induction false} CutAlwaysSafe(w: World, schedule: seq<Action>)
    requires Inv(w) && CutIsSafe(w) && SafeSchedule(w, schedule)
    ensures Inv(Exec(w, schedule)) && CutIsSafe(Exec(w, schedule))
  {
    if schedule != [] {
      SafeFront(w, schedule);
      CutAlwaysSafe(w, schedule[..|schedule| - 1]);
      CutStaysSafe(Exec(w, schedule[..|schedule| - 1]), schedule[|schedule| - 1]);
    }
  }

  lemma StillNotPassed(w: World, a: Action, c: int)
    requires NotPassed(w, c) && SafeStep(w, a) && !a.Fetch?
    ensures NotPassed(Next(w, a), c)
  {
    CursorStep(w, a);
  }

  lemma {:induction false} NotPassedUntilFetch(w: World, schedule: seq<Action>, c: int)
    requires NotPassed(w, c) && SafeSchedule(w, schedule) && forall a | a in schedule :: !a.Fetch?
    ensures NotPassed(Exec(w, schedule), c)
  {
    if schedule != [] {
      SafeFront(w, schedule);
      NotPassedUntilFetch(w, schedule[..|schedule| - 1], c);
      StillNotPassed(Exec(w, schedule[..|schedule| - 1]), schedule[|schedule| - 1], c);
    }
  }

  lemma {:induction false} RowSurvives(w: World, schedule: seq<Action>, id: string)
    requires id in w.messages
    ensures id in Exec(w, schedule).messages && Exec(w, schedule).messages[id].ident == w.messages[id].ident
    decreases |schedule|
  {
    if schedule != [] {
      RowSurvives(w, schedule[..|schedule| - 1], id);
    }
  }

  /** No missed message. Take any history of runs with safe cutoffs and writer steps, a step that commits a new row, any
      further steps without a fetch, and then a fetch. If the row was committed at most the overlap after its time
      stamp, is not the account's own, and its chat is visible to that run, the run prints it, unless its type is one
      that is never printed. */
  lemma NoMissedMessage(w: World, before: seq<Action>, commit: Action, between: seq<Action>, fetch: Action, id: string)
    requires Inv(w) && w.phase.Idle? && SafeSchedule(w, before)
    requires SafeSchedule(Next(Exec(w, before), commit), between) && forall a | a in between :: !a.Fetch?
    requires var w1 := Exec(w, before);
             var w2 := Next(w1, commit);
             var w3 := Exec(w2, between);
             && commit.StoreWrites? && id !in w1.messages && id in w2.messages
             && fetch.Fetch? && Enabled(w3, fetch)
             && id in w3.messages && w3.messages[id].ident.chatJID in w3.phase.jids
             && !w2.messages[id].ident.fromMe
             && 0 <= w2.messages[id].ident.ts && w1.clock <= w2.messages[id].ident.ts + OVERLAP
             && !Skipped(w3.messages[id])
    ensures var w3 := Exec(Next(Exec(w, before), commit), between);
            var w4 := Next(w3, fetch);
            w4.phase.Shown? && Prints(w4.phase.msgs, id) && id in w4.printed
  {
    CutAlwaysSafe(w, before);
    var w1 := Exec(w, before);
    var w2 := Next(w1, commit);
    assert NotPassed(w2, w1.clock);
    NotPassedUntilFetch(w2, between, w1.clock);
    RowSurvives(w2, between, id);
    var w3 := Exec(w2, between);
    PrintedExactly(w3.messages, w3.phase.jids, w3.phase.cutoff, fetch.answer, id);
  }

  /** The time stamp must not be negative: for a row before 1970 with the same timing, the cutoff is clamped to zero
      and leaves the row out. */
  lemma NegativeTimeIsMissed(w: World, row: Row, jids: seq<string>)
    requires SoundCursor(w) && w.phase.Started? && Cursor(w) <= row.ident.ts + OVERLAP
    requires row.ident.ts < 0 && !StoreProtocol.Unsurfaced(row)
    ensures CutoffFor(w.phase.now, w.file, None) == Some(0) && !Qualifies(row, jids, 0)
  {
    DefaultCutoffIs(w.phase.now, w.file);
  }

  // ---------------------------------------------------------------- whole runs

  lemma ExecAppend(w: World, schedule: seq<Action>, a: Action)
    ensures Exec(w, schedule + [a]) == Next(Exec(w, schedule), a)
  {
    var longer := schedule + [a];
    assert longer[..|longer| - 1] == schedule;
  }

  function Ids(msgs: seq<Msg>): set<string> {
    set m | m in msgs :: m.id
  }

  /** The steps of an undisturbed run. */
  function Path(file: StateFile, runs: map<string, Run>, e: RunEnv): seq<Action> {
    if !Queries(file, e) || e.failQuery then [Begin, Stop]
    else
      var shown := [Begin] + [ReadCutoff(e.jids.value, e.sinceHours)] + [Fetch(e.answer)];
      if !Decides(file, runs, e) then shown + [Stop]
      else
        var decided := shown + [ReadIngest] + [ReadPrior];
        if !Marks(file, runs, e) then decided + [Stop]
        else
          (if Advance(file, runs, e).Some? then decided + [WriteCursor] else decided)
          + [if e.failMark then Stop else Mark]
  }

  /** The world right after the output. */
  function AfterOutput(w: World, e: RunEnv): World
    requires forall id | id in e.answer :: id in w.messages
  {
    var msgs := Selected(w.messages, e.answer);
    w.(phase := Shown(e.now, msgs), printed := w.printed + Ids(msgs))
  }

  lemma OutputSteps(w: World, e: RunEnv)
    requires w.phase.Idle? && w.clock == e.now && Queries(w.file, e) && Answered(w.file, w.messages, e)
    ensures Exec(w, [Begin] + [ReadCutoff(e.jids.value, e.sinceHours)] + [Fetch(e.answer)]) == AfterOutput(w, e)
  {
    var begin, cut := [Begin], ReadCutoff(e.jids.value, e.sinceHours);
    ExecAppend(w, [], Begin);
    assert [] + [Begin] == begin;
    ExecAppend(w, begin, cut);
    ExecAppend(w, begin + [cut], Fetch(e.answer));
  }

  /** The world right after the decision about the cursor. */
  function AfterDecision(w: World, e: RunEnv): World
    requires Answered(w.file, w.messages, e) && Decides(w.file, w.runs, e)
  {
    var shown, next := AfterOutput(w, e), Advance(w.file, w.runs, e);
    shown.(phase := if next.Some? then Deciding(e.now, shown.phase.msgs, LatestOK(w.runs).value, next.value)
                    else Marking(e.now, shown.phase.msgs))
  }

  lemma DecisionSteps(w: World, e: RunEnv, shown: seq<Action>)
    requires Answered(w.file, w.messages, e) && Decides(w.file, w.runs, e) && Exec(w, shown) == AfterOutput(w, e)
    ensures Exec(w, shown + [ReadIngest] + [ReadPrior]) == AfterDecision(w, e)
  {
    ExecAppend(w, shown, ReadIngest);
    ExecAppend(w, shown + [ReadIngest], ReadPrior);
  }

  /** Everything that an undisturbed run leaves. */
  ghost predicate Leaves(w: World, e: RunEnv, w': World)
    requires Answered(w.file, w.messages, e)
  {
    && w'.phase.Idle? && w'.clock == w.clock && w'.runs == w.runs
    && w'.file == FileAfter(w.file, w.runs, e)
    && w'.messages == MessagesAfter(w.file, w.messages, w.runs, e)
    && w'.printed == w.printed + Ids(ShownBy(w.file, w.messages, e))
  }

  lemma NothingPrinted(w: World, e: RunEnv)
    requires w.phase.Idle? && Answered(w.file, w.messages, e) && (!Queries(w.file, e) || e.failQuery)
    ensures Leaves(w, e, Exec(w, Path(w.file, w.runs, e)))
  {
    ExecAppend(w, [], Begin);
    assert [] + [Begin] == [Begin];
    ExecAppend(w, [Begin], Stop);
    assert [Begin] + [Stop] == [Begin, Stop];
    assert Ids([]) == {};
  }

  lemma PrintedOnly(w: World, e: RunEnv)
    requires w.phase.Idle? && w.clock == e.now && Answered(w.file, w.messages, e)
    requires Queries(w.file, e) && !e.failQuery && !Decides(w.file, w.runs, e)
    ensures Leaves(w, e, Exec(w, Path(w.file, w.runs, e)))
  {
    OutputSteps(w, e);
    ExecAppend(w, [Begin] + [ReadCutoff(e.jids.value, e.sinceHours)] + [Fetch(e.answer)], Stop);
  }

  lemma DecidedPath(w: World, e: RunEnv) returns (decided: seq<Action>)
    requires w.phase.Idle? && w.clock == e.now && Answered(w.file, w.messages, e) && Decides(w.file, w.runs, e)
    ensures Exec(w, decided) == AfterDecision(w, e)
    ensures decided
         == [Begin] + [ReadCutoff(e.jids.value, e.sinceHours)] + [Fetch(e.answer)] + [ReadIngest] + [ReadPrior]
  {
    OutputSteps(w, e);
    var shown := [Begin] + [ReadCutoff(e.jids.value, e.sinceHours)] + [Fetch(e.answer)];
    DecisionSteps(w, e, shown);
    decided := shown + [ReadIngest] + [ReadPrior];
  }

  lemma NotWritten(w: World, e: RunEnv)
    requires w.phase.Idle? && w.clock == e.now && Answered(w.file, w.messages, e)
    requires Decides(w.file, w.runs, e) && !Marks(w.file, w.runs, e)
    ensures Leaves(w, e, Exec(w, Path(w.file, w.runs, e)))
  {
    var decided := DecidedPath(w, e);
    ExecAppend(w, decided, Stop);
  }

  lemma WrittenOrNot(w: World, e: RunEnv) returns (written: seq<Action>)
    requires w.phase.Idle? && w.clock == e.now && Answered(w.file, w.messages, e) && Marks(w.file, w.runs, e)
    ensures Path(w.file, w.runs, e) == written + [if e.failMark then Stop else Mark]
    ensures Exec(w, written) == AfterOutput(w, e).(file := FileAfter(w.file, w.runs, e),
                                                   phase := Marking(e.now, Selected(w.messages, e.answer)))
  {
    var decided := DecidedPath(w, e);
    if Advance(w.file, w.runs, e).Some? {
      ExecAppend(w, decided, WriteCursor);
      written := decided + [WriteCursor];
    } else {
      written := decided;
    }
  }

  lemma WrittenAndMarked(w: World, e: RunEnv)
    requires w.phase.Idle? && w.clock == e.now && Answered(w.file, w.messages, e) && Marks(w.file, w.runs, e)
    ensures Leaves(w, e, Exec(w, Path(w.file, w.runs, e)))
  {
    var written := WrittenOrNot(w, e);
    ExecAppend(w, written, if e.failMark then Stop else Mark);
  }

  /** Every undisturbed run, whatever fails in it, is a schedule: same output, same cursor file, same marks. */
  lemma RunIsASchedule(w: World, e: RunEnv)
    requires w.phase.Idle? && w.clock == e.now && Answered(w.file, w.messages, e)
    ensures Leaves(w, e, Exec(w, Path(w.file, w.runs, e)))
  {
    if !Queries(w.file, e) || e.failQuery {
      NothingPrinted(w, e);
    } else if !Decides(w.file, w.runs, e) {
      PrintedOnly(w, e);
    } else if !Marks(w.file, w.runs, e) {
      NotWritten(w, e);
    } else {
      WrittenAndMarked(w, e);
    }
  }

  // ---------------------------------------------------------------- runs over some hours

  /** A run that meets no failure. */
  predicate Healthy(e: RunEnv) {
    e.jids.Some? && !e.noAdvance && !e.failQuery && !e.failIngest && !e.failWrite && !e.failMark
  }

  /** A row that only its time keeps a run from printing. */
  predicate Printable(row: Row, jids: seq<string>) {
    row.ident.chatJID in jids && !row.ident.fromMe && !Skipped(row) && !StoreProtocol.Unsurfaced(row)
  }

  /** A healthy run prints such a row exactly when its time is not before the cutoff, and leaves it printable. */
  lemma RunPrintsFromCutoff(w: World, e: RunEnv, id: string)
    requires w.phase.Idle? && w.clock == e.now && Healthy(e) && Queries(w.file, e) && Answered(w.file, w.messages, e)
    requires id in w.messages && Printable(w.messages[id], e.jids.value)
    ensures var w' := Exec(w, Path(w.file, w.runs, e));
            && (id in w'.printed <==>
                  id in w.printed || CutoffFor(e.now, w.file, e.sinceHours).value <= w.messages[id].ident.ts)
            && id in w'.messages && w'.messages[id].ident == w.messages[id].ident
            && Printable(w'.messages[id], e.jids.value)
  {
    RunIsASchedule(w, e);
    PrintedExactly(w.messages, e.jids.value, CutoffFor(e.now, w.file, e.sinceHours).value, e.answer, id);
    PrintsIds(Selected(w.messages, e.answer), id);
  }

  lemma PrintsIds(msgs: seq<Msg>, id: string)
    ensures Prints(msgs, id) <==> id in Ids(msgs)
  {
  }

  /** Where a healthy run leaves the cursor. */
  lemma RunLeavesCursor(w: World, e: RunEnv)
    requires w.phase.Idle? && w.clock == e.now && Inv(w) && Healthy(e)
    requires Queries(w.file, e) && Answered(w.file, w.messages, e)
    requires LatestOK(w.runs).Some?
    ensures var w' := Exec(w, Path(w.file, w.runs, e));
            w'.phase.Idle? && w'.clock == w.clock && w'.runs == w.runs && Inv(w')
            && Cursor(w') == CursorAfter(e.now, LatestOK(w.runs).value, Cursor(w))
  {
    RunIsASchedule(w, e);
    var next := CursorAfter(e.now, LatestOK(w.runs).value, Cursor(w));
    CursorBounds(e.now, LatestOK(w.runs).value, Cursor(w));
    WrittenCursorReadsBack(next);
  }

  /** A healthy run of any cutoff, time passing, and a healthy default run: together they leave a row out exactly when
      its time is before the cutoff of the one and before that of the other. */
  lemma TwoRunsLeaveOutExactly(w: World, e: RunEnv, later: int, e': RunEnv, id: string)
    requires w.phase.Idle? && w.clock == e.now && Inv(w) && LatestOK(w.runs).Some?
    requires Healthy(e) && Queries(w.file, e) && Answered(w.file, w.messages, e)
    requires w.clock <= later <= INT64_MAX && Healthy(e') && e'.now == later && e'.sinceHours.None? && e'.jids == e.jids
    requires var w1 := Next(Exec(w, Path(w.file, w.runs, e)), Tick(later)); Answered(w1.file, w1.messages, e')
    requires id in w.messages && Printable(w.messages[id], e.jids.value) && id !in w.printed
    ensures var w1 := Next(Exec(w, Path(w.file, w.runs, e)), Tick(later));
            var w2 := Exec(w1, Path(w1.file, w1.runs, e'));
            id !in w2.printed
            <==> && w.messages[id].ident.ts < CutoffFor(e.now, w.file, e.sinceHours).value
                 && w.messages[id].ident.ts < DefaultCutoff(CursorAfter(e.now, LatestOK(w.runs).value, Cursor(w)))
  {
    RunLeavesCursor(w, e);
    RunPrintsFromCutoff(w, e, id);
    var w1 := Next(Exec(w, Path(w.file, w.runs, e)), Tick(later));
    DefaultCutoffIs(later, w1.file);
    RunPrintsFromCutoff(w1, e', id);
  }

  // ---------------------------------------------------------------- the overlap is tight

  /** A default run up to its output. */
  function Shows(c: int, jids: seq<string>, answer: seq<string>): seq<Action> {
    [Tick(c)] + [Begin] + [ReadCutoff(jids, None)] + [Fetch(answer)]
  }

  /** The rest of that run, which finds an ingest of 100 seconds later, and the next one up to its cutoff. */
  function GoesOn(c: int, jids: seq<string>, messages: map<string, Row>, runs: map<string, Run>): seq<Action> {
    [Tick(c + 100)] + [StoreWrites(messages, runs)] + [ReadIngest] + [ReadPrior] + [WriteCursor] + [Mark]
    + [Begin] + [ReadCutoff(jids, None)]
  }

  lemma ShowsSteps(w: World, c: int, jids: seq<string>, answer: seq<string>)
    requires w.phase.Idle? && Inv(w) && w.clock <= c <= INT64_MAX
    requires IsAnswer(w.messages, jids, DefaultCutoff(Cursor(w)), answer)
    ensures var msgs := Selected(w.messages, answer);
            Exec(w, Shows(c, jids, answer)) == w.(clock := c, phase := Shown(c, msgs), printed := w.printed + Ids(msgs))
  {
    DefaultCutoffIs(c, w.file);
    ExecAppend(w, [], Tick(c));
    assert [] + [Tick(c)] == [Tick(c)];
    ExecAppend(w, [Tick(c)], Begin);
    ExecAppend(w, [Tick(c)] + [Begin], ReadCutoff(jids, None));
    ExecAppend(w, [Tick(c)] + [Begin] + [ReadCutoff(jids, None)], Fetch(answer));
  }

  /** Up to the cursor write. */
  lemma AdvanceSteps(w: World, c: int, messages: map<string, Row>, runs: map<string, Run>)
    requires w.phase.Shown? && w.phase.now == c == w.clock && Inv(w) && c + 100 <= INT64_MAX
    requires LatestOK(runs) == Some(c + 100) && StoreProtocol.Persists(w.messages, messages) && Cursor(w) <= c
    ensures var schedule :=
              [Tick(c + 100)] + [StoreWrites(messages, runs)] + [ReadIngest] + [ReadPrior] + [WriteCursor];
            Exec(w, schedule) == w.(clock := c + 100, messages := messages, runs := runs, file := Holding(FormatInt(c)),
                                    phase := Marking(c, w.phase.msgs))
  {
    ExecAppend(w, [], Tick(c + 100));
    assert [] + [Tick(c + 100)] == [Tick(c + 100)];
    ExecAppend(w, [Tick(c + 100)], StoreWrites(messages, runs));
    ExecAppend(w, [Tick(c + 100)] + [StoreWrites(messages, runs)], ReadIngest);
    ExecAppend(w, [Tick(c + 100)] + [StoreWrites(messages, runs)] + [ReadIngest], ReadPrior);
    ExecAppend(w, [Tick(c + 100)] + [StoreWrites(messages, runs)] + [ReadIngest] + [ReadPrior], WriteCursor);
  }

  /** From the mark to the cutoff of the next run. */
  lemma NextCutoffSteps(w: World, before: seq<Action>, c: int, jids: seq<string>)
    requires var w' := Exec(w, before);
             w'.phase.Marking? && w'.phase.now == c && w'.file == Holding(FormatInt(c)) && OVERLAP <= c <= INT64_MAX
    ensures var w' := Exec(w, before);
            Exec(w, before + [Mark] + [Begin] + [ReadCutoff(jids, None)])
            == w'.(phase := Cut(w'.clock, jids, c - OVERLAP),
                   messages := StoreProtocol.SurfaceRows(w'.messages, MarkedIds(w'.phase.msgs), c))
  {
    WrittenCursorReadsBack(c);
    ExecAppend(w, before, Mark);
    ExecAppend(w, before + [Mark], Begin);
    ExecAppend(w, before + [Mark] + [Begin], ReadCutoff(jids, None));
  }

  lemma GoesOnSteps(w: World, c: int, jids: seq<string>, messages: map<string, Row>, runs: map<string, Run>)
    requires w.phase.Shown? && w.phase.now == c == w.clock && Inv(w) && OVERLAP <= c && c + 100 <= INT64_MAX
    requires LatestOK(runs) == Some(c + 100) && StoreProtocol.Persists(w.messages, messages) && Cursor(w) <= c
    ensures Exec(w, GoesOn(c, jids, messages, runs))
         == w.(clock := c + 100, runs := runs, file := Holding(FormatInt(c)), phase := Cut(c + 100, jids, c - OVERLAP),
               messages := StoreProtocol.SurfaceRows(messages, MarkedIds(w.phase.msgs), c))
  {
    AdvanceSteps(w, c, messages, runs);
    NextCutoffSteps(w, [Tick(c + 100)] + [StoreWrites(messages, runs)] + [ReadIngest] + [ReadPrior] + [WriteCursor],
                    c, jids);
  }

  /** The overlap is tight. From any sound world: a default run fetches at second c, a row of a visible chat is
      committed in that very second, one second later than the overlap after its time stamp, the run goes on, and
      whatever the next default run fetches, it does not print the row. */
  lemma OverlapIsTight(w: World, c: int, jids: seq<string>, answer: seq<string>, messages: map<string, Row>,
                       runs: map<string, Run>, id: string, fetch: Action)
    requires w.phase.Idle? && Inv(w) && w.clock <= c && OVERLAP <= c && c + 100 <= INT64_MAX
    requires IsAnswer(w.messages, jids, DefaultCutoff(Cursor(w)), answer)
    requires LatestOK(runs) == Some(c + 100) && StoreProtocol.Persists(w.messages, messages)
    requires id !in w.messages && id !in w.printed && id in messages && messages[id].ident.ts + OVERLAP + 1 == c
    requires Printable(messages[id], jids)
    requires var w2 := Next(Exec(w, Shows(c, jids, answer)), StoreWrites(messages, w.runs));
             fetch.Fetch? && Enabled(Exec(w2, GoesOn(c, jids, messages, runs)), fetch)
    ensures var w2 := Next(Exec(w, Shows(c, jids, answer)), StoreWrites(messages, w.runs));
            var w3 := Exec(w2, GoesOn(c, jids, messages, runs));
            && w2.clock == messages[id].ident.ts + OVERLAP + 1
            && id in w3.messages && id !in Next(w3, fetch).printed
  {
    ShowsSteps(w, c, jids, answer);
    NotAnswered(w.messages, answer, id);
    var w2 := Next(Exec(w, Shows(c, jids, answer)), StoreWrites(messages, w.runs));
    GoesOnSteps(w2, c, jids, messages, runs);
    var w3 := Exec(w2, GoesOn(c, jids, messages, runs));
    PrintedExactly(w3.messages, jids, c - OVERLAP, fetch.answer, id);
    PrintsIds(Selected(w3.messages, fetch.answer), id);
  }

  lemma NotAnswered(messages: map<string, Row>, answer: seq<string>, id: string)
    requires id !in messages && forall x | x in answer :: x in messages
    ensures id !in Ids(Selected(messages, answer))
  {
    SelectedMembers(messages, answer);
  }

  /** Every step of the writers is a step that the reader's world allows. */
  lemma WriterStepsAllowed(s: StoreProtocol.Sys, a: StoreProtocol.Action, w: World)
    requires w.messages == s.disk.tables.messages && w.runs == s.disk.tables.runs
    ensures var s' := StoreProtocol.Next(s, a);
            var w' := Next(w, StoreWrites(s'.disk.tables.messages, s'.disk.tables.runs));
            w'.messages == s'.disk.tables.messages && w'.runs == s'.disk.tables.runs && w'.phase == w.phase
  {
    StoreProtocol.RowsPersist(s, a);
  }

  // ---------------------------------------------------------------- surfacing

  function MsgsOf(p: Phase): seq<Msg> {
    if p.Shown? || p.Advancing? || p.Deciding? || p.Marking? then p.msgs else []
  }

  ghost predicate PrintedInv(w: World) {
    forall m | m in MsgsOf(w.phase) :: m.id in w.printed
  }

  lemma {:induction false} PrintedAlways(w: World, schedule: seq<Action>)
    requires PrintedInv(w)
    ensures PrintedInv(Exec(w, schedule))
  {
    if schedule != [] {
      PrintedAlways(w, schedule[..|schedule| - 1]);
    }
  }

  /** A reader marks a row as surfaced only in the last step of a run that printed it while it was hydrated and
      unsurfaced, and that found a successful ingest; also when the cursor did not move. */
  lemma MarkedOnlyIfPrinted(w: World, schedule: seq<Action>, a: Action, id: string)
    requires w.phase.Idle? && !a.StoreWrites?
    requires var w1 := Exec(w, schedule);
             id in w1.messages && Next(w1, a).messages[id].media.surfacedAt != w1.messages[id].media.surfacedAt
    ensures var w1 := Exec(w, schedule);
            && a.Mark? && w1.phase.Marking? && id in w1.printed
            && (exists m :: m in w1.phase.msgs && m.id == id && m.needsMark)
            && Next(w1, a).messages[id].media.surfacedAt == Some(w1.phase.now)
  {
    PrintedAlways(w, schedule);
    var w1 := Exec(w, schedule);
    assert id in MarkedIds(w1.phase.msgs);
    var m :| m in w1.phase.msgs && m.needsMark && m.id == id;
    assert m in MsgsOf(w1.phase);
  }

  /** A hydrated row that nobody has surfaced is printed by every run that may see it, however old it is. */
  lemma HydratedIsAlwaysShown(w: World, fetch: Action, id: string)
    requires fetch.Fetch? && Enabled(w, fetch) && id in w.messages && StoreProtocol.Unsurfaced(w.messages[id])
    requires w.messages[id].ident.chatJID in w.phase.jids && !w.messages[id].ident.fromMe && !Skipped(w.messages[id])
    ensures Prints(Next(w, fetch).phase.msgs, id)
  {
    PrintedExactly(w.messages, w.phase.jids, w.phase.cutoff, fetch.answer, id);
  }

  /** The run has printed the row with this very file. */
  ghost predicate ShowsFile(msgs: seq<Msg>, id: string, media: Media) {
    exists m :: m in msgs && m.id == id && m.localPath == media.localPath && m.hydratedAt == media.hydratedAt
  }

  /** The mark takes a row off the list of unsurfaced files. */
  predicate Hides(w: World, id: string)
    requires id in w.messages
  {
    StoreProtocol.Unsurfaced(w.messages[id]) && !StoreProtocol.Unsurfaced(Next(w, Mark).messages[id])
  }

  /** And it does so although the run did not show the file that the row now points at. */
  ghost predicate HidesUnseen(w: World, id: string)
    requires w.phase.Marking? && id in w.messages
  {
    Hides(w, id) && !ShowsFile(w.phase.msgs, id, w.messages[id].media)
  }

  /** The mark hides an unsurfaced row if and only if the run marks its id. */
  lemma MarkHidesExactly(w: World, id: string)
    requires w.phase.Marking? && id in w.messages && StoreProtocol.Unsurfaced(w.messages[id])
    ensures Hides(w, id) <==> id in MarkedIds(w.phase.msgs)
  {
  }

  /** What was fetched is what is marked. */
  lemma {:induction false} FetchedUntilMark(w: World, schedule: seq<Action>, msgs: seq<Msg>)
    requires w.phase.Shown? && w.phase.msgs == msgs && forall a | a in schedule :: !a.Fetch?
    ensures var p := Exec(w, schedule).phase;
            p.Idle? || p.Started? || p.Cut? || MsgsOf(p) == msgs
  {
    if schedule != [] {
      FetchedUntilMark(w, schedule[..|schedule| - 1], msgs);
    }
  }

  /** The row as the run fetched it: visible, hydrated and not surfaced. */
  predicate FetchedForMark(w: World, id: string)
    requires w.phase.Cut?
  {
    && id in w.messages && NeedsMark(w.messages[id]) && !Skipped(w.messages[id])
    && w.messages[id].ident.chatJID in w.phase.jids && !w.messages[id].ident.fromMe
  }

  lemma MarkedExactly(w: World, fetch: Action, id: string)
    requires fetch.Fetch? && Enabled(w, fetch)
    ensures id in MarkedIds(Selected(w.messages, fetch.answer)) <==> FetchedForMark(w, id)
  {
    SelectedMembers(w.messages, fetch.answer);
    if FetchedForMark(w, id) {
      assert MsgOf(id, w.messages[id]) in Selected(w.messages, fetch.answer);
    }
  }

  lemma ShownFileIs(w: World, fetch: Action, id: string, media: Media)
    requires fetch.Fetch? && Enabled(w, fetch) && FetchedForMark(w, id)
    ensures ShowsFile(Selected(w.messages, fetch.answer), id, media)
        <==> media.localPath == w.messages[id].media.localPath && media.hydratedAt == w.messages[id].media.hydratedAt
  {
    SelectedMembers(w.messages, fetch.answer);
    assert MsgOf(id, w.messages[id]) in Selected(w.messages, fetch.answer);
  }

  /** From the fetch of a run over any steps to its mark. Of the rows that are hydrated and not surfaced when it marks,
      the mark hides exactly those that it fetched so, and it hides a file that it did not show exactly when it fetched
      the row so and the file of the row has changed since. */
  lemma HidesUnseenExactly(w: World, fetch: Action, between: seq<Action>, id: string)
    requires fetch.Fetch? && Enabled(w, fetch) && forall a | a in between :: !a.Fetch?
    requires var w' := Exec(Next(w, fetch), between);
             w'.phase.Marking? && id in w'.messages && StoreProtocol.Unsurfaced(w'.messages[id])
    ensures var w' := Exec(Next(w, fetch), between);
            && (Hides(w', id) <==> FetchedForMark(w, id))
            && (HidesUnseen(w', id)
                <==> && FetchedForMark(w, id)
                     && (w'.messages[id].media.localPath != w.messages[id].media.localPath
                         || w'.messages[id].media.hydratedAt != w.messages[id].media.hydratedAt))
  {
    var w' := Exec(Next(w, fetch), between);
    FetchedUntilMark(Next(w, fetch), between, Selected(w.messages, fetch.answer));
    MarkHidesExactly(w', id);
    MarkedExactly(w, fetch, id);
    if FetchedForMark(w, id) {
      ShownFileIs(w, fetch, id, w'.messages[id].media);
    }
  }

  /** That does happen: the writer may replace a file, or its time, in the last moment before the mark. */
  lemma RehydrationIsSwallowed(w: World, id: string, path: string, now: int)
    requires w.phase.Marking? && id in w.messages && id in MarkedIds(w.phase.msgs)
    requires forall m | m in w.phase.msgs && m.id == id :: m.localPath != Some(path) || m.hydratedAt != Some(now)
    ensures var media := Media(Some(path), Some(now), Some("ok"), w.messages[id].media.attempts + 1, None);
            var row := w.messages[id].(media := media);
            HidesUnseen(Next(w, StoreWrites(w.messages[id := row], w.runs)), id)
  {
  }
}
