/** Crash consistency of the media life cycle: after every step and every crash, a row that points at a file
    points at the complete bytes of an event that belongs there. */
module MediaSafety {
  import opened Text
  import opened Types
  import opened Store
  import opened StoreProtocol
  import MediaPath

  /** A name that no temporary file can have. */
  predicate Settled(path: string) {
    !EndsWith(path, ".tmp")
  }

  /** What must hold of an event before it is written. */
  predicate Acceptable(s: Sys, ev: Event) {
    ev.hydrationStatus != "ok" && Settled(s.place(ev))
  }

  /** The daemon's own placement; there an event is acceptable exactly when its status is not "ok" and its
      extension is not a ".tmp" one. */
  ghost predicate DaemonPlaces(s: Sys, root: string) {
    forall ev :: s.place(ev) == FinalPath(root, ev)
  }

  lemma AcceptableInDaemon(s: Sys, root: string, ev: Event)
    requires DaemonPlaces(s, root)
    ensures Acceptable(s, ev) <==> ev.hydrationStatus != "ok" && !MediaPath.TmpExt(ev.mediaExt, ev.messageType)
  {
    MediaPath.FinalEndsInTmp(root, ev.chatJID, ev.msgID, ev.mediaExt, ev.messageType);
  }

  /** For a downloaded file whose title has a short extension, that extension decides. */
  lemma DaemonTitles(s: Sys, root: string, ev: Event, title: string, byType: string)
    requires DaemonPlaces(s, root) && ev.hydrationStatus != "ok" && ev.mediaExt == MediaPath.MediaExt(title, byType)
    requires MediaPath.FileExt(title) != "" && |MediaPath.FileExt(title)| <= 12
    ensures Acceptable(s, ev) <==> MediaPath.ToLower(MediaPath.FileExt(title)) != ".tmp"
  {
    AcceptableInDaemon(s, root, ev);
    MediaPath.TitleDecidesTmp(title, byType, ev.messageType);
  }

  /** Job i has a temporary file open and is not the one that takes the step. */
  predicate OtherWriter(s: Sys, a: Action, i: nat)
    requires a.OpenTmp? || a.Append? || a.PlaceFile?
  {
    i in s.jobs && i != a.j && s.jobs[i].phase.Writing?
  }

  /** What another call may do with the temporary file at path that job i has open: truncate it only before i has sent
      anything, write only what i's own body has there, and never rename it. */
  predicate Spares(s: Sys, a: Action, i: nat)
    requires Enabled(s, a) && (a.OpenTmp? || a.Append? || a.PlaceFile?) && OtherWriter(s, a, i)
  {
    var body, own := s.jobs[i].ev.mediaBytes, s.jobs[a.j].ev.mediaBytes;
    s.jobs[i].path == s.jobs[a.j].path ==>
      match a
      case OpenTmp(_) => s.jobs[i].phase.sent == 0
      case Append(j, n) =>
        var sent := s.jobs[j].phase.sent;
        n > 0 ==> sent + n <= |body| && own[sent..sent + n] == body[sent..sent + n]
      case _ => false
  }

  /** An event that is acceptable, and a step that spares the temporary files of the other calls. */
  predicate Careful(s: Sys, a: Action) {
    Enabled(s, a) ==>
      && (a.Start? ==> Acceptable(s, a.ev))
      && (a.OpenTmp? || a.Append? || a.PlaceFile? ==> forall i | i in s.jobs && OtherWriter(s, a, i) :: Spares(s, a, i))
  }

  ghost predicate CarefulSchedule(s: Sys, schedule: seq<Action>) {
    forall i | 0 <= i < |schedule| :: Careful(Exec(s, schedule[..i]), schedule[i])
  }

  predicate Belongs(s: Sys, ev: Event, path: string, body: Bytes) {
    s.place(ev) == path && ev.mediaBytes == body && body != []
  }

  /** The file at path holds the whole body of a written event whose place this is. */
  ghost predicate Backed(s: Sys, path: string) {
    path in s.disk.files && exists ev :: ev in s.started && Belongs(s, ev, path, s.disk.files[path])
  }

  predicate RowConsistent(m: Media) {
    && (m.localPath.Some? <==> m.hydratedAt.Some?)
    && (m.status == Some("ok") ==> m.localPath.Some?)
    && (m.surfacedAt.Some? ==> m.hydratedAt.Some?)
  }

  ghost predicate RowsInv(s: Sys) {
    forall id | id in s.disk.tables.messages ::
      var m := s.disk.tables.messages[id].media;
      RowConsistent(m) && (m.localPath.Some? ==> Settled(m.localPath.value) && Backed(s, m.localPath.value))
  }

  /** The file holds a beginning of the body that is at least as long as what was sent. */
  predicate Holds(f: Bytes, body: Bytes, sent: nat) {
    sent <= |f| <= |body| && f == body[..|f|]
  }

  /** The temporary file of a job that writes. */
  predicate TmpHolds(files: map<string, Bytes>, job: Job)
    requires job.phase.Writing?
  {
    var tmp := MediaPath.Tmp(job.path);
    tmp in files && Holds(files[tmp], job.ev.mediaBytes, job.phase.sent)
  }

  ghost predicate JobInv(s: Sys, job: Job) {
    && job.ev in s.started && job.path == s.place(job.ev) && Settled(job.path)
    && job.ev.hydrationStatus != "ok"
    && (job.phase.Looking? || job.phase.Keyed? || job.ev.mediaBytes != [])
    && (job.phase.Writing? ==> TmpHolds(s.disk.files, job))
    && (job.phase.Placed? ==> Backed(s, job.path))
  }

  ghost predicate JobsInv(s: Sys) {
    forall j | j in s.jobs :: JobInv(s, s.jobs[j])
  }

  ghost predicate SurfacingInv(s: Sys) {
    forall id | id in s.surfacing ::
      id in s.disk.tables.messages && s.disk.tables.messages[id].media.hydratedAt.Some?
  }

  ghost predicate Inv(s: Sys) {
    RowsInv(s) && JobsInv(s) && SurfacingInv(s)
  }

  lemma TmpInjective(p: string, q: string)
    ensures MediaPath.Tmp(p) == MediaPath.Tmp(q) ==> p == q
    ensures EndsWith(MediaPath.Tmp(p), ".tmp")
  {
    var t, u := MediaPath.Tmp(p), MediaPath.Tmp(q);
    assert p == t[..|t| - 4] && q == u[..|u| - 4];
    assert t[|t| - 4..] == ".tmp";
  }

  /** A body that is moved into its place backs it. */
  lemma PlacedBacks(s: Sys, a: Action)
    requires JobsInv(s) && a.PlaceFile? && Enabled(s, a)
    ensures Backed(Next(s, a), s.jobs[a.j].path)
  {
    var job, s' := s.jobs[a.j], Next(s, a);
    assert JobInv(s, job);
    assert s'.disk.files == FilesAfter(s, a);
    var f := s.disk.files[MediaPath.Tmp(job.path)];
    assert f == job.ev.mediaBytes[..|f|] == job.ev.mediaBytes;
    assert s'.disk.files[job.path] == job.ev.mediaBytes;
    assert job.ev in s'.started && Belongs(s, job.ev, job.path, s'.disk.files[job.path]);
  }

  /** Any other settled file is left as it is. */
  lemma SettledKept(s: Sys, a: Action, path: string)
    requires Settled(path) && path in s.disk.files
    requires !(Enabled(s, a) && a.PlaceFile? && s.jobs[a.j].path == path)
    ensures path in Next(s, a).disk.files && Next(s, a).disk.files[path] == s.disk.files[path]
  {
    if Enabled(s, a) && (a.OpenTmp? || a.Append? || a.PlaceFile?) {
      TmpInjective(s.jobs[a.j].path, path);
      assert MediaPath.Tmp(s.jobs[a.j].path) != path;
      assert Next(s, a).disk.files == FilesAfter(s, a);
    }
  }

  /** A step changes settled files only by moving a complete body into its place. */
  lemma BackedKept(s: Sys, a: Action, path: string)
    requires JobsInv(s) && Settled(path) && Backed(s, path)
    ensures Backed(Next(s, a), path)
  {
    if Enabled(s, a) && a.PlaceFile? && s.jobs[a.j].path == path {
      PlacedBacks(s, a);
    } else {
      SettledKept(s, a, path);
      var ev :| ev in s.started && Belongs(s, ev, path, s.disk.files[path]);
      assert ev in Next(s, a).started && Belongs(Next(s, a), ev, path, Next(s, a).disk.files[path]);
    }
  }

  /** The row keeps its file and its mark is new only where there is a file; and no status becomes "ok". */
  predicate KeepsMedia(m: Media, m': Media) {
    && m'.localPath == m.localPath && m'.hydratedAt == m.hydratedAt
    && (m'.surfacedAt == m.surfacedAt || m.hydratedAt.Some?)
    && (m'.status == m.status || m'.status != Some("ok"))
  }

  lemma CommitOrigin(s: Sys, a: Action, id: string)
    requires JobsInv(s) && Commits(s, a) && id in Next(s, a).disk.tables.messages
    ensures var m' := Next(s, a).disk.tables.messages[id].media;
            if id !in s.disk.tables.messages
            then m'.localPath.None? && m'.hydratedAt.None? && m'.surfacedAt.None? && m'.status != Some("ok")
            else KeepsMedia(s.disk.tables.messages[id].media, m')
  {
    CommitEffect(s, a);
    assert JobInv(s, s.jobs[a.j]);
  }

  /** Where the media columns of a row come from. */
  lemma MediaOrigin(s: Sys, a: Action, id: string)
    requires JobsInv(s) && SurfacingInv(s)
    requires id in Next(s, a).disk.tables.messages
    ensures var m' := Next(s, a).disk.tables.messages[id].media;
            if id !in s.disk.tables.messages
            then m'.localPath.None? && m'.hydratedAt.None? && m'.surfacedAt.None? && m'.status != Some("ok")
            else
              || KeepsMedia(s.disk.tables.messages[id].media, m')
              || (a.FinishOK? && Enabled(s, a) && m'.localPath == Some(s.jobs[a.j].path) && m'.hydratedAt.Some?
                  && m'.surfacedAt.None?)
  {
    if Commits(s, a) {
      CommitOrigin(s, a, id);
    } else if Enabled(s, a) {
      assert Next(s, a).disk.tables == TablesAfter(s, a);
    }
  }

  lemma RowsKept(s: Sys, a: Action)
    requires Inv(s)
    ensures RowsInv(Next(s, a))
  {
    var s' := Next(s, a);
    forall id | id in s'.disk.tables.messages
      ensures var m := s'.disk.tables.messages[id].media;
              RowConsistent(m) && (m.localPath.Some? ==> Settled(m.localPath.value) && Backed(s', m.localPath.value))
    {
      MediaOrigin(s, a, id);
      var m := s'.disk.tables.messages[id].media;
      if m.localPath.Some? {
        if id in s.disk.tables.messages && m.localPath == s.disk.tables.messages[id].media.localPath {
          BackedKept(s, a, m.localPath.value);
        } else {
          assert JobInv(s, s.jobs[a.j]);
          BackedKept(s, a, s.jobs[a.j].path);
        }
      }
    }
  }

  lemma SurfacingKept(s: Sys, a: Action)
    requires Inv(s)
    ensures SurfacingInv(Next(s, a))
  {
    var s' := Next(s, a);
    RowsPersist(s, a);
    forall id | id in s'.surfacing
      ensures id in s'.disk.tables.messages && s'.disk.tables.messages[id].media.hydratedAt.Some?
    {
      assert id in s.disk.tables.messages;
      MediaOrigin(s, a, id);
    }
  }

  /** What an append leaves in a file that holds beginnings of two bodies: it still holds one of the other body if and
      only if the bytes are what that body has there. */
  lemma AppendHoldsExactly(f: Bytes, own: Bytes, sent: nat, n: nat, body: Bytes, kept: nat)
    requires Holds(f, own, sent) && sent + n <= |own| && Holds(f, body, kept) && n > 0
    ensures Holds(WriteAt(f, sent, own[sent..sent + n]), body, kept)
        <==> sent + n <= |body| && own[sent..sent + n] == body[sent..sent + n]
  {
    var chunk := own[sent..sent + n];
    var g := WriteAt(f, sent, chunk);
    assert |g| == if sent + n <= |f| then |f| else sent + n;
    assert g[..sent] == f[..sent] == body[..sent];
    assert g[sent..sent + n] == chunk;
    if sent + n <= |body| && chunk == body[sent..sent + n] {
      assert g == body[..|g|] by {
        forall k | 0 <= k < |g| ensures g[k] == body[k] {
          if sent <= k < sent + n {
            assert chunk[k - sent] == body[sent..sent + n][k - sent];
          }
        }
      }
    }
    if Holds(g, body, kept) {
      assert body[..|g|][sent..sent + n] == body[sent..sent + n];
    }
  }

  /** Its own body it always continues. */
  lemma AppendContinues(f: Bytes, own: Bytes, sent: nat, n: nat)
    requires Holds(f, own, sent) && sent + n <= |own|
    ensures Holds(WriteAt(f, sent, own[sent..sent + n]), own, sent + n)
  {
    if n > 0 {
      AppendHoldsExactly(f, own, sent, n, own, sent);
      assert |WriteAt(f, sent, own[sent..sent + n])| >= sent + n;
    } else {
      assert own[sent..sent + n] == [];
    }
  }

  /** A step of one call leaves the temporary file of another, which holds what that one has sent, if and only if the
      paths differ or the step spares it. */
  lemma TmpKeptExactly(s: Sys, a: Action, i: nat)
    requires JobsInv(s) && Enabled(s, a) && (a.OpenTmp? || a.Append? || a.PlaceFile?) && OtherWriter(s, a, i)
    ensures TmpHolds(Next(s, a).disk.files, s.jobs[i]) <==> Spares(s, a, i)
  {
    if s.jobs[i].path != s.jobs[a.j].path {
      TmpElsewhereKept(s, a, i);
    } else if a.Append? {
      TmpAppendExactly(s, a, i);
    } else {
      assert JobInv(s, s.jobs[i]) && JobInv(s, s.jobs[a.j]) && Next(s, a).disk.files == FilesAfter(s, a);
      TmpInjective(s.jobs[i].path, s.jobs[i].path);
    }
  }

  lemma TmpElsewhereKept(s: Sys, a: Action, i: nat)
    requires JobsInv(s) && Enabled(s, a) && (a.OpenTmp? || a.Append? || a.PlaceFile?) && OtherWriter(s, a, i)
    requires s.jobs[i].path != s.jobs[a.j].path
    ensures TmpHolds(Next(s, a).disk.files, s.jobs[i])
  {
    assert JobInv(s, s.jobs[i]) && JobInv(s, s.jobs[a.j]) && Next(s, a).disk.files == FilesAfter(s, a);
    TmpInjective(s.jobs[i].path, s.jobs[a.j].path);
    TmpInjective(s.jobs[i].path, s.jobs[i].path);
    assert MediaPath.Tmp(s.jobs[i].path) != s.jobs[a.j].path;
  }

  lemma TmpAppendExactly(s: Sys, a: Action, i: nat)
    requires JobsInv(s) && Enabled(s, a) && a.Append? && OtherWriter(s, a, i) && s.jobs[i].path == s.jobs[a.j].path
    ensures TmpHolds(Next(s, a).disk.files, s.jobs[i]) <==> Spares(s, a, i)
  {
    var job, own := s.jobs[i], s.jobs[a.j];
    var f := s.disk.files[MediaPath.Tmp(job.path)];
    assert JobInv(s, job) && JobInv(s, own) && Next(s, a).disk.files == FilesAfter(s, a);
    if a.n > 0 {
      AppendHoldsExactly(f, own.ev.mediaBytes, own.phase.sent, a.n, job.ev.mediaBytes, job.phase.sent);
    } else {
      assert own.ev.mediaBytes[own.phase.sent..own.phase.sent + a.n] == [];
      assert Next(s, a).disk.files == s.disk.files;
    }
  }

  /** The temporary file of a job that writes on, whatever the step. */
  lemma TmpKept(s: Sys, a: Action, j: nat)
    requires JobsInv(s) && Careful(s, a)
    requires j in s.jobs && s.jobs[j].phase.Writing? && j in Next(s, a).jobs && Next(s, a).jobs[j] == s.jobs[j]
    ensures TmpHolds(Next(s, a).disk.files, s.jobs[j])
  {
    assert JobInv(s, s.jobs[j]);
    if Enabled(s, a) && (a.OpenTmp? || a.Append? || a.PlaceFile?) {
      if a.j == j {
        assert Next(s, a).jobs == JobsAfter(s, a);
        AppendExtends(s, a);
      } else {
        assert OtherWriter(s, a, j) && Spares(s, a, j);
        TmpKeptExactly(s, a, j);
      }
    }
  }

  lemma JobKept(s: Sys, a: Action, j: nat)
    requires Inv(s) && Careful(s, a) && j in Next(s, a).jobs
    ensures JobInv(Next(s, a), Next(s, a).jobs[j])
  {
    var s' := Next(s, a);
    var job := s'.jobs[j];
    JobOrigin(s, a, j);
    if !(a.Start? && Enabled(s, a) && a.j == j) {
      assert JobInv(s, s.jobs[j]);
      if job == s.jobs[j] {
        if job.phase.Writing? { TmpKept(s, a, j); }
        if job.phase.Placed? { BackedKept(s, a, job.path); }
      } else if a.PlaceFile? {
        PlacedBacks(s, a);
      } else if a.Append? {
        AppendExtends(s, a);
      }
    }
  }

  /** Writing the next bytes leaves a longer beginning of the body. */
  lemma AppendExtends(s: Sys, a: Action)
    requires JobsInv(s) && a.Append? && Enabled(s, a)
    ensures a.j in Next(s, a).jobs && Next(s, a).jobs[a.j].phase.Writing?
    ensures TmpHolds(Next(s, a).disk.files, Next(s, a).jobs[a.j])
  {
    var job := s.jobs[a.j];
    assert JobInv(s, job);
    assert Next(s, a).disk.files == FilesAfter(s, a) && Next(s, a).jobs == JobsAfter(s, a);
    AppendContinues(s.disk.files[MediaPath.Tmp(job.path)], job.ev.mediaBytes, job.phase.sent, a.n);
  }

  /** A step that is not careful leaves a job whose event is not acceptable, or whose temporary file does not hold what
      it has sent. */
  lemma CarelessBreaks(s: Sys, a: Action)
    requires Inv(s) && !Careful(s, a)
    ensures !JobsInv(Next(s, a))
  {
    var s' := Next(s, a);
    assert s'.jobs == JobsAfter(s, a);
    if a.Start? {
      assert !JobInv(s', s'.jobs[a.j]);
    } else {
      var i :| i in s.jobs && OtherWriter(s, a, i) && !Spares(s, a, i);
      TmpKeptExactly(s, a, i);
      assert s'.jobs[i] == s.jobs[i] && !JobInv(s', s'.jobs[i]);
    }
  }

  /** Exactly the careful steps keep a state consistent. */
  lemma InvKeptExactly(s: Sys, a: Action)
    requires Inv(s)
    ensures Inv(Next(s, a)) <==> Careful(s, a)
  {
    if Careful(s, a) {
      RowsKept(s, a);
      SurfacingKept(s, a);
      forall j | j in Next(s, a).jobs ensures JobInv(Next(s, a), Next(s, a).jobs[j]) {
        JobKept(s, a, j);
      }
    } else {
      CarelessBreaks(s, a);
    }
  }

  /** The main result: from a consistent state at rest, every careful schedule, crashes included, keeps it. */
  lemma {:induction false} CrashConsistent(s: Sys, schedule: seq<Action>)
    requires Inv(s) && CarefulSchedule(s, schedule)
    ensures Inv(Exec(s, schedule))
    decreases |schedule|
  {
    if schedule != [] {
      var front := schedule[..|schedule| - 1];
      forall i | 0 <= i < |front| ensures Careful(Exec(s, front[..i]), front[i]) {
        assert front[..i] == schedule[..i];
      }
      CrashConsistent(s, front);
      assert Careful(Exec(s, schedule[..|schedule| - 1]), schedule[|schedule| - 1]);
      InvKeptExactly(Exec(s, front), schedule[|schedule| - 1]);
    }
  }

  /** And only those: if every state of a run is consistent, every step of it was careful. */
  lemma ConsistentOnlyIfCareful(s: Sys, schedule: seq<Action>)
    requires forall i | 0 <= i <= |schedule| :: Inv(Exec(s, schedule[..i]))
    ensures CarefulSchedule(s, schedule)
  {
    forall i | 0 <= i < |schedule| ensures Careful(Exec(s, schedule[..i]), schedule[i]) {
      assert schedule[..i + 1][..i] == schedule[..i];
      assert Inv(Exec(s, schedule[..i + 1]));
      InvKeptExactly(Exec(s, schedule[..i]), schedule[i]);
    }
  }

  // ---------------------------------------------------------------- the conditions are needed

  /** An upsert keeps "status ok implies a path" exactly when the event does not itself claim "ok" for a row
      without a file. */
  lemma UpsertConsistentExactly(m: map<string, Row>, id: string, ev: Event, pk: int, now: int)
    requires id in m ==> RowConsistent(m[id].media)
    ensures RowConsistent(Upsert(m, id, ev, pk, now)[id].media)
        <==> (ev.hydrationStatus != "ok" || (id in m && m[id].media.localPath.Some?))
  {
  }

  ghost predicate AllBacked(s: Sys) {
    forall id | id in s.disk.tables.messages && s.disk.tables.messages[id].media.localPath.Some? ::
      Backed(s, s.disk.tables.messages[id].media.localPath.value)
  }

  /** Opening a temporary file is harmless exactly when no row's file has that name. With a ".tmp" extension
      one has: MediaPath.TmpNameCollision. */
  lemma OpenSafeExactly(s: Sys, j: nat)
    requires AllBacked(s) && Enabled(s, OpenTmp(j))
    ensures AllBacked(Next(s, OpenTmp(j)))
        <==> forall id | id in s.disk.tables.messages ::
               s.disk.tables.messages[id].media.localPath != Some(MediaPath.Tmp(s.jobs[j].path))
  {
    var s' := Next(s, OpenTmp(j));
    var tmp := MediaPath.Tmp(s.jobs[j].path);
    assert s'.disk.files == s.disk.files[tmp := []];
    assert s'.disk.tables == s.disk.tables;
    assert !Backed(s', tmp);
    forall p | p != tmp && Backed(s, p) ensures Backed(s', p) {
      var ev :| ev in s.started && Belongs(s, ev, p, s.disk.files[p]);
      assert ev in s'.started && Belongs(s', ev, p, s'.disk.files[p]);
    }
  }

  lemma Truncates(s: Sys, i: nat, j: nat)
    requires i in s.jobs && i != j && s.jobs[i].phase.Writing? && Enabled(s, OpenTmp(j))
             && s.jobs[i].path == s.jobs[j].path
    ensures var s' := Next(s, OpenTmp(j));
            && MediaPath.Tmp(s.jobs[i].path) in s'.disk.files && s'.disk.files[MediaPath.Tmp(s.jobs[i].path)] == []
            && i in s'.jobs && s'.jobs[i] == s.jobs[i] && s'.disk.tables == s.disk.tables
  {
  }

  lemma PlacesEmptyFile(s: Sys, i: nat)
    requires Enabled(s, PlaceFile(i)) && s.disk.files[MediaPath.Tmp(s.jobs[i].path)] == []
    ensures var s' := Next(s, PlaceFile(i));
            && s.jobs[i].path in s'.disk.files && s'.disk.files[s.jobs[i].path] == [] && s'.disk.tables == s.disk.tables
            && i in s'.jobs && s'.jobs[i].phase == Placed(s.jobs[i].phase.id, s.jobs[i].phase.runId)
            && s'.jobs[i].path == s.jobs[i].path
  {
  }

  /** A step that does not spare a temporary file reaches the rows: the second call truncates what the first, having
      written all of it, then moves into place and marks as hydrated. */
  lemma SharedTmpBreaks(s: Sys, i: nat, j: nat, now: int)
    requires i != j && Enabled(s, PlaceFile(i)) && Enabled(s, OpenTmp(j)) && s.jobs[i].path == s.jobs[j].path
    requires s.jobs[i].phase.id in s.disk.tables.messages
    ensures !RowsInv(Next(Next(Next(s, OpenTmp(j)), PlaceFile(i)), FinishOK(i, now)))
  {
    var path, id := s.jobs[i].path, s.jobs[i].phase.id;
    Truncates(s, i, j);
    var s1 := Next(s, OpenTmp(j));
    PlacesEmptyFile(s1, i);
    var s2 := Next(s1, PlaceFile(i));
    var s3 := Next(s2, FinishOK(i, now));
    assert s3.disk.tables.messages[id].media.localPath == Some(path);
    assert s3.disk.files == s2.disk.files;
    assert !Backed(s3, path);
  }

  // ---------------------------------------------------------------- the counter and the file pointer

  /** The attempts counter never goes down, and a row that points at a file never stops doing so. */
  predicate MediaAdvances(m: map<string, Row>, m': map<string, Row>) {
    forall id | id in m :: id in m' && m[id].media.attempts <= m'[id].media.attempts
                           && (m[id].media.localPath.Some? ==> m'[id].media.localPath.Some?)
  }

  ghost predicate CountsInv(s: Sys) {
    forall j | j in s.jobs :: 0 <= s.jobs[j].ev.hydrationAttempts
  }

  lemma CountsKept(s: Sys, a: Action)
    requires CountsInv(s) && (a.Start? ==> 0 <= a.ev.hydrationAttempts)
    ensures CountsInv(Next(s, a))
  {
    forall j | j in Next(s, a).jobs ensures 0 <= Next(s, a).jobs[j].ev.hydrationAttempts {
      JobOrigin(s, a, j);
    }
  }

  lemma UpsertAdvances(m: map<string, Row>, id: string, ev: Event, pk: int, now: int)
    requires 0 <= ev.hydrationAttempts
    ensures MediaAdvances(m, Upsert(m, id, ev, pk, now))
  {
  }

  lemma QuietAdvances(s: Sys, a: Action)
    requires !Commits(s, a)
    ensures MediaAdvances(s.disk.tables.messages, Next(s, a).disk.tables.messages)
  {
    if Enabled(s, a) {
      assert Next(s, a).disk.tables == TablesAfter(s, a);
    }
  }

  lemma StepAdvances(s: Sys, a: Action)
    requires CountsInv(s)
    ensures MediaAdvances(s.disk.tables.messages, Next(s, a).disk.tables.messages)
  {
    if Commits(s, a) {
      CommitEffect(s, a);
      UpsertAdvances(s.disk.tables.messages, JobID(s, a.j), s.jobs[a.j].ev, s.jobs[a.j].phase.pk, a.now);
    } else {
      QuietAdvances(s, a);
    }
  }

  lemma {:induction false} MediaOnlyAdvances(s: Sys, schedule: seq<Action>)
    requires CountsInv(s) && forall a | a in schedule :: a.Start? ==> 0 <= a.ev.hydrationAttempts
    ensures CountsInv(Exec(s, schedule))
    ensures MediaAdvances(s.disk.tables.messages, Exec(s, schedule).disk.tables.messages)
  {
    if schedule != [] {
      MediaOnlyAdvances(s, schedule[..|schedule| - 1]);
      CountsKept(Exec(s, schedule[..|schedule| - 1]), schedule[|schedule| - 1]);
      StepAdvances(Exec(s, schedule[..|schedule| - 1]), schedule[|schedule| - 1]);
    }
  }
}
