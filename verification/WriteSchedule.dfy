/** A call of Write that nothing interrupts is one schedule of the step-by-step protocol, so what is proved of
    every schedule holds of class Writer as well. */
module WriteSchedule {
  import opened Text
  import opened Types
  import opened Store
  import opened StoreProtocol
  import MediaPath

  lemma ExecAppend(s: Sys, schedule: seq<Action>, a: Action)
    ensures Exec(s, schedule + [a]) == Next(Exec(s, schedule), a)
  {
    var longer := schedule + [a];
    assert longer[..|longer| - 1] == schedule;
  }

  lemma StartAndLookUp(s: Sys, j: nat, ev: Event, fails: bool)
    requires j !in s.jobs && Complete(ev)
    ensures var s2 := Next(Next(s, Start(j, ev)), LookUp(j, fails));
            && s2.disk == s.disk && s2.place == s.place
            && s2.jobs == s.jobs[j := Job(ev, s.place(ev), Keyed(ResolvePK(s.disk.tables.messages, ev, fails)))]
  {
    var s1 := Next(s, Start(j, ev));
    assert s1.disk == s.disk;
    assert s1.jobs == s.jobs[j := Job(ev, s.place(ev), Looking)];
  }

  lemma TextStep(s: Sys, j: nat, env: Env, allowed: int)
    requires j in s.jobs && s.jobs[j].phase.Keyed?
    ensures var job := s.jobs[j];
            var id := MessageID(KeyOfEvent(job.ev), job.phase.pk);
            var first := FirstTx(s.disk, id, job.phase.pk, job.ev, env.now, allowed, env.fault, env.fts);
            var s' := Next(s, StoreText(j, env.now, allowed, env.fault, env.fts));
            && s'.disk == first.disk && s'.place == s.place
            && s'.jobs == if first.committed && job.ev.mediaBytes != []
                          then s.jobs[j := Job(job.ev, job.path, Stored(id, RunID(id, env.now)))] else s.jobs - {j}
  {
  }

  /** The temporary file with the first n bytes of the body. */
  lemma TmpSteps(s: Sys, j: nat, n: nat) returns (schedule: seq<Action>)
    requires j in s.jobs && s.jobs[j].phase.Stored? && n <= |s.jobs[j].ev.mediaBytes|
    ensures var job, s' := s.jobs[j], Exec(s, schedule);
            && s'.jobs == s.jobs[j := job.(phase := Writing(job.phase.id, job.phase.runId, n))]
            && s'.disk == s.disk.(files := s.disk.files[MediaPath.Tmp(job.path) := job.ev.mediaBytes[..n]])
  {
    var job := s.jobs[j];
    var body, tmp := job.ev.mediaBytes, MediaPath.Tmp(job.path);
    ExecAppend(s, [], OpenTmp(j));
    schedule := [] + [OpenTmp(j)];
    var s1 := Exec(s, schedule);
    assert s1.jobs == s.jobs[j := job.(phase := Writing(job.phase.id, job.phase.runId, 0))];
    assert s1.disk == s.disk.(files := s.disk.files[tmp := []]);
    AppendFromStart(s1, j, n);
    ExecAppend(s, schedule, Append(j, n));
    schedule := schedule + [Append(j, n)];
    assert s.disk.files[tmp := []][tmp := body[..n]] == s.disk.files[tmp := body[..n]];
  }

  /** The file part of a call, up to the point where it succeeded or gave up. */
  lemma FileSteps(s: Sys, j: nat, media: MediaOutcome) returns (schedule: seq<Action>)
    requires j in s.jobs && s.jobs[j].phase.Stored? && s.jobs[j].ev.mediaBytes != []
    ensures var job, s' := s.jobs[j], Exec(s, schedule);
            var phase := if media.Renamed? then Placed(job.phase.id, job.phase.runId)
                         else Broken(job.phase.id, job.phase.runId);
            && s'.jobs == s.jobs[j := job.(phase := phase)]
            && s'.disk == s.disk.(files := MediaFilesAfter(s.disk.files, job.path, job.ev.mediaBytes, media))
  {
    var job := s.jobs[j];
    var body := job.ev.mediaBytes;
    schedule := [];
    if !media.NotOpened? {
      var n := if media.Partial? && media.n <= |body| then media.n else |body|;
      schedule := TmpSteps(s, j, n);
      assert n == |body| ==> body[..n] == body;
    }
    var last := if media.Renamed? then PlaceFile(j) else GiveUp(j);
    ExecAppend(s, schedule, last);
    schedule := schedule + [last];
  }

  lemma AppendFromStart(s: Sys, j: nat, n: nat)
    requires j in s.jobs && s.jobs[j].phase.Writing? && s.jobs[j].phase.sent == 0 && n <= |s.jobs[j].ev.mediaBytes|
    requires MediaPath.Tmp(s.jobs[j].path) in s.disk.files && s.disk.files[MediaPath.Tmp(s.jobs[j].path)] == []
    ensures var job, s' := s.jobs[j], Next(s, Append(j, n));
            && s'.jobs == s.jobs[j := job.(phase := job.phase.(sent := n))]
            && s'.disk == s.disk.(files := s.disk.files[MediaPath.Tmp(job.path) := job.ev.mediaBytes[..n]])
  {
    assert WriteAt([], 0, s.jobs[j].ev.mediaBytes[0..n]) == s.jobs[j].ev.mediaBytes[..n];
  }

  /** The second transaction of a call. */
  lemma LastStep(s: Sys, j: nat, env: Env, res: Result) returns (a: Action)
    requires j in s.jobs && (s.jobs[j].phase.Placed? || s.jobs[j].phase.Broken?) && s.jobs[j].phase.id == res.id
    ensures var phase := s.jobs[j].phase;
            && Next(s, a).jobs == s.jobs - {j}
            && Next(s, a).disk == if env.markFails then s.disk
                                  else s.disk.(tables := if phase.Placed?
                                                         then MarkOK(s.disk.tables, res.id, phase.runId,
                                                                     s.jobs[j].path, env.markNow)
                                                         else MarkFailed(s.disk.tables, res.id, phase.runId))
  {
    if env.markFails {
      a := FinishLost(j);
    } else if s.jobs[j].phase.Placed? {
      a := FinishOK(j, env.markNow);
    } else {
      a := FinishFailed(j);
    }
  }

  lemma KeyedSteps(s: Sys, j: nat, ev: Event, fails: bool) returns (schedule: seq<Action>)
    ensures Exec(s, schedule) == Next(Next(s, Start(j, ev)), LookUp(j, fails))
  {
    ExecAppend(s, [], Start(j, ev));
    var started := [] + [Start(j, ev)];
    ExecAppend(s, started, LookUp(j, fails));
    schedule := started + [LookUp(j, fails)];
  }

  /** The job of a call after its first transaction. */
  function AfterFirst(s: Sys, j: nat, ev: Event, id: string, committed: bool, now: int): map<nat, Job> {
    if committed && ev.mediaBytes != [] then s.jobs[j := Job(ev, s.place(ev), Stored(id, RunID(id, now)))] else s.jobs
  }

  lemma TextAfterLookUp(s: Sys, j: nat, allowed: int, ev: Event, env: Env)
    requires j !in s.jobs && Complete(ev)
    ensures var pk := ResolvePK(s.disk.tables.messages, ev, env.lookupFails);
            var id := MessageID(KeyOfEvent(ev), pk);
            var first := FirstTx(s.disk, id, pk, ev, env.now, allowed, env.fault, env.fts);
            var s3 := Next(Next(Next(s, Start(j, ev)), LookUp(j, env.lookupFails)),
                           StoreText(j, env.now, allowed, env.fault, env.fts));
            s3.disk == first.disk && s3.jobs == AfterFirst(s, j, ev, id, first.committed, env.now)
  {
    StartAndLookUp(s, j, ev, env.lookupFails);
    var s2 := Next(Next(s, Start(j, ev)), LookUp(j, env.lookupFails));
    TextStep(s2, j, env, allowed);
    assert s2.jobs - {j} == s.jobs;
  }

  /** The first three steps of a call, on a job number that is free. */
  lemma TextSchedule(s: Sys, j: nat, allowed: int, ev: Event, env: Env) returns (schedule: seq<Action>)
    requires j !in s.jobs && Complete(ev)
    ensures var pk := ResolvePK(s.disk.tables.messages, ev, env.lookupFails);
            var id := MessageID(KeyOfEvent(ev), pk);
            var first := FirstTx(s.disk, id, pk, ev, env.now, allowed, env.fault, env.fts);
            && Exec(s, schedule).disk == first.disk
            && Exec(s, schedule).jobs == AfterFirst(s, j, ev, id, first.committed, env.now)
  {
    TextAfterLookUp(s, j, allowed, ev, env);
    var keyed := KeyedSteps(s, j, ev, env.lookupFails);
    ExecAppend(s, keyed, StoreText(j, env.now, allowed, env.fault, env.fts));
    schedule := keyed + [StoreText(j, env.now, allowed, env.fault, env.fts)];
  }

  /** Every uninterrupted call, whatever fails in it, is a schedule: same disk at the end, and no job left over. */
  lemma WriteIsASchedule(s: Sys, root: string, j: nat, allowed: int, ev: Event, env: Env)
    returns (schedule: seq<Action>)
    requires j !in s.jobs && s.place(ev) == FinalPath(root, ev)
    ensures Exec(s, schedule).disk == WriteAlone(s.disk, root, allowed, ev, env).disk
    ensures Exec(s, schedule).jobs == s.jobs
  {
    schedule := [];
    if !env.cancelled && Complete(ev) {
      schedule := TextSchedule(s, j, allowed, ev, env);
      var pk := ResolvePK(s.disk.tables.messages, ev, env.lookupFails);
      var id := MessageID(KeyOfEvent(ev), pk);
      var first := FirstTx(s.disk, id, pk, ev, env.now, allowed, env.fault, env.fts);
      var rest := Remainder(s, Exec(s, schedule), j, ev, id, first, env);
      ExecConcat(s, schedule, rest);
      schedule := schedule + rest;
    }
  }

  lemma Remainder(s: Sys, s3: Sys, j: nat, ev: Event, id: string, first: FirstOutcome, env: Env)
    returns (rest: seq<Action>)
    requires j !in s.jobs && s3.disk == first.disk
    requires s3.jobs == AfterFirst(s, j, ev, id, first.committed, env.now)
    ensures Exec(s3, rest).disk == AfterText(first, id, s.place(ev), ev.mediaBytes, env).disk
    ensures Exec(s3, rest).jobs == s.jobs
  {
    rest := [];
    if first.committed && ev.mediaBytes != [] {
      rest := MediaSteps(s3, j, env);
      var res := Result(id, first.inserted, first.updated, "");
      assert Exec(s3, rest).disk == MediaPhase(s3.disk, s.place(ev), ev.mediaBytes, RunID(id, env.now), res, env).disk;
      assert s3.jobs - {j} == s.jobs;
    }
  }

  lemma MediaSteps(s: Sys, j: nat, env: Env) returns (schedule: seq<Action>)
    requires j in s.jobs && s.jobs[j].phase.Stored? && s.jobs[j].ev.mediaBytes != []
    ensures var job := s.jobs[j];
            && Exec(s, schedule).jobs == s.jobs - {j}
            && forall res: Result | res.id == job.phase.id ::
                 Exec(s, schedule).disk == MediaPhase(s.disk, job.path, job.ev.mediaBytes, job.phase.runId, res,
                     env).disk
  {
    schedule := FileSteps(s, j, env.media);
    var a := LastStep(Exec(s, schedule), j, env, Result(s.jobs[j].phase.id, false, false, ""));
    ExecAppend(s, schedule, a);
    assert s.jobs[j := Exec(s, schedule).jobs[j]] - {j} == s.jobs - {j};
    schedule := schedule + [a];
  }

  lemma {:induction false} ExecConcat(s: Sys, first: seq<Action>, second: seq<Action>)
    ensures Exec(s, first + second) == Exec(Exec(s, first), second)
    decreases |second|
  {
    if second == [] {
      assert first + second == first;
    } else {
      var front := second[..|second| - 1];
      ExecConcat(s, first, front);
      assert (first + second)[..|first + second| - 1] == first + front;
    }
  }
}
