/** What holds across the parts of the daemon: from an entry of the configuration to a stored file and a printed line,
    and from a write to a reader's cursor. */
module EndToEnd {
  import opened Text
  import opened Types
  import opened Store
  import Config
  import Listener
  import Output
  import Unseen
  import RunAccounting
  import StoreProtocol

  // ---------------------------------------------------------------- consent

  /** The entry that speaks of a chat. */
  predicate SpeaksOf(g: Config.RawGroup, jid: string) {
    Config.WellTyped(g) && Config.JidOf(g) == jid
  }

  /** A loaded chat has an entry, which says what its group holds. */
  lemma EntryOfChat(f: Config.File, jid: string) returns (g: Config.RawGroup)
    requires Config.Loaded(f).Some? && jid in Config.ByJid(Config.Loaded(f).value)
    ensures f.enabled && g in f.groups && SpeaksOf(g, jid)
    ensures Config.SaysWhat(g, Config.ByJid(Config.Loaded(f).value)[jid])
  {
    var gs := Config.Loaded(f).value;
    var i := ByJidIsOf(gs, jid);
    Config.LoadedIsWhatIsSaid(f);
    Config.GatherIs(Config.Ones(f.groups));
    g := f.groups[i];
    assert Config.Ones(f.groups)[i] == Some(gs[i]);
    Config.OneAcceptedExactly(g);
  }

  lemma {:induction false} ByJidIsOf(gs: seq<Group>, jid: string) returns (i: nat)
    requires jid in Config.ByJid(gs)
    ensures i < |gs| && Config.ByJid(gs)[jid] == gs[i] && gs[i].jid == jid
    decreases |gs|
  {
    if gs[|gs| - 1].jid == jid {
      i := |gs| - 1;
    } else {
      i := ByJidIsOf(gs[..|gs| - 1], jid);
    }
  }

  /** Some entry of the file asks for the files of this chat. */
  ghost predicate AsksForFiles(f: Config.File, jid: string) {
    && f.enabled
    && exists g :: g in f.groups && SpeaksOf(g, jid) && g.rest.Some? && g.rest.value.copyMedia == Some(true)
  }

  /** Some entry of the file keeps the text of this chat out. */
  ghost predicate KeepsTextOut(f: Config.File, jid: string) {
    exists g :: g in f.groups && SpeaksOf(g, jid) && g.rest.Some? && g.rest.value.ingestText == Some(false)
  }

  /** No file without consent: under the chats that Load makes of a file, and of the one that a reload may put in its
      place, a message brings bytes to the store only if both files ask for the files of its chat. */
  lemma NoFileWithoutConsent(f: Config.File, f': Config.File, ev: Event, hasMedia: bool, download: Listener.Download,
                             source: Listener.Source)
    requires Config.Loaded(f).Some? && Config.Loaded(f').Some? && ev.mediaBytes == []
    requires var groups, groups' := Config.ByJid(Config.Loaded(f).value), Config.ByJid(Config.Loaded(f').value);
             && ev.chatJID in groups && ev.chatJID in groups'
             && var g, g' := groups[ev.chatJID], groups'[ev.chatJID];
                Listener.Outgoing(ev, g, g', hasMedia, download, source).mediaBytes != []
    ensures AsksForFiles(f, ev.chatJID) && AsksForFiles(f', ev.chatJID)
  {
    var groups, groups' := Config.ByJid(Config.Loaded(f).value), Config.ByJid(Config.Loaded(f').value);
    Listener.ForbiddenIsNeverStored(ev, groups[ev.chatJID], groups'[ev.chatJID], hasMedia, download, source);
    var g := EntryOfChat(f, ev.chatJID);
    var g' := EntryOfChat(f', ev.chatJID);
  }

  /** And a text that does not arrive was kept out by one of them. */
  lemma TextOnlyKeptOutIfSaid(f: Config.File, f': Config.File, ev: Event, hasMedia: bool, download: Listener.Download,
                              source: Listener.Source)
    requires Config.Loaded(f).Some? && Config.Loaded(f').Some? && ev.mediaBytes == []
    requires var groups, groups' := Config.ByJid(Config.Loaded(f).value), Config.ByJid(Config.Loaded(f').value);
             && ev.chatJID in groups && ev.chatJID in groups'
             && var g, g' := groups[ev.chatJID], groups'[ev.chatJID];
                Listener.Outgoing(ev, g, g', hasMedia, download, source).text != ev.text
    ensures KeepsTextOut(f, ev.chatJID) || KeepsTextOut(f', ev.chatJID)
  {
    var groups, groups' := Config.ByJid(Config.Loaded(f).value), Config.ByJid(Config.Loaded(f').value);
    Listener.ForbiddenIsNeverStored(ev, groups[ev.chatJID], groups'[ev.chatJID], hasMedia, download, source);
    var g := EntryOfChat(f, ev.chatJID);
    var g' := EntryOfChat(f', ev.chatJID);
  }

  /** Without bytes no file is touched and no row comes to point at one. */
  lemma NoBytesNoFile(d: Disk, root: string, allowed: int, ev: Event, env: Env)
    requires ev.mediaBytes == []
    ensures var d' := WriteAlone(d, root, allowed, ev, env).disk; d'.files == d.files && SameFiles(d, d')
  {
    var pk := ResolvePK(d.tables.messages, ev, env.lookupFails);
    FirstKeepsFiles(d, MessageID(KeyOfEvent(ev), pk), pk, ev, allowed, env);
  }

  /** The rows point at the files that they pointed at, and new ones at none. */
  ghost predicate SameFiles(d: Disk, d': Disk) {
    forall id | id in d'.tables.messages ::
      d'.tables.messages[id].media.localPath
      == if id in d.tables.messages then d.tables.messages[id].media.localPath else None
  }

  lemma FirstKeepsFiles(d: Disk, id: string, pk: int, ev: Event, allowed: int, env: Env)
    ensures var first := FirstTx(d, id, pk, ev, env.now, allowed, env.fault, env.fts);
            first.disk.files == d.files && SameFiles(d, first.disk)
  {
  }

  // ---------------------------------------------------------------- tenants

  /** Every chat that the reader lists for a tenant is a loaded one whose group holds that tenant, whatever the keys of
      the file look like. */
  lemma ListedChatsAreOwned(f: Config.File, tenant: string, jid: string)
    requires Config.Loaded(f).Some? && Config.TenantGroupJIDsOf(f, tenant).Some?
    requires jid in Config.TenantGroupJIDsOf(f, tenant).value
    ensures Config.Holds(Config.Loaded(f).value, tenant, jid)
  {
    var i := ListedByEntry(Config.Entries(f.groups), tenant, jid);
    Config.EntriesOfAccepted(f);
    Config.GatherIs(Config.Ones(f.groups));
    assert Config.Ones(f.groups)[i] == Some(Config.Loaded(f).value[i]);
    assert Config.HasTenant(Config.Loaded(f).value[i], tenant);
  }

  lemma {:induction false} ListedByEntry(entries: seq<Config.Entry>, tenant: string, jid: string) returns (i: nat)
    requires Config.GatherJids(entries, tenant).Some? && jid in Config.GatherJids(entries, tenant).value
    ensures i < |entries| && entries[i].jid == jid != ""
    ensures entries[i].tenants.Some? && tenant in entries[i].tenants.value
    decreases |entries|
  {
    var front, last := entries[..|entries| - 1], entries[|entries| - 1];
    if jid in Config.GatherJids(front, tenant).value {
      i := ListedByEntry(front, tenant, jid);
    } else {
      i := |entries| - 1;
    }
  }

  /** A run with the reader's list prints only messages of chats whose loaded group holds the tenant. */
  lemma TenantSeesOwnChats(f: Config.File, tenant: string, messages: map<string, Row>, cutoff: int, answer: seq<string>,
                           m: Output.Msg)
    requires Config.Loaded(f).Some? && Config.TenantGroupJIDsOf(f, tenant).Some?
    requires Unseen.IsAnswer(messages, Config.TenantGroupJIDsOf(f, tenant).value, cutoff, answer)
    requires m in Unseen.Selected(messages, answer)
    ensures Config.Holds(Config.Loaded(f).value, tenant, m.chatJID)
  {
    Unseen.PrintedOfTenant(messages, Config.TenantGroupJIDsOf(f, tenant).value, cutoff, answer);
    ListedChatsAreOwned(f, tenant, m.chatJID);
  }

  // ---------------------------------------------------------------- from a write to the cursor

  /** A call that returns nil, or only failed to store the file, is a successful ingest for every reader, of its own
      time or a later one. */
  lemma WriteCountsAsIngest(d: Disk, root: string, allowed: int, ev: Event, env: Env)
    requires RunAccounting.AllMadeByDaemon(d.tables.runs)
    requires var o := WriteAlone(d, root, allowed, ev, env); o.error.None? || o.error == Some(MediaFailed)
    ensures var runs := WriteAlone(d, root, allowed, ev, env).disk.tables.runs;
            && RunAccounting.AllMadeByDaemon(runs)
            && Unseen.LatestOK(runs).Some? && Unseen.LatestOK(runs).value >= env.now
  {
    var o := WriteAlone(d, root, allowed, ev, env);
    WriteFacts(d, root, allowed, ev, env);
    WriteMakesRealRuns(d, root, allowed, ev, env);
    var k := RunID(o.result.id, env.now);
    assert k in o.disk.tables.runs && RunAccounting.MadeByDaemon(k, o.disk.tables.runs[k]);
    assert env.now in Unseen.OkTimes(o.disk.tables.runs);
  }

  lemma WriteMakesRealRuns(d: Disk, root: string, allowed: int, ev: Event, env: Env)
    requires RunAccounting.AllMadeByDaemon(d.tables.runs)
    ensures RunAccounting.AllMadeByDaemon(WriteAlone(d, root, allowed, ev, env).disk.tables.runs)
  {
    if !env.cancelled && Complete(ev) {
      var pk := ResolvePK(d.tables.messages, ev, env.lookupFails);
      var id := MessageID(KeyOfEvent(ev), pk);
      var first := FirstTx(d, id, pk, ev, env.now, allowed, env.fault, env.fts);
      FirstMakesRealRuns(d, id, pk, ev, allowed, env);
      RestKeepsRealRuns(first, id, FinalPath(root, ev), ev.mediaBytes, env);
    }
  }

  lemma FirstMakesRealRuns(d: Disk, id: string, pk: int, ev: Event, allowed: int, env: Env)
    requires RunAccounting.AllMadeByDaemon(d.tables.runs)
    ensures var first := FirstTx(d, id, pk, ev, env.now, allowed, env.fault, env.fts);
            RunAccounting.AllMadeByDaemon(first.disk.tables.runs)
  {
    var inserted, updated := InsertedFlag(d.tables.messages, id), UpdatedFlag(d.tables.messages, id, ev);
    RunAccounting.RecordMade(d.tables.runs, id, env.now, inserted, updated, ev.mediaBytes != [], allowed);
  }

  lemma MarksKeepRealRuns(t: Tables, id: string, runId: string, path: string, now: int)
    requires RunAccounting.AllMadeByDaemon(t.runs)
    ensures RunAccounting.AllMadeByDaemon(MarkOK(t, id, runId, path, now).runs)
    ensures RunAccounting.AllMadeByDaemon(MarkFailed(t, id, runId).runs)
  {
  }

  lemma RestKeepsRealRuns(first: FirstOutcome, id: string, path: string, body: Bytes, env: Env)
    requires RunAccounting.AllMadeByDaemon(first.disk.tables.runs)
    ensures RunAccounting.AllMadeByDaemon(AfterText(first, id, path, body, env).disk.tables.runs)
  {
    MarksKeepRealRuns(first.disk.tables, id, RunID(id, env.now), path, env.markNow);
    var d := first.disk.(files := MediaFilesAfter(first.disk.files, path, body, env.media));
    assert d.tables == first.disk.tables;
  }

  /** The latest ingest that the readers see, over runs that the daemon made: the latest second in which a run was
      closed, whichever call closed it. */
  lemma LatestIsLastOk(runs: map<string, Run>)
    requires RunAccounting.AllMadeByDaemon(runs)
    ensures Unseen.LatestOK(runs).None? <==> forall k | k in runs :: runs[k].status == "pending"
    ensures forall k | k in runs && runs[k].status == "ok" ::
              Unseen.LatestOK(runs).Some? && runs[k].startedAt <= Unseen.LatestOK(runs).value
    ensures Unseen.LatestOK(runs).Some? ==>
              exists k :: k in runs && runs[k].status == "ok" && runs[k].startedAt == Unseen.LatestOK(runs).value
  {
    forall k | k in runs && runs[k].status == "ok" ensures runs[k].startedAt in Unseen.OkTimes(runs) {
      assert RunAccounting.MadeByDaemon(k, runs[k]);
    }
    if Unseen.LatestOK(runs).Some? {
      var k :| k in runs && runs[k].status == "ok" && runs[k].finishedAt == Some(Unseen.LatestOK(runs).value);
      assert RunAccounting.MadeByDaemon(k, runs[k]);
    } else {
      forall k | k in runs ensures runs[k].status == "pending" {
        assert RunAccounting.MadeByDaemon(k, runs[k]);
      }
    }
  }

  /** So the cursor follows the writes: a run that meets no failure, after a write more than a minute later than its
      cursor, moves it to a minute before the latest ingest or to its own time, whichever is earlier. */
  lemma CursorFollowsWrites(d: Disk, root: string, allowed: int, ev: Event, env: Env, file: Unseen.StateFile,
                            e: Unseen.RunEnv, prior: int)
    requires RunAccounting.AllMadeByDaemon(d.tables.runs)
    requires var o := WriteAlone(d, root, allowed, ev, env); o.error.None? || o.error == Some(MediaFailed)
    requires Unseen.CursorIn(file) == Some(prior) && prior < env.now - 60
    requires e.jids.Some? && !e.noAdvance && !e.failQuery && !e.failIngest && !e.failWrite
    ensures var runs := WriteAlone(d, root, allowed, ev, env).disk.tables.runs;
            && Unseen.LatestOK(runs).Some?
            && var ingest := Unseen.LatestOK(runs).value;
               && ingest >= env.now
               && Unseen.FileAfter(file, runs, e)
                  == Unseen.Holding(FormatInt(if e.now < ingest - 60 then e.now else ingest - 60))
  {
    WriteCountsAsIngest(d, root, allowed, ev, env);
    CursorFollows(WriteAlone(d, root, allowed, ev, env).disk.tables.runs, file, e, prior);
  }

  lemma CursorFollows(runs: map<string, Run>, file: Unseen.StateFile, e: Unseen.RunEnv, prior: int)
    requires Unseen.CursorIn(file) == Some(prior)
    requires Unseen.LatestOK(runs).Some? && prior < Unseen.LatestOK(runs).value - 60
    requires e.jids.Some? && !e.noAdvance && !e.failQuery && !e.failIngest && !e.failWrite
    ensures var ingest := Unseen.LatestOK(runs).value;
            Unseen.FileAfter(file, runs, e)
            == Unseen.Holding(FormatInt(if e.now < ingest - 60 then e.now else ingest - 60))
  {
  }

  /** The constants of the reader: half an hour of overlap, and a day where there is no cursor yet. */
  lemma CutoffsInSeconds(now: int, file: Unseen.StateFile)
    requires !file.Unreadable?
    ensures Unseen.CursorIn(file).None? ==> Unseen.CutoffFor(now, file, None) == Some(now - 86400)
    ensures Unseen.CursorIn(file).Some? && INT64_MIN + 1800 <= Unseen.CursorIn(file).value ==>
              Unseen.CutoffFor(now, file, None)
              == Some(if Unseen.CursorIn(file).value < 1800 then 0 else Unseen.CursorIn(file).value - 1800)
    ensures Unseen.CutoffFor(now, file, Some(0.0)) == Some(0)
  {
  }

  /** And a run over some hours from that many times 3600 seconds ago, in whole seconds. */
  lemma HoursInSeconds(now: int, file: Unseen.StateFile, hours: real)
    requires hours != 0.0
    ensures Unseen.CutoffFor(now, file, Some(hours)).Some?
    ensures var cutoff, since := Unseen.CutoffFor(now, file, Some(hours)).value, now as real - hours * 3600.0;
            cutoff as real - 1.0 < since < cutoff as real + 1.0
  {
    Unseen.TruncateIs(now as real - hours * 3600.0);
  }

  /** A tenant's first run, without a cursor, writes one as soon as there was an ingest after 1970. */
  lemma FirstRunWritesCursor(runs: map<string, Run>, file: Unseen.StateFile, e: Unseen.RunEnv)
    requires file.Missing? || (file.Holding? && Unseen.CursorIn(file).None?)
    requires Unseen.LatestOK(runs).Some?
    requires e.jids.Some? && !e.noAdvance && !e.failQuery && !e.failIngest && !e.failWrite
    ensures var ingest := Unseen.LatestOK(runs).value;
            Unseen.FileAfter(file, runs, e)
            == if ingest <= 60 then file
               else Unseen.Holding(FormatInt(if e.now < ingest - 60 then e.now else ingest - 60))
  {
  }
}
