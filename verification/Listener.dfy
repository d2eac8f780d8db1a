/** From a parsed message to a stored row and a wake-up: listener.go and handleMessageFrom of auth.go. */
module Listener {
  import opened Text
  import opened Types
  import opened Store

  datatype Source = Live | HistorySync

  datatype Download = Downloaded(body: Bytes) | Expired | OtherFailure

  /** ApplyPolicy for a chat that is allowed. */
  function WithPolicy(ev: Event, g: Group): Event {
    var labelled := ev.(chatLabel := g.chatLabel);
    var texted := if g.ingestText then labelled else labelled.(text := "");
    var described := if g.ingestMediaMetadata then texted
                     else texted.(mediaType := "", mediaTitle := "", mediaPath := "", mediaURL := "", mediaSize := 0);
    if g.copyMedia then described else described.(mediaBytes := [])
  }

  /** What the download attempt of handleMessageFrom adds to an event. */
  function WithDownload(ev: Event, g: Group, hasMedia: bool, download: Download, source: Source): Event {
    if !g.copyMedia || !hasMedia then ev
    else match download
      case Downloaded(body) => ev.(mediaBytes := body)
      case Expired =>
        if source.HistorySync? then ev.(hydrationStatus := "failed: expired", hydrationAttempts := 1) else ev
      case OtherFailure => ev
  }

  /** OnCommitted is called for this outcome. */
  predicate Wakes(o: Outcome) {
    o.error.None? && (o.result.inserted || o.result.updated)
  }

  class Handler {
    const store: Writer
    var groups: map<string, Group>
    var wakes: seq<string>

    constructor (store: Writer, groups: map<string, Group>)
      ensures this.store == store && this.groups == groups && wakes == []
    {
      this.store, this.groups, wakes := store, groups, [];
    }

    method ApplyPolicy(ev: Event) returns (r: Event, ok: bool)
      ensures ok == (ev.chatJID in groups)
      ensures r == if ok then WithPolicy(ev, groups[ev.chatJID]) else ev
    {
      r := ev;
      if ev.chatJID !in groups {
        return r, false;
      }
      var g := groups[ev.chatJID];
      r := r.(chatLabel := g.chatLabel);
      if !g.ingestText {
        r := r.(text := "");
      }
      if !g.ingestMediaMetadata {
        r := r.(mediaType := "", mediaTitle := "", mediaPath := "", mediaURL := "", mediaSize := 0);
      }
      if !g.copyMedia {
        r := r.(mediaBytes := []);
      }
      ok := true;
    }

    /** A disallowed chat touches nothing; an allowed one wakes its subscribers exactly when Wakes says. */
    method HandleResult(ev: Event, env: Env) returns (accepted: bool, res: Result, err: Option<Error>)
      modifies this`wakes, store`messages, store`fts, store`runs, store`files, store`ftsUnavailable
      ensures accepted == (ev.chatJID in groups)
      ensures !accepted ==> store.State() == old(store.State()) && wakes == old(wakes) && err.None? && res == NO_RESULT
      ensures accepted ==>
                var o := WriteAlone(old(store.State()), store.mediaRoot, store.allowedGroupCount,
                                    WithPolicy(ev, groups[ev.chatJID]), env);
                && store.State() == o.disk
                && err == o.error
                && res == (if o.error.None? then o.result else NO_RESULT)
                && wakes == old(wakes) + if Wakes(o) then [ev.chatJID] else []
      ensures !(res.inserted && res.updated)
    {
      var policyEv, ok := ApplyPolicy(ev);
      if !ok {
        return false, NO_RESULT, None;
      }
      accepted := true;
      res, err := WriteAndWake(policyEv, env);
    }

    method WriteAndWake(ev: Event, env: Env) returns (res: Result, err: Option<Error>)
      modifies this`wakes, store`messages, store`fts, store`runs, store`files, store`ftsUnavailable
      ensures var o := WriteAlone(old(store.State()), store.mediaRoot, store.allowedGroupCount, ev, env);
              && store.State() == o.disk
              && err == o.error
              && res == (if o.error.None? then o.result else NO_RESULT)
              && wakes == old(wakes) + if Wakes(o) then [ev.chatJID] else []
      ensures !(res.inserted && res.updated)
    {
      WriteFacts(store.State(), store.mediaRoot, store.allowedGroupCount, ev, env);
      res, err := store.Write(ev, env);
      if err.Some? {
        return NO_RESULT, err;
      }
      if res.inserted || res.updated {
        wakes := wakes + [ev.chatJID];
      }
    }

    static method Download(ev: Event, g: Group, hasMedia: bool, download: Download, source: Source) returns (r: Event)
      ensures r == WithDownload(ev, g, hasMedia, download, source)
    {
      r := ev;
      if g.copyMedia && hasMedia {
        if download.Downloaded? {
          r := r.(mediaBytes := download.body);
        } else if source.HistorySync? && download.Expired? {
          r := r.(hydrationStatus := "failed: expired", hydrationAttempts := 1);
        }
      }
    }

    /** handleMessageFrom: policy, download, and then the whole of HandleResult, which applies the policy again. The
        allowlist may be reloaded in between. */
    method HandleMessage(ev: Event, hasMedia: bool, download: Download, source: Source,
                         reloaded: Option<map<string, Group>>, env: Env)
      returns (accepted: bool, res: Result, err: Option<Error>)
      modifies this`groups, this`wakes, store`messages, store`fts, store`runs, store`files, store`ftsUnavailable
      ensures groups == if ev.chatJID in old(groups) && reloaded.Some? then reloaded.value else old(groups)
      ensures accepted == (ev.chatJID in old(groups) && ev.chatJID in groups)
      ensures !accepted ==> store.State() == old(store.State()) && wakes == old(wakes) && err.None? && res == NO_RESULT
      ensures accepted ==>
                var sent := Outgoing(ev, old(groups)[ev.chatJID], groups[ev.chatJID], hasMedia, download, source);
                var o := WriteAlone(old(store.State()), store.mediaRoot, store.allowedGroupCount, sent, env);
                && store.State() == o.disk && wakes == old(wakes) + (if Wakes(o) then [ev.chatJID] else [])
                && err == o.error && res == (if o.error.None? then o.result else NO_RESULT)
      ensures !(res.inserted && res.updated)
    {
      var policyEv, ok := Prepare(ev, hasMedia, download, source);
      if !ok {
        return false, NO_RESULT, None;
      }
      if reloaded.Some? {
        groups := reloaded.value;
      }
      accepted, res, err := HandleResult(policyEv, env);
    }

    /** Up to the download. */
    method Prepare(ev: Event, hasMedia: bool, download: Download, source: Source) returns (r: Event, ok: bool)
      ensures ok == (ev.chatJID in groups)
      ensures ok ==>
                var g := groups[ev.chatJID];
                r == WithDownload(WithPolicy(ev, g), g, hasMedia, download, source)
      ensures ok ==> r.chatJID == ev.chatJID
    {
      r, ok := ApplyPolicy(ev);
      if ok {
        r := Download(r, groups[ev.chatJID], hasMedia, download, source);
      }
    }
  }

  /** The event that is written in the end, under the policy at the download and the one at the write. */
  function Outgoing(ev: Event, g: Group, later: Group, hasMedia: bool, download: Download, source: Source): Event {
    WithPolicy(WithDownload(WithPolicy(ev, g), g, hasMedia, download, source), later)
  }

  /** Applying the policy twice is applying it once, also after a download. */
  lemma PolicyIdempotent(ev: Event, g: Group, hasMedia: bool, download: Download, source: Source)
    ensures var sent := WithDownload(WithPolicy(ev, g), g, hasMedia, download, source);
            WithPolicy(sent, g) == sent
  {
  }

  /** What either policy forbids never reaches the store, what both allow is not lost, and the label is that of the
      later one. */
  lemma ForbiddenIsNeverStored(ev: Event, g: Group, later: Group, hasMedia: bool, download: Download, source: Source)
    requires ev.mediaBytes == []
    ensures var sent := Outgoing(ev, g, later, hasMedia, download, source);
            && sent.chatLabel == later.chatLabel
            && sent.text == (if g.ingestText && later.ingestText then ev.text else "")
            && (if g.ingestMediaMetadata && later.ingestMediaMetadata
                then (sent.mediaType, sent.mediaTitle, sent.mediaPath, sent.mediaURL, sent.mediaSize)
                     == (ev.mediaType, ev.mediaTitle, ev.mediaPath, ev.mediaURL, ev.mediaSize)
                else (sent.mediaType, sent.mediaTitle, sent.mediaPath, sent.mediaURL, sent.mediaSize)
                     == ("", "", "", "", 0))
            && sent.mediaBytes == (if g.copyMedia && later.copyMedia && hasMedia && download.Downloaded?
                                   then download.body else [])
            && (sent.msgID, sent.senderJID, sent.senderName, sent.timestamp,
                sent.fromMe, sent.rawType, sent.messageType)
               == (ev.msgID, ev.senderJID, ev.senderName, ev.timestamp, ev.fromMe, ev.rawType, ev.messageType)
  {
  }

  /** normalizeMessage leaves the source key, the status and the body empty, and only an expired history download sets
      a status. So what the daemon writes has no source key and no "ok" status, as the theorems about keys, replays and
      crashes ask; its file extension is the one it was given, which MediaSafety.DaemonTitles looks at. */
  lemma DaemonEvents(ev: Event, g: Group, later: Group, hasMedia: bool, download: Download, source: Source)
    requires ev.sourcePK == 0 && ev.hydrationStatus == "" && ev.hydrationAttempts == 0 && ev.mediaBytes == []
    ensures var sent := Outgoing(ev, g, later, hasMedia, download, source);
            && sent.sourcePK == 0 && sent.hydrationStatus in {"", "failed: expired"} && 0 <= sent.hydrationAttempts
            && sent.hydrationStatus != "ok" && sent.mediaExt == ev.mediaExt && sent.messageType == ev.messageType
            && sent.timestamp == ev.timestamp && sent.msgID == ev.msgID && sent.chatJID == ev.chatJID
            && (sent.mediaBytes != [] ==>
                  g.copyMedia && later.copyMedia && hasMedia && download == Downloaded(sent.mediaBytes))
            && (sent.mediaBytes != [] ==> sent.hydrationStatus == "")
  {
  }

  /** A status comes from one source only: an expired download of a history message with media, in a chat whose files
      are copied; it is one failed attempt. */
  lemma StatusExactly(ev: Event, g: Group, later: Group, hasMedia: bool, download: Download, source: Source)
    requires ev.hydrationStatus == "" && ev.hydrationAttempts == 0
    ensures var sent := Outgoing(ev, g, later, hasMedia, download, source);
            && (sent.hydrationStatus == "failed: expired" || sent.hydrationStatus == "")
            && (sent.hydrationStatus == "failed: expired" <==>
                  g.copyMedia == true && hasMedia == true && download == Expired && source == HistorySync)
            && sent.hydrationAttempts == (if sent.hydrationStatus == "" then 0 else 1)
  {
  }

  /** When a stored text wakes nobody. Of a call whose text was committed, subscribers are woken exactly when
      the file part did not fail and the row is new, has a new text or title, a status or a body; so a media
      failure suppresses the wake of a row that is already there. */
  lemma WakesExactly(d: Disk, id: string, pk: int, ev: Event, allowed: int, path: string, env: Env)
    requires FirstTx(d, id, pk, ev, env.now, allowed, env.fault, env.fts).committed
    ensures var first := FirstTx(d, id, pk, ev, env.now, allowed, env.fault, env.fts);
            var o := AfterText(first, id, path, ev.mediaBytes, env);
            && id in o.disk.tables.messages && o.disk.tables.messages[id].content == ContentOf(ev)
            && (Wakes(o) <==>
                  && (ev.mediaBytes == [] || (env.media.Renamed? && !env.markFails))
                  && (id !in d.tables.messages || ev.mediaBytes != [] || ev.hydrationStatus != ""
                      || d.tables.messages[id].content.textHash != TextHash(ev.text, ev.mediaTitle)))
  {
  }
}
