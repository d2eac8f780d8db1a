/** A backfill run has one ending: request and turns determine where it stands and why it ended. */
module Ending {
  import opened Text
  import opened Summary
  import opened Backfill

  lemma FollowsIsDetermined(x: Setting, before: seq<Chunk>, c: Chunk, c': Chunk)
    requires Follows(x, before, c) && Follows(x, before, c')
    ensures c == c'
  {
  }

  lemma NextIsSame(x: Setting, chunks: seq<Chunk>, chunks': seq<Chunk>, k: nat)
    requires Chain(x, chunks) && Chain(x, chunks') && k < |chunks| && k < |chunks'| && chunks[..k] == chunks'[..k]
    ensures chunks[k] == chunks'[k]
  {
    assert Follows(x, chunks[..k], chunks[k]) && Follows(x, chunks'[..k], chunks'[k]);
    FollowsIsDetermined(x, chunks[..k], chunks[k], chunks'[k]);
  }

  lemma OneLonger(chunks: seq<Chunk>, chunks': seq<Chunk>, k: nat)
    requires k < |chunks| && k < |chunks'| && chunks[..k] == chunks'[..k] && chunks[k] == chunks'[k]
    ensures chunks[..k + 1] == chunks'[..k + 1]
  {
    assert chunks[..k + 1] == chunks[..k] + [chunks[k]] && chunks'[..k + 1] == chunks'[..k] + [chunks'[k]];
  }

  lemma {:induction false} SamePrefix(x: Setting, chunks: seq<Chunk>, chunks': seq<Chunk>, k: nat)
    requires Chain(x, chunks) && Chain(x, chunks') && k <= |chunks| && k <= |chunks'|
    ensures chunks[..k] == chunks'[..k]
  {
    if k > 0 {
      SamePrefix(x, chunks, chunks', k - 1);
      NextIsSame(x, chunks, chunks', k - 1);
      OneLonger(chunks, chunks', k - 1);
    }
  }

  /** After these chunks the loop sends another request that is answered. */
  ghost predicate MayPageOn(x: Setting, chunks: seq<Chunk>) {
    && LastDigested(x, chunks) && Slept(x, chunks) && CanSend(x, chunks)
    && x.turns(|chunks|).sentOK && WaitResult(x.req.chatJID, x.turns(|chunks|).arrivals).Got?
  }

  lemma LongerPagesOn(x: Setting, chunks: seq<Chunk>, n: nat)
    requires Chain(x, chunks) && n <= |chunks|
    ensures n < |chunks| ==> MayPageOn(x, chunks[..n])
  {
    if n < |chunks| {
      assert Follows(x, chunks[..n], chunks[n]);
      if n > 0 {
        assert Digested(x.turns(n - 1), chunks[n - 1]) && x.turns(n - 1).sleepOK;
      }
    }
  }

  lemma EndedIsOver(x: Setting, s: Progress, e: Ending)
    requires EndedRun(x, s, e)
    ensures Chain(x, s.chunks) && !MayPageOn(x, s.chunks)
  {
  }

  /** A run that is over is not the beginning of a longer one. */
  lemma NoLonger(x: Setting, chunks: seq<Chunk>, longer: seq<Chunk>)
    requires Chain(x, chunks) && Chain(x, longer) && |chunks| <= |longer| && !MayPageOn(x, chunks)
    ensures chunks == longer
  {
    var n := |chunks|;
    SamePrefix(x, chunks, longer, n);
    assert chunks[..n] == chunks && longer[..|longer|] == longer;
    LongerPagesOn(x, longer, n);
  }

  lemma SameChunks(x: Setting, s: Progress, e: Ending, s': Progress, e': Ending)
    requires EndedRun(x, s, e) && EndedRun(x, s', e')
    ensures s.chunks == s'.chunks
  {
    EndedIsOver(x, s, e);
    EndedIsOver(x, s', e');
    if |s.chunks| <= |s'.chunks| {
      NoLonger(x, s.chunks, s'.chunks);
    } else {
      NoLonger(x, s'.chunks, s.chunks);
    }
  }

  lemma SameEnding(x: Setting, s: Progress, e: Ending, s': Progress, e': Ending)
    requires EndedRun(x, s, e) && EndedRun(x, s', e') && s.chunks == s'.chunks
    ensures e == e'
  {
  }

  lemma SameProgress(x: Setting, s: Progress, s': Progress, e: Ending)
    requires EndedRun(x, s, e) && EndedRun(x, s', e) && s.chunks == s'.chunks
    ensures s == s'
  {
  }

  /** The request and what the turns meet determine the whole outcome: every error that is met ends the run, each with
      its own ending, and nothing else does. */
  lemma EndingIsDetermined(x: Setting, s: Progress, e: Ending, s': Progress, e': Ending)
    requires Ended(x, s, e) && Ended(x, s', e')
    ensures s == s' && e == e'
  {
    if x.req.limit > 0 && InfoOK(x.jids, StartOf(x.req)) {
      SameChunks(x, s, e, s', e');
      SameEnding(x, s, e, s', e');
      SameProgress(x, s, s', e);
    }
  }

  predicate Blank(s: string) {
    TrimSpace(s) == ""
  }

  /** A run never starts exactly when its limit is not positive, or its anchor lacks a chat, a message id or a time, or
      names a chat, or a sender, that is no JID; the chat of the request stands in for a missing one. */
  lemma StartsExactly(x: Setting, s: Progress, e: Ending)
    requires Ended(x, s, e)
    ensures e == BadLimit <==> x.req.limit <= 0
    ensures var a := x.req.anchor;
            var chat := if a.chatJID == "" then x.req.chatJID else a.chatJID;
            e == BadAnchor
            <==> && x.req.limit > 0
                 && (Blank(chat) || Blank(a.msgID) || a.timestamp == 0 || chat !in x.jids
                     || (!Blank(a.senderJID) && a.senderJID !in x.jids))
  {
  }
}
