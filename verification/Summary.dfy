/** History-sync summaries of backfill.go: what one event says about a chat, and how summaries are merged. */
module Summary {
  import opened Text

  datatype Anchor = Anchor(chatJID: string, msgID: string, senderJID: string, timestamp: int, fromMe: bool)

  const NO_ANCHOR := Anchor("", "", "", 0, false)

  /** A web message; keyID is "" when the key is missing, and timestamp is the uint64 of the protocol. */
  datatype WebMessage = WebMessage(
    keyID: string,
    remoteJID: string,
    participant: string,
    fromMe: bool,
    hasBody: bool,
    hasMedia: bool,
    timestamp: nat)

  datatype Conversation = Conversation(id: string, messages: seq<Option<WebMessage>>)

  datatype Event = Event(syncType: string, conversations: seq<Option<Conversation>>)

  const PRUNE_AGE: int := 30 * 24 * 3600

  /** int64(uint64) */
  function AsInt64(n: nat): int {
    var m := n % 0x1_0000_0000_0000_0000;
    if m <= INT64_MAX then m else m - 0x1_0000_0000_0000_0000
  }

  predicate Valid(m: Option<WebMessage>) {
    m.Some? && m.value.keyID != "" && m.value.hasBody && AsInt64(m.value.timestamp) != 0
  }

  predicate SameUTCDay(a: int, b: int) {
    a != 0 && b != 0 && a / 86400 == b / 86400
  }

  /** Two times are on one day exactly when both are given and one midnight is at or before both and less than a day
      before either. */
  lemma SameDayExactly(a: int, b: int)
    ensures SameUTCDay(a, b)
        <==> && a != 0 && b != 0
             && exists day: int :: day * 86400 <= a < (day + 1) * 86400 && day * 86400 <= b < (day + 1) * 86400
  {
    if SameUTCDay(a, b) {
      assert (a / 86400) * 86400 <= a < (a / 86400 + 1) * 86400;
    }
  }

  /** AnchorFromWebMessage of a valid message. */
  function AnchorOf(chatJID: string, m: WebMessage): Anchor {
    Anchor(if chatJID == "" then m.remoteJID else chatJID,
           m.keyID,
           if m.participant == "" && !m.fromMe then m.remoteJID else m.participant,
           AsInt64(m.timestamp),
           m.fromMe)
  }

  /** The anchor of a message: the chat it was found in or else the one it names, its key, its time as an int64, and the
      participant, for which the chat it names stands in when none is given and the message is not the account's own. */
  lemma AnchorIs(chatJID: string, m: WebMessage)
    ensures var a := AnchorOf(chatJID, m);
            && a.msgID == m.keyID && a.fromMe == m.fromMe
            && (chatJID != "" ==> a.chatJID == chatJID) && (chatJID == "" ==> a.chatJID == m.remoteJID)
            && (m.participant != "" ==> a.senderJID == m.participant)
            && (m.participant == "" && m.fromMe == false ==> a.senderJID == m.remoteJID)
            && (m.participant == "" && m.fromMe == true ==> a.senderJID == "")
            && (m.timestamp < 9223372036854775808 ==> a.timestamp == m.timestamp)
  {
  }

  /** int64(uint64) keeps the bits: the number differs by a multiple of 2^64. */
  lemma AsInt64Is(n: nat)
    ensures IsInt64(AsInt64(n)) && exists k: int :: AsInt64(n) == n + k * 18446744073709551616
  {
    var q := n / 0x1_0000_0000_0000_0000;
    assert AsInt64(n) == n + (-q) * 18446744073709551616 || AsInt64(n) == n + (-q - 1) * 18446744073709551616;
  }

  /** Everything but the sync type and the chat list. */
  datatype Core = Core(
    conversations: int,
    messages: int,
    requested: int,
    media: int,
    pruned: int,
    min: int,
    max: int,
    containsRequested: bool,
    sameDay: bool,
    oldest: Anchor,
    found: bool)

  datatype Summary = Summary(syncType: string, core: Core, chatJIDs: seq<string>)

  const ZERO := Core(0, 0, 0, 0, 0, 0, 0, false, false, NO_ANCHOR, false)

  const EMPTY := Summary("", ZERO, [])

  /** What a summary is taken against; now is None for the zero time. */
  datatype Frame = Frame(anchor: int, chat: string, now: Option<int>)

  /** A core and the chats seen so far. */
  datatype Acc = Acc(core: Core, chats: set<string>)

  // ---------------------------------------------------------------- the loops

  function AddMessage(f: Frame, chatJID: string, c: Core, m: Option<WebMessage>): Core {
    if !Valid(m) then c
    else
      var ts, requested := AsInt64(m.value.timestamp), chatJID == f.chat;
      var aged := m.value.hasMedia && f.now.Some? && f.now.value - ts >= PRUNE_AGE;
      var takes := requested && (!c.found || ts < c.oldest.timestamp);
      c.(messages := c.messages + 1,
         min := if c.min == 0 || ts < c.min then ts else c.min,
         max := if ts > c.max then ts else c.max,
         media := c.media + if m.value.hasMedia then 1 else 0,
         pruned := c.pruned + if aged then 1 else 0,
         sameDay := c.sameDay || (SameUTCDay(ts, f.anchor) && ts < f.anchor),
         requested := c.requested + if requested then 1 else 0,
         oldest := if takes then AnchorOf(chatJID, m.value) else c.oldest,
         found := c.found || requested)
  }

  function AddMessages(f: Frame, chatJID: string, c: Core, ms: seq<Option<WebMessage>>): Core {
    if ms == [] then c else AddMessage(f, chatJID, AddMessages(f, chatJID, c, ms[..|ms| - 1]), ms[|ms| - 1])
  }

  /** The requested chat is contained once a conversation has its id. */
  function Flagged(f: Frame, c: Core, id: string): Core {
    c.(containsRequested := c.containsRequested || id == f.chat)
  }

  function AddConversation(f: Frame, a: Acc, conv: Option<Conversation>): Acc {
    var counted := a.core.(conversations := a.core.conversations + 1);
    if conv.None? then Acc(counted, a.chats)
    else
      var id := conv.value.id;
      Acc(AddMessages(f, id, Flagged(f, counted, id), conv.value.messages),
          if id == "" then a.chats else a.chats + {id})
  }

  function Fold(f: Frame, convs: seq<Option<Conversation>>): Acc {
    if convs == [] then Acc(ZERO, {}) else AddConversation(f, Fold(f, convs[..|convs| - 1]), convs[|convs| - 1])
  }

  // ---------------------------------------------------------------- sorted lists

  predicate Sorted(s: seq<string>) {
    forall i, j | 0 <= i < j < |s| :: Less(s[i], s[j])
  }

  lemma SomeString(s: set<string>)
    ensures s == {} || exists x: string :: x in s
  {
    if !exists x: string :: x in s {
      assert s == {};
    }
  }

  predicate IsLeast(m: string, s: set<string>) {
    m in s && forall x | x in s :: x == m || Less(m, x)
  }

  lemma {:induction false} HasLeast(s: set<string>)
    requires s != {}
    ensures exists m: string :: IsLeast(m, s)
    decreases |s|
  {
    SomeString(s);
    var x: string :| x in s;
    var rest := s - {x};
    assert forall y | y in s :: y == x || y in rest;
    if rest == {} {
      assert IsLeast(x, s);
    } else {
      HasLeast(rest);
      var m: string :| IsLeast(m, rest);
      LessTotal(x, m);
      if Less(x, m) {
        forall y | y in s && y != x ensures Less(x, y) {
          if y != m { LessTransitive(x, m, y); }
        }
        assert IsLeast(x, s);
      } else {
        assert IsLeast(m, s);
      }
    }
  }

  lemma LeastUnique(a: string, b: string, s: set<string>)
    requires IsLeast(a, s) && IsLeast(b, s)
    ensures a == b
  {
    if a != b {
      LessTransitive(a, b, a);
      LessIrreflexive(a);
    }
  }

  function Least(s: set<string>): (m: string)
    requires s != {}
    ensures IsLeast(m, s)
  {
    HasLeast(s);
    assert forall a, b | IsLeast(a, s) && IsLeast(b, s) :: a == b by {
      forall a, b | IsLeast(a, s) && IsLeast(b, s) ensures a == b { LeastUnique(a, b, s); }
    }
    var m: string :| IsLeast(m, s);
    m
  }

  /** sort.Strings of the members of a set. */
  function SortedList(s: set<string>): (r: seq<string>)
    ensures Sorted(r) && (forall x :: x in r <==> x in s)
    decreases |s|
  {
    if s == {} then []
    else
      var m := Least(s);
      var rest := SortedList(s - {m});
      assert forall x | x in rest :: Less(m, x);
      [m] + rest
  }

  function ToSet(s: seq<string>): set<string> {
    set x | x in s
  }

  /** A strictly sorted list is the sorted list of its members. */
  lemma {:induction false} SortedIsSortedList(s: seq<string>)
    requires Sorted(s)
    ensures SortedList(ToSet(s)) == s
    decreases |s|
  {
    if s != [] {
      var head, tail := s[0], s[1..];
      forall x | x in ToSet(s) ensures x == head || Less(head, x) {
        var i :| 0 <= i < |s| && s[i] == x;
      }
      assert IsLeast(head, ToSet(s));
      LeastUnique(head, Least(ToSet(s)), ToSet(s));
      LessIrreflexive(head);
      assert forall i | 0 <= i < |tail| :: Less(head, tail[i]);
      assert head !in tail;
      assert ToSet(s) - {head} == ToSet(tail) by {
        forall x ensures x in ToSet(s) - {head} <==> x in ToSet(tail) {
          assert s == [head] + tail;
        }
      }
      SortedIsSortedList(tail);
    }
  }

  lemma SortedListSet(s: set<string>)
    ensures ToSet(SortedList(s)) == s
  {
  }

  // ---------------------------------------------------------------- summarize and merge

  function Finish(syncType: string, a: Acc): Summary {
    Summary(syncType, a.core, SortedList(a.chats))
  }

  /** SummarizeHistorySync */
  function Summarize(f: Frame, evt: Option<Event>): Summary {
    if evt.None? then Summary("unknown", ZERO, []) else Finish(evt.value.syncType, Fold(f, evt.value.conversations))
  }

  method SummarizeHistorySync(f: Frame, evt: Option<Event>) returns (s: Summary)
    ensures s == Summarize(f, evt)
  {
    if evt.None? {
      return Summary("unknown", ZERO, []);
    }
    var convs := evt.value.conversations;
    var core, chatSet := ZERO, {};
    var i := 0;
    while i < |convs|
      invariant 0 <= i <= |convs|
      invariant Acc(core, chatSet) == Fold(f, convs[..i])
    {
      assert convs[..i + 1][..i] == convs[..i];
      core := core.(conversations := core.conversations + 1);
      var conv := convs[i];
      if conv.Some? {
        var chatJID := conv.value.id;
        if chatJID != "" {
          chatSet := chatSet + {chatJID};
        }
        if chatJID == f.chat {
          core := core.(containsRequested := true);
        }
        core := SummarizeMessages(f, chatJID, core, conv.value.messages);
      }
      i := i + 1;
    }
    assert convs[..i] == convs;
    s := Summary(evt.value.syncType, core, SortedList(chatSet));
  }

  /** The inner loop. */
  method SummarizeMessages(f: Frame, chatJID: string, core: Core, ms: seq<Option<WebMessage>>) returns (c: Core)
    ensures c == AddMessages(f, chatJID, core, ms)
  {
    c := core;
    var i := 0;
    while i < |ms|
      invariant 0 <= i <= |ms|
      invariant c == AddMessages(f, chatJID, core, ms[..i])
    {
      assert ms[..i + 1][..i] == ms[..i];
      if Valid(ms[i]) {
        c := SummarizeMessage(f, chatJID, c, ms[i].value);
      }
      i := i + 1;
    }
    assert ms[..i] == ms;
  }

  /** Its body, on a valid message. */
  method SummarizeMessage(f: Frame, chatJID: string, core: Core, m: WebMessage) returns (c: Core)
    requires Valid(Some(m))
    ensures c == AddMessage(f, chatJID, core, Some(m))
  {
    var ts := AsInt64(m.timestamp);
    var min, max, media, pruned := core.min, core.max, core.media, core.pruned;
    if min == 0 || ts < min {
      min := ts;
    }
    if ts > max {
      max := ts;
    }
    if m.hasMedia {
      media := media + 1;
      if f.now.Some? && f.now.value - ts >= PRUNE_AGE {
        pruned := pruned + 1;
      }
    }
    var sameDay, requested, oldest, found := core.sameDay, core.requested, core.oldest, core.found;
    if SameUTCDay(ts, f.anchor) && ts < f.anchor {
      sameDay := true;
    }
    if chatJID == f.chat {
      requested := requested + 1;
      if !found || ts < oldest.timestamp {
        oldest, found := AnchorOf(chatJID, m), true;
      }
    }
    c := Core(core.conversations, core.messages + 1, requested, media, pruned, min, max, core.containsRequested,
              sameDay, oldest, found);
  }

  function MergeCores(a: Core, b: Core): Core {
    var takes := b.found && (!a.found || b.oldest.timestamp < a.oldest.timestamp);
    Core(a.conversations + b.conversations,
         a.messages + b.messages,
         a.requested + b.requested,
         a.media + b.media,
         a.pruned + b.pruned,
         if a.min == 0 || (b.min != 0 && b.min < a.min) then b.min else a.min,
         if b.max > a.max then b.max else a.max,
         a.containsRequested || b.containsRequested,
         a.sameDay || b.sameDay,
         if takes then b.oldest else a.oldest,
         a.found || takes)
  }

  /** MergeSummaries */
  function Merge(a: Summary, b: Summary): Summary {
    Summary(if a.syncType == "" then b.syncType else a.syncType,
            MergeCores(a.core, b.core),
            SortedList(ToSet(a.chatJIDs) + ToSet(b.chatJIDs)))
  }

  method MergeSummaries(a: Summary, b: Summary) returns (r: Summary)
    ensures r == Merge(a, b)
  {
    var core := MergeCounts(a.core, b.core);
    var chatSet := Collect({}, a.chatJIDs);
    chatSet := Collect(chatSet, b.chatJIDs);
    r := Summary(if a.syncType == "" then b.syncType else a.syncType, core, SortedList(chatSet));
    assert {} + ToSet(a.chatJIDs) == ToSet(a.chatJIDs);
  }

  method MergeCounts(a: Core, b: Core) returns (c: Core)
    ensures c == MergeCores(a, b)
  {
    var min, max, oldest, found := a.min, a.max, a.oldest, a.found;
    if min == 0 || (b.min != 0 && b.min < min) {
      min := b.min;
    }
    if b.max > max {
      max := b.max;
    }
    if b.found && (!found || b.oldest.timestamp < oldest.timestamp) {
      oldest, found := b.oldest, true;
    }
    c := Core(a.conversations + b.conversations, a.messages + b.messages, a.requested + b.requested, a.media + b.media,
              a.pruned + b.pruned, min, max, a.containsRequested || b.containsRequested, a.sameDay || b.sameDay,
              oldest, found);
  }

  /** One of the two loops that fill the chat set. */
  method Collect(before: set<string>, jids: seq<string>) returns (r: set<string>)
    ensures r == before + ToSet(jids)
  {
    r := before;
    var i := 0;
    while i < |jids|
      invariant 0 <= i <= |jids|
      invariant r == before + ToSet(jids[..i])
    {
      assert jids[..i + 1] == jids[..i] + [jids[i]];
      r := r + {jids[i]};
      i := i + 1;
    }
    assert jids[..i] == jids;
  }

  // ---------------------------------------------------------------- the homomorphism

  lemma MergeMessage(f: Frame, chatJID: string, a: Core, b: Core, m: Option<WebMessage>)
    ensures MergeCores(a, AddMessage(f, chatJID, b, m)) == AddMessage(f, chatJID, MergeCores(a, b), m)
  {
  }

  lemma {:induction false} MergeMessages(f: Frame, chatJID: string, a: Core, b: Core, ms: seq<Option<WebMessage>>)
    ensures MergeCores(a, AddMessages(f, chatJID, b, ms)) == AddMessages(f, chatJID, MergeCores(a, b), ms)
    decreases |ms|
  {
    if ms != [] {
      MergeMessages(f, chatJID, a, b, ms[..|ms| - 1]);
      MergeMessage(f, chatJID, a, AddMessages(f, chatJID, b, ms[..|ms| - 1]), ms[|ms| - 1]);
    }
  }

  function MergeAccs(a: Acc, b: Acc): Acc {
    Acc(MergeCores(a.core, b.core), a.chats + b.chats)
  }

  lemma MergeConversation(f: Frame, a: Acc, b: Acc, conv: Option<Conversation>)
    ensures MergeAccs(a, AddConversation(f, b, conv)) == AddConversation(f, MergeAccs(a, b), conv)
  {
    if conv.Some? {
      var id := conv.value.id;
      var counted := b.core.(conversations := b.core.conversations + 1);
      MergeMessages(f, id, a.core, Flagged(f, counted, id), conv.value.messages);
      assert a.chats + (b.chats + {id}) == (a.chats + b.chats) + {id};
    }
  }

  lemma {:induction false} FoldConcat(f: Frame, x: seq<Option<Conversation>>, y: seq<Option<Conversation>>)
    ensures Fold(f, x + y) == MergeAccs(Fold(f, x), Fold(f, y))
    decreases |y|
  {
    if y == [] {
      assert x + y == x;
      RightZero(Fold(f, x), f, x);
    } else {
      assert (x + y)[..|x + y| - 1] == x + y[..|y| - 1];
      FoldConcat(f, x, y[..|y| - 1]);
      MergeConversation(f, Fold(f, x), Fold(f, y[..|y| - 1]), y[|y| - 1]);
    }
  }

  lemma RightZero(a: Acc, f: Frame, x: seq<Option<Conversation>>)
    requires a == Fold(f, x)
    ensures MergeAccs(a, Acc(ZERO, {})) == a
  {
    MaxNonNegative(f, x);
    ZeroExactly(a.core);
    assert a.chats + {} == a.chats;
  }

  lemma ZeroExactly(c: Core)
    ensures MergeCores(c, ZERO) == c <==> c.max >= 0
    ensures MergeCores(ZERO, c) == c <==> c.max >= 0 && (!c.found ==> c.oldest == NO_ANCHOR)
  {
  }

  lemma {:induction false} MaxGrows(f: Frame, chatJID: string, c: Core, ms: seq<Option<WebMessage>>)
    ensures AddMessages(f, chatJID, c, ms).max >= c.max
    decreases |ms|
  {
    if ms != [] {
      MaxGrows(f, chatJID, c, ms[..|ms| - 1]);
    }
  }

  lemma {:induction false} MaxNonNegative(f: Frame, convs: seq<Option<Conversation>>)
    ensures Fold(f, convs).core.max >= 0
    decreases |convs|
  {
    if convs != [] {
      MaxNonNegative(f, convs[..|convs| - 1]);
      var a, conv := Fold(f, convs[..|convs| - 1]), convs[|convs| - 1];
      if conv.Some? {
        var counted := a.core.(conversations := a.core.conversations + 1);
        MaxGrows(f, conv.value.id, Flagged(f, counted, conv.value.id), conv.value.messages);
      }
    }
  }

  lemma ListsMerge(x: set<string>, y: set<string>)
    ensures SortedList(ToSet(SortedList(x)) + ToSet(SortedList(y))) == SortedList(x + y)
  {
    SortedListSet(x);
    SortedListSet(y);
  }

  /** Summarizing two batches and merging is summarizing the batches together: counts, the zero-sentinel
      minimum, the earliest-wins tie on the oldest anchor, the sorted chat list. */
  lemma SummaryIsHomomorphism(f: Frame, syncType: string, x: seq<Option<Conversation>>, y: seq<Option<Conversation>>)
    ensures Merge(Summarize(f, Some(Event(syncType, x))), Summarize(f, Some(Event(syncType, y))))
         == Summarize(f, Some(Event(syncType, x + y)))
  {
    FoldConcat(f, x, y);
    FinishMerges(syncType, Fold(f, x), Fold(f, y));
  }

  lemma FinishMerges(syncType: string, a: Acc, b: Acc)
    ensures Merge(Finish(syncType, a), Finish(syncType, b)) == Finish(syncType, MergeAccs(a, b))
  {
    ListsMerge(a.chats, b.chats);
  }

  lemma CoresAssociative(a: Core, b: Core, c: Core)
    ensures MergeCores(MergeCores(a, b), c) == MergeCores(a, MergeCores(b, c))
  {
  }

  /** Merging is associative on all summaries. */
  lemma MergeAssociative(a: Summary, b: Summary, c: Summary)
    ensures Merge(Merge(a, b), c) == Merge(a, Merge(b, c))
  {
    CoresAssociative(a.core, b.core, c.core);
    SortedListSet(ToSet(a.chatJIDs) + ToSet(b.chatJIDs));
    SortedListSet(ToSet(b.chatJIDs) + ToSet(c.chatJIDs));
    UnionAssociative(ToSet(a.chatJIDs), ToSet(b.chatJIDs), ToSet(c.chatJIDs));
  }

  lemma UnionAssociative(x: set<string>, y: set<string>, z: set<string>)
    ensures (x + y) + z == x + (y + z)
  {
  }

  /** A chat list survives a merge with nothing exactly when it is strictly sorted. */
  lemma ListKeptExactly(jids: seq<string>)
    ensures SortedList(ToSet([]) + ToSet(jids)) == jids <==> Sorted(jids)
    ensures SortedList(ToSet(jids) + ToSet([])) == jids <==> Sorted(jids)
  {
    assert ToSet([]) + ToSet(jids) == ToSet(jids) && ToSet(jids) + ToSet([]) == ToSet(jids);
    if Sorted(jids) {
      SortedIsSortedList(jids);
    }
  }

  /** The empty summary is a left identity exactly for summaries such as the code builds. */
  lemma LeftIdentityExactly(s: Summary)
    ensures Merge(EMPTY, s) == s
        <==> Sorted(s.chatJIDs) && s.core.max >= 0 && (!s.core.found ==> s.core.oldest == NO_ANCHOR)
  {
    ZeroExactly(s.core);
    ListKeptExactly(s.chatJIDs);
  }

  /** And a right identity exactly for those with a sorted chat list and no negative maximum. */
  lemma RightIdentityExactly(s: Summary)
    ensures Merge(s, EMPTY) == s <==> Sorted(s.chatJIDs) && s.core.max >= 0
  {
    ZeroExactly(s.core);
    ListKeptExactly(s.chatJIDs);
  }

  // ---------------------------------------------------------------- what the oldest anchor is

  function AnchorsIn(f: Frame, chatJID: string, ms: seq<Option<WebMessage>>): seq<Anchor> {
    if ms == [] then []
    else
      var last := ms[|ms| - 1];
      AnchorsIn(f, chatJID, ms[..|ms| - 1])
      + if Valid(last) && chatJID == f.chat then [AnchorOf(chatJID, last.value)] else []
  }

  /** The valid messages of the requested chat, in the order of the event. */
  function Requested(f: Frame, convs: seq<Option<Conversation>>): seq<Anchor> {
    if convs == [] then []
    else
      var last := convs[|convs| - 1];
      Requested(f, convs[..|convs| - 1]) + if last.Some? then AnchorsIn(f, last.value.id, last.value.messages) else []
  }

  /** The core knows how many there are and which is the earliest of the oldest ones. */
  predicate Tracks(c: Core, anchors: seq<Anchor>) {
    && c.requested == |anchors|
    && (c.found <==> anchors != [])
    && (c.found ==> exists i :: 0 <= i < |anchors| && IsOldest(anchors, i, c.oldest))
  }

  predicate IsOldest(anchors: seq<Anchor>, i: nat, oldest: Anchor)
    requires i < |anchors|
  {
    && anchors[i] == oldest
    && (forall j | 0 <= j < i :: oldest.timestamp < anchors[j].timestamp)
    && (forall j | i < j < |anchors| :: oldest.timestamp <= anchors[j].timestamp)
  }

  lemma TracksOne(f: Frame, chatJID: string, c: Core, m: Option<WebMessage>, anchors: seq<Anchor>)
    requires Tracks(c, anchors)
    ensures Tracks(AddMessage(f, chatJID, c, m),
                   anchors + if Valid(m) && chatJID == f.chat then [AnchorOf(chatJID, m.value)] else [])
  {
    if Valid(m) && chatJID == f.chat {
      var a := AnchorOf(chatJID, m.value);
      var longer := anchors + [a];
      if !c.found || a.timestamp < c.oldest.timestamp {
        if c.found {
          var i :| 0 <= i < |anchors| && IsOldest(anchors, i, c.oldest);
        }
        assert IsOldest(longer, |anchors|, a);
      } else {
        var i :| 0 <= i < |anchors| && IsOldest(anchors, i, c.oldest);
        assert IsOldest(longer, i, c.oldest);
      }
    } else {
      assert anchors + [] == anchors;
    }
  }

  lemma {:induction false} TracksMessages(f: Frame, chatJID: string, c: Core, ms: seq<Option<WebMessage>>,
                                          anchors: seq<Anchor>)
    requires Tracks(c, anchors)
    ensures Tracks(AddMessages(f, chatJID, c, ms), anchors + AnchorsIn(f, chatJID, ms))
    decreases |ms|
  {
    if ms == [] {
      assert anchors + [] == anchors;
    } else {
      var front, last := ms[..|ms| - 1], ms[|ms| - 1];
      TracksMessages(f, chatJID, c, front, anchors);
      TracksOne(f, chatJID, AddMessages(f, chatJID, c, front), last, anchors + AnchorsIn(f, chatJID, front));
      var more := if Valid(last) && chatJID == f.chat then [AnchorOf(chatJID, last.value)] else [];
      assert (anchors + AnchorsIn(f, chatJID, front)) + more == anchors + (AnchorsIn(f, chatJID, front) + more);
    }
  }

  /** The summary's oldest anchor is the first among the oldest valid messages of the requested chat, and it is
      there exactly when there is such a message. */
  lemma {:induction false} OldestIsOldest(f: Frame, convs: seq<Option<Conversation>>)
    ensures Tracks(Fold(f, convs).core, Requested(f, convs))
    decreases |convs|
  {
    if convs != [] {
      var front, last := convs[..|convs| - 1], convs[|convs| - 1];
      OldestIsOldest(f, front);
      var a := Fold(f, front);
      var counted := a.core.(conversations := a.core.conversations + 1);
      if last.Some? {
        var flagged := Flagged(f, counted, last.value.id);
        assert Tracks(flagged, Requested(f, front));
        TracksMessages(f, last.value.id, flagged, last.value.messages, Requested(f, front));
      } else {
        assert Requested(f, front) + [] == Requested(f, front);
      }
    }
  }

  // ---------------------------------------------------------------- what the other fields are

  /** What a valid message contributes. */
  datatype Seen = Seen(time: int, media: bool)

  function SeenIn(ms: seq<Option<WebMessage>>): seq<Seen> {
    if ms == [] then []
    else
      var last := ms[|ms| - 1];
      SeenIn(ms[..|ms| - 1]) + if Valid(last) then [Seen(AsInt64(last.value.timestamp), last.value.hasMedia)] else []
  }

  /** The valid messages of all conversations, in the order of the event. */
  function AllSeen(convs: seq<Option<Conversation>>): seq<Seen> {
    if convs == [] then []
    else
      var last := convs[|convs| - 1];
      AllSeen(convs[..|convs| - 1]) + if last.Some? then SeenIn(last.value.messages) else []
  }

  function MediaIn(ms: seq<Seen>): nat {
    if ms == [] then 0 else MediaIn(ms[..|ms| - 1]) + if ms[|ms| - 1].media then 1 else 0
  }

  /** Those that are thirty days old. */
  function AgedIn(f: Frame, ms: seq<Seen>): nat {
    if ms == [] then 0
    else
      var last := ms[|ms| - 1];
      AgedIn(f, ms[..|ms| - 1]) + if last.media && f.now.Some? && f.now.value - last.time >= 2592000 then 1 else 0
  }

  predicate HasTime(ms: seq<Seen>, t: int) {
    exists i :: 0 <= i < |ms| && ms[i].time == t
  }

  /** The least time, or 0 when there is none. */
  predicate IsMin(x: int, ms: seq<Seen>) {
    (if ms == [] then x == 0 else x != 0 && HasTime(ms, x)) && forall i | 0 <= i < |ms| :: x <= ms[i].time
  }

  /** The greatest time, but never below 0. */
  predicate IsMax(x: int, ms: seq<Seen>) {
    x >= 0 && (x == 0 || HasTime(ms, x)) && forall i | 0 <= i < |ms| :: ms[i].time <= x
  }

  predicate Earlier(anchor: int, t: int) {
    SameUTCDay(t, anchor) && t < anchor
  }

  predicate SomeEarlier(anchor: int, ms: seq<Seen>) {
    exists i :: 0 <= i < |ms| && Earlier(anchor, ms[i].time)
  }

  /** The fields of a core that are not about the requested chat alone, in terms of the messages. */
  predicate Describes(f: Frame, c: Core, ms: seq<Seen>) {
    && c.messages == |ms| && c.media == MediaIn(ms) && c.pruned == AgedIn(f, ms)
    && IsMin(c.min, ms) && IsMax(c.max, ms)
    && (c.sameDay <==> SomeEarlier(f.anchor, ms))
  }

  lemma OneMoreTime(ms: seq<Seen>, m: Seen, t: int)
    ensures HasTime(ms + [m], t) <==> HasTime(ms, t) || m.time == t
  {
    var longer := ms + [m];
    assert longer[|ms|] == m;
    if HasTime(ms, t) {
      var i :| 0 <= i < |ms| && ms[i].time == t;
      assert longer[i] == ms[i];
    }
  }

  lemma MinOne(x: int, ms: seq<Seen>, m: Seen)
    requires IsMin(x, ms) && m.time != 0
    ensures IsMin(if x == 0 || m.time < x then m.time else x, ms + [m])
  {
    OneMoreTime(ms, m, x);
    OneMoreTime(ms, m, m.time);
  }

  lemma MaxOne(x: int, ms: seq<Seen>, m: Seen)
    requires IsMax(x, ms)
    ensures IsMax(if m.time > x then m.time else x, ms + [m])
  {
    OneMoreTime(ms, m, x);
    OneMoreTime(ms, m, m.time);
  }

  lemma EarlierOne(anchor: int, ms: seq<Seen>, m: Seen)
    ensures SomeEarlier(anchor, ms + [m]) <==> SomeEarlier(anchor, ms) || Earlier(anchor, m.time)
  {
    var longer := ms + [m];
    assert longer[|ms|] == m;
    if SomeEarlier(anchor, ms) {
      var i :| 0 <= i < |ms| && Earlier(anchor, ms[i].time);
      assert longer[i] == ms[i];
    }
  }

  lemma CountOne(f: Frame, ms: seq<Seen>, m: Seen)
    ensures MediaIn(ms + [m]) == MediaIn(ms) + if m.media then 1 else 0
    ensures AgedIn(f, ms + [m])
         == AgedIn(f, ms) + if m.media && f.now.Some? && f.now.value - m.time >= PRUNE_AGE then 1 else 0
  {
    assert (ms + [m])[..|ms + [m]| - 1] == ms;
  }

  lemma DescribesOne(f: Frame, chatJID: string, c: Core, m: WebMessage, ms: seq<Seen>, s: Seen)
    requires Describes(f, c, ms) && Valid(Some(m)) && s == Seen(AsInt64(m.timestamp), m.hasMedia)
    ensures Describes(f, AddMessage(f, chatJID, c, Some(m)), ms + [s])
  {
    MinOne(c.min, ms, s);
    MaxOne(c.max, ms, s);
    EarlierOne(f.anchor, ms, s);
    CountOne(f, ms, s);
  }

  lemma {:induction false} DescribesMessages(f: Frame, chatJID: string, c: Core, ms: seq<Option<WebMessage>>,
                                             before: seq<Seen>)
    requires Describes(f, c, before)
    ensures Describes(f, AddMessages(f, chatJID, c, ms), before + SeenIn(ms))
    decreases |ms|
  {
    if ms == [] {
      assert before + [] == before;
    } else {
      var front, last := ms[..|ms| - 1], ms[|ms| - 1];
      DescribesMessages(f, chatJID, c, front, before);
      if Valid(last) {
        var s := Seen(AsInt64(last.value.timestamp), last.value.hasMedia);
        DescribesOne(f, chatJID, AddMessages(f, chatJID, c, front), last.value, before + SeenIn(front), s);
        assert (before + SeenIn(front)) + [s] == before + (SeenIn(front) + [s]);
      } else {
        assert SeenIn(front) + [] == SeenIn(front);
      }
    }
  }

  lemma FlagsKeepDescription(f: Frame, c: Core, c': Core, ms: seq<Seen>)
    requires Describes(f, c, ms)
    requires c' == c.(conversations := c'.conversations, containsRequested := c'.containsRequested)
    ensures Describes(f, c', ms)
  {
  }

  lemma DescribesConversation(f: Frame, a: Acc, conv: Option<Conversation>, before: seq<Seen>)
    requires Describes(f, a.core, before)
    ensures Describes(f, AddConversation(f, a, conv).core,
                      before + if conv.Some? then SeenIn(conv.value.messages) else [])
  {
    var counted := a.core.(conversations := a.core.conversations + 1);
    if conv.Some? {
      var flagged := Flagged(f, counted, conv.value.id);
      FlagsKeepDescription(f, a.core, flagged, before);
      DescribesMessages(f, conv.value.id, flagged, conv.value.messages, before);
    } else {
      FlagsKeepDescription(f, a.core, counted, before);
      assert before + [] == before;
    }
  }

  /** Every field that is not about the requested chat alone: the counters count the valid messages, those with
      media and the aged ones among them; the minimum is the least time there is, the maximum the greatest one but
      never below zero; and the same-day flag is set exactly when there is such a message. */
  lemma {:induction false} SummaryDescribes(f: Frame, convs: seq<Option<Conversation>>)
    ensures Describes(f, Fold(f, convs).core, AllSeen(convs))
    decreases |convs|
  {
    if convs != [] {
      var front, last := convs[..|convs| - 1], convs[|convs| - 1];
      SummaryDescribes(f, front);
      DescribesConversation(f, Fold(f, front), last, AllSeen(front));
    }
  }

  predicate HasChat(convs: seq<Option<Conversation>>, id: string) {
    exists conv :: conv in convs && conv.Some? && conv.value.id == id
  }

  lemma OneMoreChat(front: seq<Option<Conversation>>, last: Option<Conversation>, id: string)
    ensures HasChat(front + [last], id) <==> HasChat(front, id) || (last.Some? && last.value.id == id)
  {
    assert last in front + [last] && forall conv | conv in front :: conv in front + [last];
  }

  lemma {:induction false} MessagesKeepChats(f: Frame, chatJID: string, c: Core, ms: seq<Option<WebMessage>>)
    ensures AddMessages(f, chatJID, c, ms).conversations == c.conversations
    ensures AddMessages(f, chatJID, c, ms).containsRequested == c.containsRequested
    decreases |ms|
  {
    if ms != [] {
      MessagesKeepChats(f, chatJID, c, ms[..|ms| - 1]);
    }
  }

  /** All conversations are counted, missing ones included; the chats are the non-empty ids; and the requested chat
      is contained exactly when some conversation has its id. */
  lemma {:induction false} SummaryChats(f: Frame, convs: seq<Option<Conversation>>, id: string)
    ensures Fold(f, convs).core.conversations == |convs|
    ensures id in Fold(f, convs).chats <==> id != "" && HasChat(convs, id)
    ensures Fold(f, convs).core.containsRequested <==> HasChat(convs, f.chat)
    decreases |convs|
  {
    if convs != [] {
      var front, last := convs[..|convs| - 1], convs[|convs| - 1];
      assert convs == front + [last];
      SummaryChats(f, front, id);
      OneMoreChat(front, last, id);
      OneMoreChat(front, last, f.chat);
      if last.Some? {
        var counted := Fold(f, front).core.(conversations := Fold(f, front).core.conversations + 1);
        var flagged := Flagged(f, counted, last.value.id);
        MessagesKeepChats(f, last.value.id, flagged, last.value.messages);
      }
    }
  }

  // ---------------------------------------------------------------- the verdict

  /** Summary.Verdict, without its reason. */
  predicate Viable(s: Summary) {
    s.core.messages != 0 && s.core.media != 0 && s.core.sameDay
  }

  /** The summary of a run: the empty one with each chunk merged in. */
  function MergeAll(chunks: seq<Summary>): Summary {
    if chunks == [] then EMPTY else Merge(MergeAll(chunks[..|chunks| - 1]), chunks[|chunks| - 1])
  }

  predicate Counts(s: Summary) {
    s.core.messages >= 0 && s.core.media >= 0
  }

  predicate SomeMessage(chunks: seq<Summary>) {
    exists c :: c in chunks && c.core.messages > 0
  }

  predicate SomeMedia(chunks: seq<Summary>) {
    exists c :: c in chunks && c.core.media > 0
  }

  predicate SomeSameDay(chunks: seq<Summary>) {
    exists c :: c in chunks && c.core.sameDay
  }

  lemma OneMore(chunks: seq<Summary>)
    requires chunks != []
    ensures var front, last := chunks[..|chunks| - 1], chunks[|chunks| - 1];
            && (SomeMessage(chunks) <==> SomeMessage(front) || last.core.messages > 0)
            && (SomeMedia(chunks) <==> SomeMedia(front) || last.core.media > 0)
            && (SomeSameDay(chunks) <==> SomeSameDay(front) || last.core.sameDay)
  {
    var front, last := chunks[..|chunks| - 1], chunks[|chunks| - 1];
    assert last in chunks && forall c | c in front :: c in chunks;
    assert forall c | c in chunks :: c in front || c == last;
  }

  lemma MergeAllStep(chunks: seq<Summary>)
    requires chunks != []
    ensures MergeAll(chunks).core == MergeCores(MergeAll(chunks[..|chunks| - 1]).core, chunks[|chunks| - 1].core)
  {
  }

  /** A run is viable exactly when some chunk had a message, some chunk a media envelope, and some chunk a
      same-day message before its anchor. */
  lemma {:induction false} ViableOverChunks(chunks: seq<Summary>)
    requires forall c | c in chunks :: Counts(c)
    ensures Counts(MergeAll(chunks))
    ensures Viable(MergeAll(chunks)) <==> SomeMessage(chunks) && SomeMedia(chunks) && SomeSameDay(chunks)
    decreases |chunks|
  {
    if chunks != [] {
      ChunksSeen(chunks);
    }
  }

  lemma {:induction false} ChunksSeen(chunks: seq<Summary>)
    requires forall c | c in chunks :: Counts(c)
    ensures var m := MergeAll(chunks).core;
            && m.messages >= 0 && m.media >= 0
            && (m.messages > 0 <==> SomeMessage(chunks))
            && (m.media > 0 <==> SomeMedia(chunks))
            && (m.sameDay <==> SomeSameDay(chunks))
    decreases |chunks|
  {
    if chunks != [] {
      var front, last := chunks[..|chunks| - 1], chunks[|chunks| - 1];
      assert last in chunks && forall c | c in front :: c in chunks;
      ChunksSeen(front);
      OneMore(chunks);
      MergeAllStep(chunks);
    }
  }

  lemma {:induction false} MessagesCount(f: Frame, chatJID: string, c: Core, ms: seq<Option<WebMessage>>)
    ensures AddMessages(f, chatJID, c, ms).messages >= c.messages && AddMessages(f, chatJID, c, ms).media >= c.media
    decreases |ms|
  {
    if ms != [] {
      MessagesCount(f, chatJID, c, ms[..|ms| - 1]);
    }
  }

  lemma {:induction false} FoldCounts(f: Frame, convs: seq<Option<Conversation>>)
    ensures Fold(f, convs).core.messages >= 0 && Fold(f, convs).core.media >= 0
    decreases |convs|
  {
    if convs != [] {
      var a, conv := Fold(f, convs[..|convs| - 1]), convs[|convs| - 1];
      FoldCounts(f, convs[..|convs| - 1]);
      if conv.Some? {
        var counted := a.core.(conversations := a.core.conversations + 1);
        MessagesCount(f, conv.value.id, Flagged(f, counted, conv.value.id), conv.value.messages);
      }
    }
  }
}
