/** Replaying a list of events: nothing but the ingest times and the run records changes, as long as every event
    finds the row it went to. */
module Replay {
  import opened Text
  import opened Types
  import opened Store
  import opened NaturalKeys
  import opened LastWrite

  datatype Timed = Timed(ev: Event, now: int)

  function IdIn(m: map<string, Row>, ev: Event): string {
    MessageID(KeyOfEvent(ev), ResolvePK(m, ev, false))
  }

  /** One Write of text that meets no failure. */
  function Put(t: Tables, e: Timed, allowed: int): Tables {
    FirstTx(Disk(t, map[], false), IdIn(t.messages, e.ev), ResolvePK(t.messages, e.ev, false), e.ev, e.now, allowed,
            NoFault, FtsOk).disk.tables
  }

  predicate Accepted(t: Tables, e: Timed) {
    ForeignKeyHolds(t, IdIn(t.messages, e.ev), e.ev)
  }

  function PutAll(t: Tables, es: seq<Timed>, allowed: int): Tables {
    if es == [] then t else Put(PutAll(t, es[..|es| - 1], allowed), es[|es| - 1], allowed)
  }

  predicate AllAccepted(t: Tables, es: seq<Timed>, allowed: int) {
    es == [] || (AllAccepted(t, es[..|es| - 1], allowed) && Accepted(PutAll(t, es[..|es| - 1], allowed), es[|es| - 1]))
  }

  /** Put is what Write does when nothing goes wrong and the event has no media. */
  lemma PutIsWrite(d: Disk, root: string, allowed: int, ev: Event, env: Env)
    requires Complete(ev) && ev.mediaBytes == [] && !d.ftsUnavailable && Accepted(d.tables, Timed(ev, env.now))
    requires !env.cancelled && !env.lookupFails && env.fault == NoFault && env.fts == FtsOk
    ensures var o := WriteAlone(d, root, allowed, ev, env);
            o.error.None? && o.disk.tables == Put(d.tables, Timed(ev, env.now), allowed) && o.disk.files == d.files
  {
  }

  /** No media body and no hydration status: what a text message looks like. */
  predicate Plain(ev: Event) {
    ev.mediaBytes == [] && ev.hydrationStatus == ""
  }

  predicate AllPlain(es: seq<Timed>) {
    forall e | e in es :: Plain(e.ev)
  }

  predicate SameEvents(es: seq<Timed>, es': seq<Timed>) {
    |es| == |es'| && forall i | 0 <= i < |es| :: es[i].ev == es'[i].ev
  }

  /** An event and the id it goes to. */
  datatype Sent = Sent(id: string, ev: Event)

  /** Where the events of a list really go, one after the other. */
  function SentBy(t: Tables, es: seq<Timed>, allowed: int): (r: seq<Sent>)
    ensures |r| == |es|
  {
    if es == [] then []
    else
      var front, ev := es[..|es| - 1], es[|es| - 1].ev;
      SentBy(t, front, allowed) + [Sent(IdIn(PutAll(t, front, allowed).messages, ev), ev)]
  }

  /** The last event that a list sends to an id. */
  function LastFor(sent: seq<Sent>, id: string): Option<Event> {
    if sent == [] then None
    else if sent[|sent| - 1].id == id then Some(sent[|sent| - 1].ev)
    else LastFor(sent[..|sent| - 1], id)
  }

  // ---------------------------------------------------------------- what a list of events leaves

  /** What a list of plain events leaves of one id. */
  ghost predicate Explains(t: Tables, sent: seq<Sent>, t': Tables, id: string) {
    var last := LastFor(sent, id);
    && (id in t'.messages <==> id in t.messages || last.Some?)
    && (id in t'.messages && last.Some? ==> t'.messages[id].content == ContentOf(last.value))
    && (id in t.messages ==>
          t'.messages[id].ident == t.messages[id].ident && t'.messages[id].media == t.messages[id].media)
    && (id in t.messages && last.None? ==> t'.messages[id].content == t.messages[id].content)
    && Matching(t'.fts, id) == if last.Some? then [FtsOf(id, last.value)] else Matching(t.fts, id)
  }

  ghost predicate Effect(t: Tables, sent: seq<Sent>, t': Tables) {
    t'.groups == t.groups && forall id :: Explains(t, sent, t', id)
  }

  lemma PutEffect(t: Tables, e: Timed, allowed: int)
    requires Accepted(t, e) && Plain(e.ev)
    ensures var id, t' := IdIn(t.messages, e.ev), Put(t, e, allowed);
            && t'.messages == Upsert(t.messages, id, e.ev, ResolvePK(t.messages, e.ev, false), e.now)
            && t'.fts == WithoutId(t.fts, id) + [FtsOf(id, e.ev)]
            && t'.groups == t.groups
  {
  }

  lemma ExplainStep(t: Tables, sent: seq<Sent>, mid: Tables, e: Sent, pk: int, now: int, t': Tables, id: string)
    requires Explains(t, sent, mid, id) && Plain(e.ev)
    requires t'.messages == Upsert(mid.messages, e.id, e.ev, pk, now)
    requires t'.fts == WithoutId(mid.fts, e.id) + [FtsOf(e.id, e.ev)]
    ensures Explains(t, sent + [e], t', id)
  {
    var longer := sent + [e];
    assert longer[..|longer| - 1] == sent && longer[|longer| - 1] == e;
    RefreshedEntries(mid.fts, e.id, e.ev, id);
  }

  lemma EffectStep(t: Tables, sent: seq<Sent>, mid: Tables, e: Timed, allowed: int)
    requires Effect(t, sent, mid) && Accepted(mid, e) && Plain(e.ev)
    ensures Effect(t, sent + [Sent(IdIn(mid.messages, e.ev), e.ev)], Put(mid, e, allowed))
  {
    PutEffect(mid, e, allowed);
    var s, t' := Sent(IdIn(mid.messages, e.ev), e.ev), Put(mid, e, allowed);
    forall id ensures Explains(t, sent + [s], t', id) {
      ExplainStep(t, sent, mid, s, ResolvePK(mid.messages, e.ev, false), e.now, t', id);
    }
  }

  lemma {:induction false} PutAllEffect(t: Tables, es: seq<Timed>, allowed: int)
    requires AllPlain(es) && AllAccepted(t, es, allowed)
    ensures Effect(t, SentBy(t, es, allowed), PutAll(t, es, allowed))
    decreases |es|
  {
    if es != [] {
      PutAllEffect(t, es[..|es| - 1], allowed);
      EffectStep(t, SentBy(t, es[..|es| - 1], allowed), PutAll(t, es[..|es| - 1], allowed), es[|es| - 1], allowed);
    }
  }

  // ---------------------------------------------------------------- a second pass

  predicate SameButIngestTime(r: Row, r': Row) {
    r'.ident == r.ident && r'.content == r.content && r'.media == r.media
  }

  ghost predicate Unchanged(t: Tables, t': Tables) {
    && t'.messages.Keys == t.messages.Keys
    && (forall id | id in t.messages :: SameButIngestTime(t.messages[id], t'.messages[id]))
    && (forall id :: Matching(t'.fts, id) == Matching(t.fts, id))
    && t'.groups == t.groups
  }

  lemma SecondPass(t: Tables, sent: seq<Sent>, t1: Tables, t2: Tables)
    requires Effect(t, sent, t1) && Effect(t1, sent, t2)
    ensures Unchanged(t1, t2)
  {
    forall id ensures (id in t2.messages <==> id in t1.messages)
                   && (id in t1.messages ==> SameButIngestTime(t1.messages[id], t2.messages[id]))
                   && Matching(t2.fts, id) == Matching(t1.fts, id)
    {
      assert Explains(t, sent, t1, id) && Explains(t1, sent, t2, id);
    }
  }

  lemma {:induction false} LastForSome(sent: seq<Sent>, i: nat)
    requires i < |sent|
    ensures LastFor(sent, sent[i].id).Some?
    decreases |sent|
  {
    if i < |sent| - 1 {
      LastForSome(sent[..|sent| - 1], i);
    }
  }

  lemma SentAreStored(t: Tables, sent: seq<Sent>, t1: Tables)
    requires Effect(t, sent, t1)
    ensures forall e | e in sent :: e.id in t1.messages
  {
    forall e | e in sent ensures e.id in t1.messages {
      var i :| 0 <= i < |sent| && sent[i] == e;
      LastForSome(sent, i);
      assert Explains(t, sent, t1, e.id);
    }
  }

  /** A pass over events whose rows are all there is accepted: the foreign key cannot refuse it. */
  lemma {:induction false} ReplayAccepted(t1: Tables, es: seq<Timed>, allowed: int)
    requires AllPlain(es) && forall e | e in SentBy(t1, es, allowed) :: e.id in t1.messages
    ensures AllAccepted(t1, es, allowed)
    decreases |es|
  {
    if es != [] {
      var front, e := es[..|es| - 1], es[|es| - 1];
      ReplayAccepted(t1, front, allowed);
      PutAllEffect(t1, front, allowed);
      var mid := PutAll(t1, front, allowed);
      assert Sent(IdIn(mid.messages, e.ev), e.ev) in SentBy(t1, es, allowed);
      assert Explains(t1, SentBy(t1, front, allowed), mid, IdIn(mid.messages, e.ev));
    }
  }

  /** What makes a replay harmless: every event goes where it went the first time. */
  lemma SameRoutesChangeNothing(t: Tables, es: seq<Timed>, es': seq<Timed>, allowed: int)
    requires AllPlain(es) && SameEvents(es, es') && AllAccepted(t, es, allowed)
    requires SentBy(PutAll(t, es, allowed), es', allowed) == SentBy(t, es, allowed)
    ensures var t1 := PutAll(t, es, allowed);
            AllAccepted(t1, es', allowed) && Unchanged(t1, PutAll(t1, es', allowed))
  {
    var t1 := PutAll(t, es, allowed);
    var sent := SentBy(t, es, allowed);
    PutAllEffect(t, es, allowed);
    SentAreStored(t, sent, t1);
    assert AllPlain(es') by {
      forall e | e in es' ensures Plain(e.ev) {
        var i :| 0 <= i < |es'| && es'[i] == e;
        assert es[i] in es;
      }
    }
    ReplayAccepted(t1, es', allowed);
    PutAllEffect(t1, es', allowed);
    SecondPass(t, sent, t1, PutAll(t1, es', allowed));
  }

  // ---------------------------------------------------------------- events without a source key

  predicate AllKeyless(es: seq<Timed>) {
    forall e | e in es :: e.ev.sourcePK == 0
  }

  ghost predicate SameLookups(m: map<string, Row>, m': map<string, Row>) {
    forall k :: Lookup(m', k) == Lookup(m, k)
  }

  lemma KeylessPut(t: Tables, e: Timed, allowed: int)
    requires IdsMatch(t.messages) && Accepted(t, e) && Plain(e.ev) && e.ev.sourcePK == 0
    ensures IdsMatch(Put(t, e, allowed).messages) && SameLookups(t.messages, Put(t, e, allowed).messages)
  {
    PutEffect(t, e, allowed);
    forall k ensures Lookup(Put(t, e, allowed).messages, k) == Lookup(t.messages, k) {
      LookupStable(t.messages, e.ev, e.now, k);
    }
  }

  lemma LookupsCompose(m: map<string, Row>, m': map<string, Row>, m'': map<string, Row>)
    requires SameLookups(m, m') && SameLookups(m', m'')
    ensures SameLookups(m, m'')
  {
    forall k ensures Lookup(m'', k) == Lookup(m, k) {
      assert Lookup(m'', k) == Lookup(m', k);
    }
  }

  lemma {:induction false} KeylessLookups(t: Tables, es: seq<Timed>, allowed: int)
    requires IdsMatch(t.messages) && AllPlain(es) && AllKeyless(es) && AllAccepted(t, es, allowed)
    ensures IdsMatch(PutAll(t, es, allowed).messages) && SameLookups(t.messages, PutAll(t, es, allowed).messages)
    decreases |es|
  {
    if es != [] {
      var front := es[..|es| - 1];
      KeylessLookups(t, front, allowed);
      KeylessPut(PutAll(t, front, allowed), es[|es| - 1], allowed);
      LookupsCompose(t.messages, PutAll(t, front, allowed).messages, PutAll(t, es, allowed).messages);
    }
  }

  /** Where keyless events go: to the id that the first lookup gives. */
  function Addressed(m: map<string, Row>, es: seq<Timed>): seq<Sent> {
    seq(|es|, i requires 0 <= i < |es| => Sent(IdIn(m, es[i].ev), es[i].ev))
  }

  lemma SameId(m: map<string, Row>, m': map<string, Row>, ev: Event)
    requires SameLookups(m, m')
    ensures IdIn(m', ev) == IdIn(m, ev)
  {
    assert Lookup(m', KeyOfEvent(ev)) == Lookup(m, KeyOfEvent(ev));
  }

  lemma {:induction false} KeylessRoutes(t: Tables, es: seq<Timed>, allowed: int)
    requires IdsMatch(t.messages) && AllPlain(es) && AllKeyless(es) && AllAccepted(t, es, allowed)
    ensures SentBy(t, es, allowed) == Addressed(t.messages, es)
    decreases |es|
  {
    if es != [] {
      var front, e := es[..|es| - 1], es[|es| - 1];
      KeylessRoutes(t, front, allowed);
      KeylessLookups(t, front, allowed);
      SameId(t.messages, PutAll(t, front, allowed).messages, e.ev);
      AddressedOneMore(t.messages, es);
    }
  }

  lemma AddressedOneMore(m: map<string, Row>, es: seq<Timed>)
    requires es != []
    ensures Addressed(m, es) == Addressed(m, es[..|es| - 1]) + [Sent(IdIn(m, es[|es| - 1].ev), es[|es| - 1].ev)]
  {
  }

  lemma {:induction false} KeylessAccepted(t: Tables, es: seq<Timed>, allowed: int)
    requires IdsMatch(t.messages) && AllPlain(es) && AllKeyless(es)
    requires forall i | 0 <= i < |es| :: IdIn(t.messages, es[i].ev) in t.messages
    ensures AllAccepted(t, es, allowed)
    decreases |es|
  {
    if es != [] {
      var front, e := es[..|es| - 1], es[|es| - 1];
      assert forall i | 0 <= i < |front| :: front[i] == es[i];
      KeylessAccepted(t, front, allowed);
      KeylessLookups(t, front, allowed);
      PutAllEffect(t, front, allowed);
      SameId(t.messages, PutAll(t, front, allowed).messages, e.ev);
      assert IdIn(t.messages, es[|es| - 1].ev) in t.messages;
      assert Explains(t, SentBy(t, front, allowed), PutAll(t, front, allowed), IdIn(t.messages, e.ev));
    }
  }

  lemma KeylessAgain(es: seq<Timed>, es': seq<Timed>)
    requires SameEvents(es, es') && AllPlain(es) && AllKeyless(es)
    ensures AllPlain(es') && AllKeyless(es')
  {
    forall e | e in es' ensures Plain(e.ev) && e.ev.sourcePK == 0 {
      var i :| 0 <= i < |es'| && es'[i] == e;
      assert es[i] in es;
    }
  }

  lemma SameAddresses(m: map<string, Row>, m': map<string, Row>, es: seq<Timed>, es': seq<Timed>)
    requires SameLookups(m, m') && SameEvents(es, es')
    ensures Addressed(m', es') == Addressed(m, es)
  {
    forall i | 0 <= i < |es| ensures Addressed(m', es')[i] == Addressed(m, es)[i] {
      SameId(m, m', es[i].ev);
    }
  }

  lemma AddressesStored(m: map<string, Row>, es: seq<Timed>)
    requires forall s | s in Addressed(m, es) :: s.id in m
    ensures forall i | 0 <= i < |es| :: IdIn(m, es[i].ev) in m
  {
    forall i | 0 <= i < |es| ensures IdIn(m, es[i].ev) in m {
      assert Addressed(m, es)[i] in Addressed(m, es);
    }
  }

  /** Without source keys every event goes where it went the first time, whatever its key holds. */
  lemma KeylessAgree(t: Tables, es: seq<Timed>, es': seq<Timed>, allowed: int)
    requires IdsMatch(t.messages) && AllPlain(es) && AllKeyless(es) && SameEvents(es, es')
             && AllAccepted(t, es, allowed)
    ensures SentBy(PutAll(t, es, allowed), es', allowed) == SentBy(t, es, allowed)
  {
    var t1 := PutAll(t, es, allowed);
    KeylessRoutes(t, es, allowed);
    KeylessLookups(t, es, allowed);
    PutAllEffect(t, es, allowed);
    SentAreStored(t, SentBy(t, es, allowed), t1);
    SameAddresses(t.messages, t1.messages, es, es');
    AddressesStored(t1.messages, es');
    KeylessAgain(es, es');
    KeylessAccepted(t1, es', allowed);
    KeylessRoutes(t1, es', allowed);
  }

  // ---------------------------------------------------------------- explicit source keys

  predicate AllNulFree(es: seq<Timed>) {
    forall e | e in es :: KeyNulFree(KeyOfEvent(e.ev))
  }

  /** The greatest source key stored for a message. */
  function TopOf(m: map<string, Row>, k: NaturalKey): Option<int> {
    if PksOf(m, k) == {} then None else Some(Lookup(m, k))
  }

  /** The source key that an event is stored under when this is the top. */
  function RouteAt(top: Option<int>, ev: Event): int {
    if ev.sourcePK != 0 then ev.sourcePK else if top.None? then 0 else top.value
  }

  function Raised(top: Option<int>, pk: int): Option<int> {
    if top.None? || top.value < pk then Some(pk) else top
  }

  /** The top of message k before event n, computed from the list alone. */
  function TopBefore(m: map<string, Row>, es: seq<Timed>, n: nat, k: NaturalKey): Option<int>
    requires n <= |es|
  {
    if n == 0 then TopOf(m, k)
    else
      var top, ev := TopBefore(m, es, n - 1, k), es[n - 1].ev;
      if KeyOfEvent(ev) == k then Raised(top, RouteAt(top, ev)) else top
  }

  function Route(m: map<string, Row>, es: seq<Timed>, i: nat): int
    requires i < |es|
  {
    RouteAt(TopBefore(m, es, i, KeyOfEvent(es[i].ev)), es[i].ev)
  }

  predicate Overtakes(m: map<string, Row>, es: seq<Timed>, i: nat, j: nat)
    requires i < |es| && j < |es|
  {
    es[i].ev.sourcePK == 0 && es[j].ev.sourcePK != 0 && KeyOfEvent(es[i].ev) == KeyOfEvent(es[j].ev)
    && Route(m, es, i) < es[j].ev.sourcePK
  }

  /** Event i has a source key, or no later event of its message has a larger one than it goes to. */
  predicate NotOvertaken(m: map<string, Row>, es: seq<Timed>, i: nat)
    requires i < |es|
  {
    forall j: nat | i < j < |es| :: !Overtakes(m, es, i, j)
  }

  predicate Settled(m: map<string, Row>, es: seq<Timed>) {
    forall i: nat | i < |es| :: NotOvertaken(m, es, i)
  }

  lemma TopMembers(m: map<string, Row>, m': map<string, Row>, k: NaturalKey, pks: set<int>)
    requires PksOf(m', k) == PksOf(m, k) + pks
    ensures pks == {} ==> TopOf(m', k) == TopOf(m, k)
    ensures forall pk | pks == {pk} :: TopOf(m', k) == Raised(TopOf(m, k), pk)
  {
    if pks == {} {
      assert PksOf(m', k) == PksOf(m, k);
      LookupOf(m, m', k);
    }
    forall pk | pks == {pk} ensures TopOf(m', k) == Raised(TopOf(m, k), pk) {
      assert pk in PksOf(m', k);
    }
  }

  lemma LookupOf(m: map<string, Row>, m': map<string, Row>, k: NaturalKey)
    requires PksOf(m', k) == PksOf(m, k)
    ensures Lookup(m', k) == Lookup(m, k)
  {
    if PksOf(m, k) != {} {
      assert Lookup(m, k) in PksOf(m', k) && Lookup(m', k) in PksOf(m, k);
    }
  }

  lemma UpsertIdents(m: map<string, Row>, ev: Event, pk: int, now: int)
    requires IdsMatch(m) && KeyNulFree(KeyOfEvent(ev))
    ensures var id := MessageID(KeyOfEvent(ev), pk);
            var m' := Upsert(m, id, ev, pk, now);
            && KeyOfRow(m'[id].ident) == KeyOfEvent(ev) && m'[id].ident.sourcePK == pk
            && forall x | x in m :: m'[x].ident == m[x].ident
  {
    var id := MessageID(KeyOfEvent(ev), pk);
    NewRowKey(ev, pk);
    if id in m {
      MessageIDInjective(KeyOfEvent(ev), pk, KeyOfRow(m[id].ident), m[id].ident.sourcePK);
    }
  }

  /** One more row, or none. */
  lemma PksOneMore(m: map<string, Row>, m': map<string, Row>, id: string, mine: NaturalKey, pk: int, k: NaturalKey)
    requires m'.Keys == m.Keys + {id} && KeyOfRow(m'[id].ident) == mine && m'[id].ident.sourcePK == pk
    requires forall x | x in m :: m'[x].ident == m[x].ident
    ensures PksOf(m', k) == PksOf(m, k) + if k == mine then {pk} else {}
  {
    forall p ensures p in PksOf(m', k) <==> p in PksOf(m, k) || (k == mine && p == pk) {
      if p in PksOf(m, k) {
        var x :| x in m && KeyOfRow(m[x].ident) == k && m[x].ident.sourcePK == p;
        assert x in m' && m'[x].ident == m[x].ident;
      }
    }
  }

  /** An upsert of a NUL-free key adds exactly its own source key. */
  lemma UpsertPks(m: map<string, Row>, ev: Event, pk: int, now: int, k: NaturalKey)
    requires IdsMatch(m) && KeyNulFree(KeyOfEvent(ev))
    ensures var m' := Upsert(m, MessageID(KeyOfEvent(ev), pk), ev, pk, now);
            IdsMatch(m') && PksOf(m', k) == PksOf(m, k) + if k == KeyOfEvent(ev) then {pk} else {}
  {
    var id := MessageID(KeyOfEvent(ev), pk);
    var m' := Upsert(m, id, ev, pk, now);
    UpsertIdents(m, ev, pk, now);
    PksOneMore(m, m', id, KeyOfEvent(ev), pk, k);
  }

  lemma PutTop(t: Tables, e: Timed, allowed: int, k: NaturalKey)
    requires IdsMatch(t.messages) && Accepted(t, e) && Plain(e.ev) && KeyNulFree(KeyOfEvent(e.ev))
    ensures IdsMatch(Put(t, e, allowed).messages)
    ensures var top := TopOf(t.messages, KeyOfEvent(e.ev));
            && ResolvePK(t.messages, e.ev, false) == RouteAt(top, e.ev)
            && TopOf(Put(t, e, allowed).messages, k)
               == if KeyOfEvent(e.ev) == k then Raised(top, RouteAt(top, e.ev)) else TopOf(t.messages, k)
  {
    PutEffect(t, e, allowed);
    var pk := ResolvePK(t.messages, e.ev, false);
    UpsertPks(t.messages, e.ev, pk, e.now, k);
    TopMembers(t.messages, Put(t, e, allowed).messages, k, if k == KeyOfEvent(e.ev) then {pk} else {});
  }

  /** The list says what is stored. */
  lemma {:induction false} TopsFollow(t: Tables, es: seq<Timed>, n: nat, allowed: int, k: NaturalKey)
    requires IdsMatch(t.messages) && AllPlain(es) && AllNulFree(es) && n <= |es| && AllAccepted(t, es[..n], allowed)
    ensures IdsMatch(PutAll(t, es[..n], allowed).messages)
    ensures TopOf(PutAll(t, es[..n], allowed).messages, k) == TopBefore(t.messages, es, n, k)
    decreases n
  {
    if n > 0 {
      assert es[..n][..n - 1] == es[..n - 1] && es[n - 1] in es;
      TopsFollow(t, es, n - 1, allowed, k);
      TopsFollow(t, es, n - 1, allowed, KeyOfEvent(es[n - 1].ev));
      PutTop(PutAll(t, es[..n - 1], allowed), es[n - 1], allowed, k);
    }
  }

  lemma {:induction false} FrontAccepted(t: Tables, es: seq<Timed>, n: nat, allowed: int)
    requires n <= |es| && AllAccepted(t, es, allowed)
    ensures AllAccepted(t, es[..n], allowed)
    decreases |es|
  {
    if n == |es| {
      assert es[..n] == es;
    } else {
      FrontAccepted(t, es[..|es| - 1], n, allowed);
      assert es[..|es| - 1][..n] == es[..n];
    }
  }

  lemma SentByLast(t: Tables, es: seq<Timed>, allowed: int)
    requires es != []
    ensures var front, ev := es[..|es| - 1], es[|es| - 1].ev;
            SentBy(t, es, allowed)
            == SentBy(t, front, allowed) + [Sent(IdIn(PutAll(t, front, allowed).messages, ev), ev)]
  {
  }

  lemma {:induction false} SentByPrefix(t: Tables, es: seq<Timed>, n: nat, allowed: int)
    requires n <= |es|
    ensures SentBy(t, es[..n], allowed) == SentBy(t, es, allowed)[..n]
    decreases |es|
  {
    if n == |es| {
      assert es[..n] == es;
    } else {
      SentByPrefix(t, es[..|es| - 1], n, allowed);
      assert es[..|es| - 1][..n] == es[..n];
      SentByLast(t, es, allowed);
    }
  }

  lemma LastSent(t: Tables, es: seq<Timed>, front: seq<Timed>, e: Timed, allowed: int)
    requires es == front + [e]
    ensures SentBy(t, es, allowed)[|front|] == Sent(IdIn(PutAll(t, front, allowed).messages, e.ev), e.ev)
  {
    assert es[..|es| - 1] == front && es[|es| - 1] == e;
    SentByLast(t, es, allowed);
  }

  lemma SentByAt(t: Tables, es: seq<Timed>, i: nat, allowed: int)
    requires i < |es|
    ensures SentBy(t, es, allowed)[i] == Sent(IdIn(PutAll(t, es[..i], allowed).messages, es[i].ev), es[i].ev)
  {
    var longer := es[..i + 1];
    assert longer == es[..i] + [es[i]];
    LastSent(t, longer, es[..i], es[i], allowed);
    SentByPrefix(t, es, i + 1, allowed);
    assert SentBy(t, longer, allowed)[i] == SentBy(t, es, allowed)[i];
  }

  /** Every event goes to its route. */
  lemma RouteIsTaken(t: Tables, es: seq<Timed>, i: nat, allowed: int)
    requires IdsMatch(t.messages) && AllPlain(es) && AllNulFree(es) && i < |es| && AllAccepted(t, es[..i], allowed)
    ensures SentBy(t, es, allowed)[i] == Sent(MessageID(KeyOfEvent(es[i].ev), Route(t.messages, es, i)), es[i].ev)
  {
    TopsFollow(t, es, i, allowed, KeyOfEvent(es[i].ev));
    SentByAt(t, es, i, allowed);
  }

  /** Event j does not raise the top of message k. */
  predicate StaysUnder(es: seq<Timed>, j: nat, k: NaturalKey, top: int)
    requires j < |es|
  {
    KeyOfEvent(es[j].ev) == k && es[j].ev.sourcePK != 0 ==> es[j].ev.sourcePK <= top
  }

  lemma {:induction false} TopRises(m: map<string, Row>, es: seq<Timed>, i: nat, n: nat, k: NaturalKey)
    requires i <= n <= |es| && TopBefore(m, es, i, k).Some?
    ensures TopBefore(m, es, n, k).Some? && TopBefore(m, es, i, k).value <= TopBefore(m, es, n, k).value
    ensures TopBefore(m, es, n, k) == TopBefore(m, es, i, k)
        <==> forall j: nat | i <= j < n :: StaysUnder(es, j, k, TopBefore(m, es, i, k).value)
    decreases n
  {
    if i < n {
      TopRises(m, es, i, n - 1, k);
      var top := TopBefore(m, es, i, k).value;
      assert TopBefore(m, es, n - 1, k) == Some(top) ==>
               (TopBefore(m, es, n, k) == Some(top) <==> StaysUnder(es, n - 1, k, top));
    }
  }

  /** After an event its message has a top, at least its route; after a keyless one exactly its route. */
  lemma TopAfter(m: map<string, Row>, es: seq<Timed>, i: nat)
    requires i < |es|
    ensures var top := TopBefore(m, es, i + 1, KeyOfEvent(es[i].ev));
            && top.Some? && Route(m, es, i) <= top.value
            && (es[i].ev.sourcePK == 0 ==> top == Some(Route(m, es, i)))
  {
  }

  /** On a list whose message tops are all there already, no top moves. */
  lemma {:induction false} TopStays(m: map<string, Row>, es: seq<Timed>, n: nat, k: NaturalKey, top: int)
    requires n <= |es| && TopOf(m, k) == Some(top)
    requires forall j: nat | j < n :: StaysUnder(es, j, k, top)
    ensures TopBefore(m, es, n, k) == Some(top)
  {
    if n > 0 {
      TopStays(m, es, n - 1, k, top);
      assert StaysUnder(es, n - 1, k, top);
    }
  }

  /** In the second pass a keyless event goes to the last top of its message. */
  lemma SecondRoute(m: map<string, Row>, m1: map<string, Row>, es: seq<Timed>, es': seq<Timed>, i: nat)
    requires SameEvents(es, es') && i < |es|
    requires forall k :: TopOf(m1, k) == TopBefore(m, es, |es|, k)
    ensures var k := KeyOfEvent(es[i].ev);
            && TopBefore(m, es, |es|, k).Some?
            && Route(m1, es', i)
               == if es[i].ev.sourcePK != 0 then es[i].ev.sourcePK else TopBefore(m, es, |es|, k).value
  {
    var k := KeyOfEvent(es[i].ev);
    TopAfter(m, es, i);
    TopRises(m, es, i + 1, |es|, k);
    var top := TopBefore(m, es, |es|, k).value;
    forall j: nat | j < i ensures StaysUnder(es', j, k, top) {
      if KeyOfEvent(es[j].ev) == k {
        TopAfter(m, es, j);
        TopRises(m, es, j + 1, |es|, k);
      }
    }
    TopStays(m1, es', i, k, top);
  }

  /** An event takes the same route twice, exactly when it has a source key or no later event overtakes it. */
  lemma SameRouteExactly(m: map<string, Row>, m1: map<string, Row>, es: seq<Timed>, es': seq<Timed>, i: nat)
    requires SameEvents(es, es') && i < |es|
    requires forall k :: TopOf(m1, k) == TopBefore(m, es, |es|, k)
    ensures Route(m1, es', i) == Route(m, es, i) <==> NotOvertaken(m, es, i)
  {
    SecondRoute(m, m1, es, es', i);
    TopAfter(m, es, i);
    TopRises(m, es, i + 1, |es|, KeyOfEvent(es[i].ev));
    if es[i].ev.sourcePK == 0 {
      forall j: nat | i < j < |es|
        ensures StaysUnder(es, j, KeyOfEvent(es[i].ev), Route(m, es, i)) <==> !Overtakes(m, es, i, j)
      {
      }
    }
  }

  lemma PlainAgain(es: seq<Timed>, es': seq<Timed>)
    requires SameEvents(es, es') && AllPlain(es) && AllNulFree(es)
    ensures AllPlain(es') && AllNulFree(es')
  {
    forall e | e in es' ensures Plain(e.ev) && KeyNulFree(KeyOfEvent(e.ev)) {
      var i :| 0 <= i < |es'| && es'[i] == e;
      assert es[i] in es;
    }
  }

  lemma TopsAtEnd(t: Tables, es: seq<Timed>, allowed: int)
    requires IdsMatch(t.messages) && AllPlain(es) && AllNulFree(es) && AllAccepted(t, es, allowed)
    ensures IdsMatch(PutAll(t, es, allowed).messages)
    ensures forall k :: TopOf(PutAll(t, es, allowed).messages, k) == TopBefore(t.messages, es, |es|, k)
  {
    assert es[..|es|] == es;
    forall k ensures TopOf(PutAll(t, es, allowed).messages, k) == TopBefore(t.messages, es, |es|, k) {
      TopsFollow(t, es, |es|, allowed, k);
    }
    TopsFollow(t, es, |es|, allowed, NaturalKey("", "", "", 0));
  }

  lemma TopIsStored(m: map<string, Row>, k: NaturalKey)
    requires IdsMatch(m) && TopOf(m, k).Some?
    ensures MessageID(k, TopOf(m, k).value) in m
  {
    PkHasRow(m, k, TopOf(m, k).value);
  }

  /** An event of the second pass meets a row, so the foreign key does not refuse it. */
  lemma SecondStep(t: Tables, es: seq<Timed>, es': seq<Timed>, i: nat, allowed: int)
    requires IdsMatch(t.messages) && AllPlain(es) && AllNulFree(es) && SameEvents(es, es')
             && AllAccepted(t, es, allowed)
    requires i < |es| && AllAccepted(PutAll(t, es, allowed), es'[..i], allowed)
    ensures Accepted(PutAll(PutAll(t, es, allowed), es'[..i], allowed), es'[i])
  {
    var t1, front := PutAll(t, es, allowed), es'[..i];
    PlainAgain(es, es');
    TopsAtEnd(t, es, allowed);
    PlainFront(es', i);
    KeepsRows(t1, front, allowed);
    TopsFollow(t1, es', i, allowed, KeyOfEvent(es[i].ev));
    TopIsThere(t.messages, t1.messages, es, es', i);
    NextAccepted(t, es, es', i, PutAll(t1, front, allowed), allowed);
  }

  lemma KeepsRows(t: Tables, es: seq<Timed>, allowed: int)
    requires AllPlain(es) && AllAccepted(t, es, allowed)
    ensures forall id | id in t.messages :: id in PutAll(t, es, allowed).messages
  {
    PutAllEffect(t, es, allowed);
    forall id | id in t.messages ensures id in PutAll(t, es, allowed).messages {
      assert Explains(t, SentBy(t, es, allowed), PutAll(t, es, allowed), id);
    }
  }

  lemma TopIsThere(m: map<string, Row>, m1: map<string, Row>, es: seq<Timed>, es': seq<Timed>, i: nat)
    requires SameEvents(es, es') && i < |es|
    requires forall k :: TopOf(m1, k) == TopBefore(m, es, |es|, k)
    ensures TopBefore(m1, es', i, KeyOfEvent(es[i].ev)).Some?
  {
    var k := KeyOfEvent(es[i].ev);
    TopAfter(m, es, i);
    TopRises(m, es, i + 1, |es|, k);
    assert TopBefore(m1, es', 0, k) == TopOf(m1, k);
    TopRises(m1, es', 0, i, k);
  }

  lemma {:induction false} SecondAccepted(t: Tables, es: seq<Timed>, es': seq<Timed>, n: nat, allowed: int)
    requires IdsMatch(t.messages) && AllPlain(es) && AllNulFree(es) && SameEvents(es, es')
             && AllAccepted(t, es, allowed)
    requires n <= |es|
    ensures AllAccepted(PutAll(t, es, allowed), es'[..n], allowed)
    decreases n
  {
    if n > 0 {
      SecondAccepted(t, es, es', n - 1, allowed);
      SecondStep(t, es, es', n - 1, allowed);
      assert es'[..n][..n - 1] == es'[..n - 1] && es'[..n][n - 1] == es'[n - 1];
    }
  }

  lemma PlainFront(es: seq<Timed>, n: nat)
    requires AllPlain(es) && AllNulFree(es) && n <= |es|
    ensures AllPlain(es[..n]) && AllNulFree(es[..n])
  {
  }

  /** One event of the second pass, on a table that holds everything the first pass left. */
  lemma NextAccepted(t: Tables, es: seq<Timed>, es': seq<Timed>, i: nat, mid: Tables, allowed: int)
    requires IdsMatch(t.messages) && AllPlain(es) && AllNulFree(es) && SameEvents(es, es')
             && AllAccepted(t, es, allowed)
    requires i < |es| && IdsMatch(mid.messages)
    requires forall id | id in PutAll(t, es, allowed).messages :: id in mid.messages
    requires TopOf(mid.messages, KeyOfEvent(es[i].ev)).Some?
    ensures Accepted(mid, es'[i])
  {
    var k := KeyOfEvent(es[i].ev);
    if es[i].ev.sourcePK == 0 {
      TopIsStored(mid.messages, k);
    } else {
      PutAllEffect(t, es, allowed);
      SentAreStored(t, SentBy(t, es, allowed), PutAll(t, es, allowed));
      SentByAt(t, es, i, allowed);
      assert SentBy(t, es, allowed)[i] in SentBy(t, es, allowed);
    }
  }

  /** The exact condition, for keys without NUL: in a second pass every event goes where it went the first time, if and
      only if no event without a source key is later overtaken by a larger source key of its message. */
  lemma RoutesAgreeExactly(t: Tables, es: seq<Timed>, es': seq<Timed>, allowed: int)
    requires IdsMatch(t.messages) && AllPlain(es) && AllNulFree(es) && SameEvents(es, es')
             && AllAccepted(t, es, allowed)
    ensures SentBy(PutAll(t, es, allowed), es', allowed) == SentBy(t, es, allowed) <==> Settled(t.messages, es)
  {
    forall i: nat | i < |es|
      ensures SentBy(PutAll(t, es, allowed), es', allowed)[i] == SentBy(t, es, allowed)[i]
          <==> NotOvertaken(t.messages, es, i)
    {
      SameSentExactly(t, es, es', i, allowed);
    }
    AgreeEverywhere(SentBy(PutAll(t, es, allowed), es', allowed), SentBy(t, es, allowed));
  }

  lemma AgreeEverywhere(a: seq<Sent>, b: seq<Sent>)
    requires |a| == |b|
    ensures a == b <==> forall i: nat | i < |a| :: a[i] == b[i]
  {
  }

  lemma SameSentExactly(t: Tables, es: seq<Timed>, es': seq<Timed>, i: nat, allowed: int)
    requires IdsMatch(t.messages) && AllPlain(es) && AllNulFree(es) && SameEvents(es, es')
             && AllAccepted(t, es, allowed)
    requires i < |es|
    ensures SentBy(PutAll(t, es, allowed), es', allowed)[i] == SentBy(t, es, allowed)[i]
            <==> NotOvertaken(t.messages, es, i)
  {
    var t1 := PutAll(t, es, allowed);
    TopsAtEnd(t, es, allowed);
    PlainAgain(es, es');
    FrontAccepted(t, es, i, allowed);
    SecondAccepted(t, es, es', i, allowed);
    RouteIsTaken(t, es, i, allowed);
    RouteIsTaken(t1, es', i, allowed);
    SameRouteExactly(t.messages, t1.messages, es, es', i);
    SameIdSameRoute(KeyOfEvent(es[i].ev), Route(t1.messages, es', i), Route(t.messages, es, i));
  }

  lemma SameIdSameRoute(k: NaturalKey, pk: int, pk': int)
    requires KeyNulFree(k)
    ensures MessageID(k, pk) == MessageID(k, pk') <==> pk == pk'
  {
    if MessageID(k, pk) == MessageID(k, pk') {
      MessageIDInjective(k, pk, k, pk');
    }
  }

  /** Replaying a whole list of plain events, at any later times and from any table whose ids match its rows, is
      accepted and changes nothing but ingested_at and the run records: no row, no column, no index entry. It is enough
      that no event has a source key, or that the list is settled. */
  lemma ReplayChangesNothing(t: Tables, es: seq<Timed>, es': seq<Timed>, allowed: int)
    requires IdsMatch(t.messages) && AllPlain(es) && SameEvents(es, es') && AllAccepted(t, es, allowed)
    requires AllKeyless(es) || (AllNulFree(es) && Settled(t.messages, es))
    ensures var t1 := PutAll(t, es, allowed);
            AllAccepted(t1, es', allowed) && Unchanged(t1, PutAll(t1, es', allowed))
  {
    if AllKeyless(es) {
      KeylessAgree(t, es, es', allowed);
    } else {
      RoutesAgreeExactly(t, es, es', allowed);
    }
    SameRoutesChangeNothing(t, es, es', allowed);
  }

  /** A list in which every event carries its source key is settled. */
  lemma AllKeyedIsSettled(m: map<string, Row>, es: seq<Timed>)
    requires forall e | e in es :: e.ev.sourcePK != 0
    ensures Settled(m, es)
  {
    forall i: nat | i < |es| ensures NotOvertaken(m, es, i) {
      assert es[i] in es;
    }
  }

  // ---------------------------------------------------------------- a list that is not settled

  lemma LookupAfter(m: map<string, Row>, k: NaturalKey, pks: set<int>, top: int)
    requires PksOf(m, k) == pks && top in pks && forall p | p in pks :: p <= top
    ensures Lookup(m, k) == top
  {
  }

  lemma PutMessages(t: Tables, e: Timed, allowed: int, pk: int)
    requires ResolvePK(t.messages, e.ev, false) == pk && e.ev.chatJID in t.groups
    ensures Put(t, e, allowed).messages == Upsert(t.messages, MessageID(KeyOfEvent(e.ev), pk), e.ev, pk, e.now)
    ensures Put(t, e, allowed).groups == t.groups
  {
  }

  function Keyed(ev: Event, pk: int, text: string, now: int): Timed {
    Timed(ev.(sourcePK := pk, text := text), now)
  }

  /** The events of the example: key 5, no key, key 7. */
  function Mixed(t: Tables, ev: Event, textA: string, textB: string, now: int, allowed: int): Tables {
    Put(Put(Put(t, Keyed(ev, 5, textA, now), allowed), Keyed(ev, 0, textB, now), allowed),
        Keyed(ev, 7, textA, now), allowed)
  }

  /** The table before or after a round. */
  predicate Rows57(m: map<string, Row>, k: NaturalKey, ids: set<string>) {
    && m.Keys == ids && MessageID(k, 5) != MessageID(k, 7)
    && forall id | id in ids ::
         KeyOfRow(m[id].ident) == k && m[id].ident.sourcePK == (if id == MessageID(k, 5) then 5 else 7)
  }

  lemma FirstRound(groups: map<string, GroupRow>, ev: Event, textA: string, textB: string, now: int, allowed: int)
    requires ev.chatJID in groups && MessageID(KeyOfEvent(ev), 5) != MessageID(KeyOfEvent(ev), 7)
    ensures var k, t := KeyOfEvent(ev), Mixed(Tables(map[], [], map[], groups), ev, textA, textB, now, allowed);
            && t.groups == groups && Rows57(t.messages, k, {MessageID(k, 5), MessageID(k, 7)})
            && t.messages[MessageID(k, 5)].content.text == NullEmpty(textB)
  {
    var k := KeyOfEvent(ev);
    var t0 := Tables(map[], [], map[], groups);
    PutMessages(t0, Keyed(ev, 5, textA, now), allowed, 5);
    var a := Put(t0, Keyed(ev, 5, textA, now), allowed);
    OnlyKeys(a.messages, k, {MessageID(k, 5)});
    LookupAfter(a.messages, k, {5}, 5);
    PutMessages(a, Keyed(ev, 0, textB, now), allowed, 5);
    var b := Put(a, Keyed(ev, 0, textB, now), allowed);
    PutMessages(b, Keyed(ev, 7, textA, now), allowed, 7);
  }

  lemma SecondRound(t: Tables, ev: Event, textA: string, textB: string, now: int, allowed: int)
    requires ev.chatJID in t.groups
    requires Rows57(t.messages, KeyOfEvent(ev), {MessageID(KeyOfEvent(ev), 5), MessageID(KeyOfEvent(ev), 7)})
    ensures var id, t' := MessageID(KeyOfEvent(ev), 5), Mixed(t, ev, textA, textB, now, allowed);
            id in t'.messages && t'.messages[id].content.text == NullEmpty(textA)
  {
    var k := KeyOfEvent(ev);
    PutMessages(t, Keyed(ev, 5, textA, now), allowed, 5);
    var a := Put(t, Keyed(ev, 5, textA, now), allowed);
    OnlyKeys(a.messages, k, {MessageID(k, 5), MessageID(k, 7)});
    LookupAfter(a.messages, k, {5, 7}, 7);
    PutMessages(a, Keyed(ev, 0, textB, now), allowed, 7);
    var b := Put(a, Keyed(ev, 0, textB, now), allowed);
    PutMessages(b, Keyed(ev, 7, textA, now), allowed, 7);
  }

  /** With explicit source keys a replay can change a row: a first event under key 5, a second without a key
      (it goes to row 5), a third under key 7. On the replay the second event goes to row 7, so row 5 falls
      back to the first event's text. */
  lemma ReplayWithSourceKeysDiffers(groups: map<string, GroupRow>, ev: Event, textA: string, textB: string, now: int,
                                    allowed: int)
    requires textA != textB && ev.chatJID in groups && KeyNulFree(KeyOfEvent(ev)) && ev.mediaBytes == []
    ensures var id := MessageID(KeyOfEvent(ev), 5);
            var t1 := Mixed(Tables(map[], [], map[], groups), ev, textA, textB, now, allowed);
            var t2 := Mixed(t1, ev, textA, textB, now, allowed);
            && id in t1.messages && id in t2.messages
            && t1.messages[id].content.text == NullEmpty(textB) && t2.messages[id].content.text == NullEmpty(textA)
            && t1.messages[id].content.text != t2.messages[id].content.text
  {
    var k := KeyOfEvent(ev);
    if MessageID(k, 5) == MessageID(k, 7) { MessageIDInjective(k, 5, k, 7); }
    FirstRound(groups, ev, textA, textB, now, allowed);
    SecondRound(Mixed(Tables(map[], [], map[], groups), ev, textA, textB, now, allowed),
                ev, textA, textB, now, allowed);
  }

  lemma OnlyKeys(m: map<string, Row>, k: NaturalKey, ids: set<string>)
    requires m.Keys == ids && forall id | id in ids :: KeyOfRow(m[id].ident) == k
    ensures PksOf(m, k) == set id | id in ids :: m[id].ident.sourcePK
  {
  }
}
