/** One message, one row: although the key lookup runs outside the transaction, concurrent calls of Write
    never split a natural key over two rows. */
module NaturalKeys {
  import opened Text
  import opened Types
  import opened Store
  import opened StoreProtocol

  /** Every row sits under the id that its own columns give. */
  ghost predicate IdsMatch(m: map<string, Row>) {
    forall id | id in m :: id == MessageID(KeyOfRow(m[id].ident), m[id].ident.sourcePK)
  }

  ghost predicate OneRowPerKey(m: map<string, Row>) {
    forall id, id' | id in m && id' in m && KeyOfRow(m[id].ident) == KeyOfRow(m[id'].ident) :: id == id'
  }

  /** What the daemon does: it never sets a source key, and its lookups do not fail. */
  predicate Ordinary(a: Action) {
    && (a.Start? ==> a.ev.sourcePK == 0)
    && (a.LookUp? ==> !a.fails)
  }

  lemma NewRowKey(ev: Event, pk: int)
    ensures KeyOfRow(IdentityOf(ev, pk)) == KeyOfEvent(ev)
  {
  }

  lemma PkHasRow(m: map<string, Row>, k: NaturalKey, pk: int)
    requires IdsMatch(m)
    ensures pk in PksOf(m, k) ==> MessageID(k, pk) in m
  {
  }

  lemma RowHasPk(m: map<string, Row>)
    ensures forall x | x in m :: m[x].ident.sourcePK in PksOf(m, KeyOfRow(m[x].ident))
  {
  }

  lemma AtMostOnePk(m: map<string, Row>, k: NaturalKey)
    requires OneRowPerKey(m)
    ensures forall p, q | p in PksOf(m, k) && q in PksOf(m, k) :: p == q
  {
  }

  /** An upsert under the looked-up key changes no lookup, of this key or of any other. */
  lemma LookupStable(m: map<string, Row>, ev: Event, now: int, k: NaturalKey)
    requires IdsMatch(m)
    ensures var pk := Lookup(m, KeyOfEvent(ev));
            var id := MessageID(KeyOfEvent(ev), pk);
            && Lookup(Upsert(m, id, ev, pk, now), k) == Lookup(m, k)
            && (id !in m ==> PksOf(m, KeyOfEvent(ev)) == {})
  {
    var mine := KeyOfEvent(ev);
    var pk := Lookup(m, mine);
    var id := MessageID(mine, pk);
    var m' := Upsert(m, id, ev, pk, now);
    PkHasRow(m, mine, pk);
    NewRowKey(ev, pk);
    if id in m || k != mine {
      assert PksOf(m', k) == PksOf(m, k) by {
        forall p | p in PksOf(m, k) ensures p in PksOf(m', k) {
          var x :| x in m && KeyOfRow(m[x].ident) == k && m[x].ident.sourcePK == p;
          assert x in m' && m'[x].ident == m[x].ident;
        }
        forall p | p in PksOf(m', k) ensures p in PksOf(m, k) {
          var x :| x in m' && KeyOfRow(m'[x].ident) == k && m'[x].ident.sourcePK == p;
          assert x in m && m'[x].ident == m[x].ident;
        }
      }
    } else {
      assert PksOf(m', k) == {0} by {
        assert KeyOfRow(m'[id].ident) == k;
        RowHasPk(m);
        assert 0 in PksOf(m', k);
      }
    }
  }

  ghost predicate Inv(s: Sys) {
    var m := s.disk.tables.messages;
    && IdsMatch(m)
    && OneRowPerKey(m)
    && forall j | j in s.jobs ::
         && s.jobs[j].ev.sourcePK == 0
         && (s.jobs[j].phase.Keyed? ==> s.jobs[j].phase.pk == Lookup(m, KeyOfEvent(s.jobs[j].ev)))
  }

  lemma UpsertKeepsKeys(m: map<string, Row>, ev: Event, now: int)
    requires IdsMatch(m) && OneRowPerKey(m)
    ensures var pk := Lookup(m, KeyOfEvent(ev));
            var m' := Upsert(m, MessageID(KeyOfEvent(ev), pk), ev, pk, now);
            IdsMatch(m') && OneRowPerKey(m')
  {
    var k := KeyOfEvent(ev);
    var pk := Lookup(m, k);
    var id := MessageID(k, pk);
    LookupStable(m, ev, now, k);
    NewRowKey(ev, pk);
    RowHasPk(m);
  }

  lemma SameIdentsSameKeys(m: map<string, Row>, m': map<string, Row>)
    requires m'.Keys == m.Keys && Persists(m, m')
    ensures forall k :: PksOf(m', k) == PksOf(m, k)
    ensures IdsMatch(m) ==> IdsMatch(m')
    ensures OneRowPerKey(m) ==> OneRowPerKey(m')
  {
    forall k ensures PksOf(m', k) == PksOf(m, k) {
      forall p ensures p in PksOf(m', k) <==> p in PksOf(m, k) {
        if p in PksOf(m, k) {
          var x :| x in m && KeyOfRow(m[x].ident) == k && m[x].ident.sourcePK == p;
          assert x in m' && m'[x].ident == m[x].ident;
        }
        if p in PksOf(m', k) {
          var x :| x in m' && KeyOfRow(m'[x].ident) == k && m'[x].ident.sourcePK == p;
          assert x in m && m'[x].ident == m[x].ident;
        }
      }
    }
  }

  /** Rows and ids still match, and every lookup answers what it did. */
  ghost predicate RowsKept(m: map<string, Row>, m': map<string, Row>) {
    IdsMatch(m') && OneRowPerKey(m') && forall k :: Lookup(m', k) == Lookup(m, k)
  }

  lemma UpsertKeepsRows(m: map<string, Row>, ev: Event, now: int)
    requires IdsMatch(m) && OneRowPerKey(m) && ev.sourcePK == 0
    ensures var pk := Lookup(m, KeyOfEvent(ev));
            RowsKept(m, Upsert(m, MessageID(KeyOfEvent(ev), pk), ev, pk, now))
  {
    var pk := Lookup(m, KeyOfEvent(ev));
    var m' := Upsert(m, MessageID(KeyOfEvent(ev), pk), ev, pk, now);
    UpsertKeepsKeys(m, ev, now);
    forall k ensures Lookup(m', k) == Lookup(m, k) {
      LookupStable(m, ev, now, k);
    }
  }

  lemma QuietKeepsRows(m: map<string, Row>, m': map<string, Row>)
    requires IdsMatch(m) && OneRowPerKey(m) && m'.Keys == m.Keys && Persists(m, m')
    ensures RowsKept(m, m')
  {
    SameIdentsSameKeys(m, m');
    forall k ensures Lookup(m', k) == Lookup(m, k) {
      assert PksOf(m', k) == PksOf(m, k);
    }
  }

  lemma InvKept(s: Sys, a: Action)
    requires Inv(s) && Ordinary(a)
    ensures Inv(Next(s, a))
  {
    if Commits(s, a) {
      CommitEffect(s, a);
      UpsertKeepsRows(s.disk.tables.messages, s.jobs[a.j].ev, a.now);
    } else {
      QuietEffect(s, a);
      QuietKeepsRows(s.disk.tables.messages, Next(s, a).disk.tables.messages);
    }
    JobsKept(s, a);
  }

  lemma JobsKept(s: Sys, a: Action)
    requires Inv(s) && Ordinary(a)
    requires RowsKept(s.disk.tables.messages, Next(s, a).disk.tables.messages)
    ensures forall j | j in Next(s, a).jobs ::
              var job := Next(s, a).jobs[j];
              && job.ev.sourcePK == 0
              && (job.phase.Keyed? ==> job.phase.pk == Lookup(Next(s, a).disk.tables.messages, KeyOfEvent(job.ev)))
  {
    forall j | j in Next(s, a).jobs
      ensures var job := Next(s, a).jobs[j];
              && job.ev.sourcePK == 0
              && (job.phase.Keyed? ==> job.phase.pk == Lookup(s.disk.tables.messages, KeyOfEvent(job.ev)))
    {
      JobOrigin(s, a, j);
    }
  }

  lemma {:induction false} InvAlways(s: Sys, schedule: seq<Action>)
    requires Inv(s) && forall a | a in schedule :: Ordinary(a)
    ensures Inv(Exec(s, schedule))
  {
    if schedule != [] {
      InvAlways(s, schedule[..|schedule| - 1]);
      InvKept(Exec(s, schedule[..|schedule| - 1]), schedule[|schedule| - 1]);
    }
  }

  /** The main result: whatever the interleaving, the crashes and the failures, a table with at most one
      row per natural key keeps at most one row per natural key. */
  lemma NeverTwoRows(s: Sys, schedule: seq<Action>)
    requires s.jobs == map[]
    requires IdsMatch(s.disk.tables.messages) && OneRowPerKey(s.disk.tables.messages)
    requires forall a | a in schedule :: Ordinary(a)
    ensures IdsMatch(Exec(s, schedule).disk.tables.messages) && OneRowPerKey(Exec(s, schedule).disk.tables.messages)
  {
    InvAlways(s, schedule);
  }

  /** Exactly when storing under (key, pk) keeps one row per key: the key is new, or pk is one it already
      has. A failed lookup (pk 0) or an explicit source key may miss both. */
  lemma OneRowExactlyWhen(m: map<string, Row>, ev: Event, pk: int, now: int)
    requires IdsMatch(m) && OneRowPerKey(m) && KeyNulFree(KeyOfEvent(ev))
    ensures var k := KeyOfEvent(ev);
            OneRowPerKey(Upsert(m, MessageID(k, pk), ev, pk, now)) <==> (PksOf(m, k) == {} || pk in PksOf(m, k))
  {
    var k := KeyOfEvent(ev);
    var id := MessageID(k, pk);
    var m' := Upsert(m, id, ev, pk, now);
    NewRowKey(ev, pk);
    PkHasRow(m, k, pk);
    if id in m {
      MessageIDInjective(k, pk, KeyOfRow(m[id].ident), m[id].ident.sourcePK);
      assert pk in PksOf(m, k);
      SameIdentsSameKeys(m, m');
    } else if PksOf(m, k) == {} {
      RowHasPk(m);
    } else {
      SomeMember(PksOf(m, k));
      var p: int :| p in PksOf(m, k);
      var x :| x in m && KeyOfRow(m[x].ident) == k && m[x].ident.sourcePK == p;
      assert KeyOfRow(m'[x].ident) == KeyOfRow(m'[id].ident) && x != id;
    }
  }

  /** A lookup that fails really splits a message whose row carries a source key. */
  lemma FailedLookupSplits(m: map<string, Row>, ev: Event, now: int)
    requires IdsMatch(m) && OneRowPerKey(m) && KeyNulFree(KeyOfEvent(ev)) && ev.sourcePK == 0
    requires Lookup(m, KeyOfEvent(ev)) != 0
    ensures var pk := ResolvePK(m, ev, true);
            !OneRowPerKey(Upsert(m, MessageID(KeyOfEvent(ev), pk), ev, pk, now))
  {
    AtMostOnePk(m, KeyOfEvent(ev));
    OneRowExactlyWhen(m, ev, 0, now);
  }
}
