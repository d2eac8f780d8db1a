/** The allowlist: config.go, and the second reader of the same file in unseen.go. */
module Config {
  import opened Text
  import opened Types

  // ---------------------------------------------------------------- the parsed file

  /** A JSON value where a string is expected. */
  datatype Json = Str(s: string) | Null | Other

  datatype TenantsField = List(values: seq<Json>) | NullTenants | OtherTenants

  /** The fields that only Load reads. */
  datatype Rest = Rest(
    purpose: string,
    ingestText: Option<bool>,
    ingestMediaMetadata: Option<bool>,
    copyMedia: Option<bool>,
    indexEmbeddings: Option<bool>,
    retentionDays: Option<int>)

  /** One entry of "groups"; an absent field is None, and rest is None when one of the other fields has a
      wrong type. encoding/json takes the key of a struct field in any letter case; jidPlain and tenantsPlain say that
      the key is spelled "jid" and "tenants", which is how the reader looks it up. */
  datatype RawGroup = RawGroup(
    jid: Option<Json>,
    jidPlain: bool,
    chatLabel: Option<Json>,
    tenants: Option<TenantsField>,
    tenantsPlain: bool,
    rest: Option<Rest>)

  datatype File = File(enabled: bool, groups: seq<RawGroup>)

  /** What encoding/json puts into a string field; None is a type error. */
  function AsString(v: Option<Json>): Option<string> {
    match v
    case None => Some("")
    case Some(Null) => Some("")
    case Some(Str(s)) => Some(s)
    case Some(Other) => None
  }

  /** The same for the elements of a []string. */
  function AsStrings(values: seq<Json>): Option<seq<string>> {
    if values == [] then Some([])
    else
      var front, last := AsStrings(values[..|values| - 1]), AsString(Some(values[|values| - 1]));
      if front.Some? && last.Some? then Some(front.value + [last.value]) else None
  }

  predicate WellTyped(g: RawGroup) {
    && AsString(g.jid).Some? && AsString(g.chatLabel).Some? && g.rest.Some?
    && (g.tenants.Some? ==> !g.tenants.value.OtherTenants?
                            && (g.tenants.value.List? ==> AsStrings(g.tenants.value.values).Some?))
  }

  /** What encoding/json accepts: texts where texts belong, and JSON's null anywhere. */
  lemma WellTypedExactly(g: RawGroup)
    ensures WellTyped(g)
        <==> && g.jid != Some(Other) && g.chatLabel != Some(Other) && g.rest != None
             && (g.tenants == None || g.tenants == Some(NullTenants)
                 || (g.tenants.Some? && g.tenants.value.List? && Other !in g.tenants.value.values))
  {
    if g.tenants.Some? && g.tenants.value.List? {
      StringsExactly(g.tenants.value.values);
    }
  }

  lemma {:induction false} StringsExactly(values: seq<Json>)
    ensures AsStrings(values).Some? <==> Other !in values
    decreases |values|
  {
    if values != [] {
      StringsExactly(values[..|values| - 1]);
      assert values == values[..|values| - 1] + [values[|values| - 1]];
    }
  }

  // ---------------------------------------------------------------- Load

  /** How many '@' there are, and where the first is. */
  function Ats(s: string): nat {
    if s == [] then 0 else (if s[0] == '@' then 1 else 0) + Ats(s[1..])
  }

  function FirstAt(s: string): nat
    ensures FirstAt(s) <= |s|
  {
    if s == [] || s[0] == '@' then 0 else 1 + FirstAt(s[1..])
  }

  predicate SupportedChatJID(jid: string) {
    && Ats(jid) == 1
    && FirstAt(jid) < |jid|
    && var user, server := jid[..FirstAt(jid)], jid[FirstAt(jid) + 1..];
       && user != ""
       && (server == "g.us"
           || ((server == "s.whatsapp.net" || server == "lid") && forall i | 0 <= i < |user| :: IsDigit(user[i])))
  }

  /** normalizeTenants: trimmed, none empty, no duplicates, at least one. */
  function Tenants(values: seq<string>): Option<seq<string>> {
    if values == [] then None else TenantsFrom(values)
  }

  function TenantsFrom(values: seq<string>): Option<seq<string>> {
    if values == [] then Some([])
    else
      var front, last := TenantsFrom(values[..|values| - 1]), TrimSpace(values[|values| - 1]);
      if front.None? || last == "" || last in front.value then None else Some(front.value + [last])
  }

  method NormalizeTenants(values: seq<string>) returns (r: Option<seq<string>>)
    ensures r == Tenants(values)
  {
    if |values| == 0 {
      return None;
    }
    var out: seq<string> := [];
    var seen: set<string> := {};
    var i := 0;
    while i < |values|
      invariant 0 <= i <= |values|
      invariant TenantsFrom(values[..i]) == Some(out)
      invariant forall t :: t in seen <==> t in out
    {
      assert values[..i + 1][..i] == values[..i];
      var tenant := TrimSpace(values[i]);
      if tenant == "" || tenant in seen {
        TenantsFail(values, i + 1);
        return None;
      }
      seen := seen + {tenant};
      out := out + [tenant];
      i := i + 1;
    }
    assert values[..i] == values;
    r := Some(out);
  }

  lemma {:induction false} TenantsFail(values: seq<string>, n: nat)
    requires n <= |values| && TenantsFrom(values[..n]).None?
    ensures TenantsFrom(values).None?
    decreases |values|
  {
    if n < |values| {
      assert values[..|values| - 1][..n] == values[..n];
      TenantsFail(values[..|values| - 1], n);
    } else {
      assert values[..n] == values;
    }
  }

  function BoolDefault(v: Option<bool>, fallback: bool): bool {
    match v
    case Some(b) => b
    case None => fallback
  }

  function JidOf(g: RawGroup): string
    requires WellTyped(g)
  {
    TrimSpace(AsString(g.jid).value)
  }

  function LabelOf(g: RawGroup): string
    requires WellTyped(g)
  {
    TrimSpace(AsString(g.chatLabel).value)
  }

  function TenantsOf(g: RawGroup): Option<seq<string>>
    requires WellTyped(g)
  {
    if g.tenants.None? || !g.tenants.value.List? then None else Tenants(AsStrings(g.tenants.value.values).value)
  }

  /** One entry on its own; None is one of Load's errors. */
  function LoadOne(g: RawGroup): Option<Group>
    requires WellTyped(g)
  {
    var jid, title, r := JidOf(g), LabelOf(g), g.rest.value;
    if jid == "" || title == "" || !SupportedChatJID(jid) || TenantsOf(g).None? then None
    else Some(Group(jid, title, TenantsOf(g).value, r.purpose, BoolDefault(r.ingestText, true),
                    BoolDefault(r.ingestMediaMetadata, true), BoolDefault(r.copyMedia, false),
                    BoolDefault(r.indexEmbeddings, false), r.retentionDays))
  }

  predicate Takes(gs: seq<Group>, g: Group) {
    forall i | 0 <= i < |gs| :: gs[i].jid != g.jid && gs[i].chatLabel != g.chatLabel
  }

  function Ones(groups: seq<RawGroup>): (r: seq<Option<Group>>)
    requires forall g | g in groups :: WellTyped(g)
    ensures |r| == |groups|
  {
    seq(|groups|, i requires 0 <= i < |groups| => LoadOne(groups[i]))
  }

  /** The entries in order, with no chat and no label twice. */
  function Gather(ones: seq<Option<Group>>): Option<seq<Group>> {
    if ones == [] then Some([])
    else
      var front, last := Gather(ones[..|ones| - 1]), ones[|ones| - 1];
      if front.None? || last.None? || !Takes(front.value, last.value) then None else Some(front.value + [last.value])
  }

  /** Load, given the parsed file. */
  function Loaded(f: File): Option<seq<Group>> {
    if exists g :: g in f.groups && !WellTyped(g) then None
    else if !f.enabled then Some([])
    else Gather(Ones(f.groups))
  }

  lemma {:induction false} GatherFails(ones: seq<Option<Group>>, n: nat)
    requires n <= |ones| && Gather(ones[..n]).None?
    ensures Gather(ones).None?
    decreases |ones|
  {
    if n < |ones| {
      assert ones[..|ones| - 1][..n] == ones[..n];
      GatherFails(ones[..|ones| - 1], n);
    } else {
      assert ones[..n] == ones;
    }
  }

  /** The loop of Load, on the entries of a file that unmarshals. */
  method Accept(ones: seq<Option<Group>>) returns (r: Option<seq<Group>>)
    ensures r == Gather(ones)
  {
    var out: seq<Group> := [];
    var seenJID: set<string>, seenLabel: set<string> := {}, {};
    var i := 0;
    while i < |ones|
      invariant 0 <= i <= |ones|
      invariant Gather(ones[..i]) == Some(out)
      invariant seenJID == set g | g in out :: g.jid
      invariant seenLabel == set g | g in out :: g.chatLabel
    {
      assert ones[..i + 1][..i] == ones[..i];
      var one := ones[i];
      if one.Some? {
        SeenMeansTaken(out, one.value, seenJID, seenLabel);
      }
      if one.None? || one.value.jid in seenJID || one.value.chatLabel in seenLabel {
        GatherFails(ones, i + 1);
        return None;
      }
      seenJID, seenLabel := seenJID + {one.value.jid}, seenLabel + {one.value.chatLabel};
      out := out + [one.value];
      i := i + 1;
    }
    assert ones[..i] == ones;
    r := Some(out);
  }

  lemma SeenMeansTaken(out: seq<Group>, g: Group, seenJID: set<string>, seenLabel: set<string>)
    requires seenJID == set x | x in out :: x.jid
    requires seenLabel == set x | x in out :: x.chatLabel
    ensures Takes(out, g) <==> g.jid !in seenJID && g.chatLabel !in seenLabel
  {
    if Takes(out, g) {
      assert g.jid !in seenJID && g.chatLabel !in seenLabel;
    } else {
      var i :| 0 <= i < |out| && !(out[i].jid != g.jid && out[i].chatLabel != g.chatLabel);
      assert out[i] in out;
    }
  }

  method Load(f: File) returns (r: Option<seq<Group>>)
    ensures r == Loaded(f)
  {
    if exists g :: g in f.groups && !WellTyped(g) {
      return None;
    }
    r := Accept(Ones(if f.enabled then f.groups else []));
  }

  // ---------------------------------------------------------------- TenantGroupJIDs

  /** The value.(string) assertions and the trimming of groupTenants; None is its error. */
  function ReaderTenantsFrom(values: seq<Json>): Option<seq<string>> {
    if values == [] then Some([])
    else
      var front, last := ReaderTenantsFrom(values[..|values| - 1]), values[|values| - 1];
      if front.None? || !last.Str? || TrimSpace(last.s) == "" then None else Some(front.value + [TrimSpace(last.s)])
  }

  function ReaderTenants(g: RawGroup): Option<seq<string>> {
    if !g.tenantsPlain || g.tenants.None? || !g.tenants.value.List? || g.tenants.value.values == [] then None
    else ReaderTenantsFrom(g.tenants.value.values)
  }

  /** strings.TrimSpace(rawString(group["jid"], "")) */
  function ReaderJid(g: RawGroup): string {
    if g.jidPlain && g.jid.Some? && g.jid.value.Str? then TrimSpace(g.jid.value.s) else ""
  }

  /** What the reader takes from one entry. */
  datatype Entry = Entry(jid: string, tenants: Option<seq<string>>)

  function Entries(groups: seq<RawGroup>): (r: seq<Entry>)
    ensures |r| == |groups|
  {
    seq(|groups|, i requires 0 <= i < |groups| => Entry(ReaderJid(groups[i]), ReaderTenants(groups[i])))
  }

  function GatherJids(entries: seq<Entry>, tenant: string): Option<seq<string>> {
    if entries == [] then Some([])
    else
      var front, last := GatherJids(entries[..|entries| - 1], tenant), entries[|entries| - 1];
      if front.None? || last.tenants.None? then None
      else if last.jid == "" || tenant !in last.tenants.value then front
      else Some(front.value + [last.jid])
  }

  function TenantGroupJIDsOf(f: File, tenant: string): Option<seq<string>> {
    if !f.enabled then Some([]) else GatherJids(Entries(f.groups), tenant)
  }

  lemma {:induction false} GatherJidsFails(entries: seq<Entry>, tenant: string, n: nat)
    requires n <= |entries| && GatherJids(entries[..n], tenant).None?
    ensures GatherJids(entries, tenant).None?
    decreases |entries|
  {
    if n < |entries| {
      assert entries[..|entries| - 1][..n] == entries[..n];
      GatherJidsFails(entries[..|entries| - 1], tenant, n);
    } else {
      assert entries[..n] == entries;
    }
  }

  method TenantGroupJIDs(f: File, tenant: string) returns (r: Option<seq<string>>)
    ensures r == TenantGroupJIDsOf(f, tenant)
  {
    if !f.enabled {
      return Some([]);
    }
    ghost var entries := Entries(f.groups);
    var jids: seq<string> := [];
    var i := 0;
    while i < |f.groups|
      invariant 0 <= i <= |f.groups|
      invariant GatherJids(entries[..i], tenant) == Some(jids)
    {
      assert entries[..i + 1][..i] == entries[..i];
      var tenants := ReaderTenants(f.groups[i]);
      if tenants.None? {
        GatherJidsFails(entries, tenant, i + 1);
        return None;
      }
      var jid := ReaderJid(f.groups[i]);
      assert entries[i] == Entry(jid, tenants);
      if jid != "" {
        var k := 0;
        while k < |tenants.value| && tenants.value[k] != tenant
          invariant 0 <= k <= |tenants.value|
          invariant tenant !in tenants.value[..k]
        {
          k := k + 1;
        }
        if k < |tenants.value| {
          jids := jids + [jid];
        } else {
          assert tenants.value[..k] == tenants.value;
        }
      }
      i := i + 1;
    }
    assert entries[..i] == entries;
    r := Some(jids);
  }

  // ---------------------------------------------------------------- the two readers agree

  predicate HasTenant(g: Group, tenant: string) {
    tenant in g.tenants
  }

  /** The chats of the loaded groups that hold a tenant, in order. */
  function JidsHolding(gs: seq<Group>, tenant: string): seq<string> {
    if gs == [] then []
    else JidsHolding(gs[..|gs| - 1], tenant) + if HasTenant(gs[|gs| - 1], tenant) then [gs[|gs| - 1].jid] else []
  }

  lemma {:induction false} SameTenants(values: seq<Json>)
    requires AsStrings(values).Some? && TenantsFrom(AsStrings(values).value).Some?
    ensures ReaderTenantsFrom(values) == TenantsFrom(AsStrings(values).value)
    decreases |values|
  {
    if values != [] {
      var strings := AsStrings(values).value;
      assert strings[..|strings| - 1] == AsStrings(values[..|values| - 1]).value;
      SameTenants(values[..|values| - 1]);
      assert TrimSpace("") == "";
    }
  }

  lemma {:induction false} StringsLength(values: seq<Json>)
    requires AsStrings(values).Some?
    ensures |AsStrings(values).value| == |values|
    decreases |values|
  {
    if values != [] {
      StringsLength(values[..|values| - 1]);
    }
  }

  lemma ReaderAgreesOnOne(g: RawGroup)
    requires WellTyped(g) && LoadOne(g).Some?
    ensures LoadOne(g).value.jid != "" && ReaderJid(g) == if g.jidPlain then LoadOne(g).value.jid else ""
    ensures ReaderTenants(g) == if g.tenantsPlain then Some(LoadOne(g).value.tenants) else None
  {
    StringsLength(g.tenants.value.values);
    SameTenants(g.tenants.value.values);
    assert TrimSpace("") == "";
  }

  /** The reader sees the tenants of every entry, and the JIDs of those that hold the tenant. */
  lemma {:induction false} GathersAgree(ones: seq<Option<Group>>, entries: seq<Entry>, tenant: string)
    requires Gather(ones).Some? && |entries| == |ones|
    requires forall i | 0 <= i < |ones| && ones[i].Some? ::
               && ones[i].value.jid != "" && entries[i].tenants == Some(ones[i].value.tenants)
               && (HasTenant(ones[i].value, tenant) ==> entries[i].jid == ones[i].value.jid)
    ensures GatherJids(entries, tenant) == Some(JidsHolding(Gather(ones).value, tenant))
    decreases |ones|
  {
    if ones != [] {
      GathersAgree(ones[..|ones| - 1], entries[..|entries| - 1], tenant);
      var gs := Gather(ones).value;
      var front := Gather(ones[..|ones| - 1]).value;
      assert gs[..|gs| - 1] == front;
      assert JidsHolding(front, tenant) + [] == JidsHolding(front, tenant);
    }
  }

  /** Entry i holds the tenant, but the reader sees no JID there. */
  predicate Misses(ones: seq<Option<Group>>, entries: seq<Entry>, tenant: string, i: int) {
    0 <= i < |ones| == |entries| && ones[i].Some? && HasTenant(ones[i].value, tenant) && entries[i].jid == ""
  }

  /** Then its list is shorter. */
  lemma {:induction false} ShorterList(ones: seq<Option<Group>>, entries: seq<Entry>, tenant: string)
    requires Gather(ones).Some? && |entries| == |ones|
    requires forall i | 0 <= i < |ones| && ones[i].Some? :: entries[i].tenants == Some(ones[i].value.tenants)
    ensures GatherJids(entries, tenant).Some?
    ensures var listed, expected := |GatherJids(entries, tenant).value|, |JidsHolding(Gather(ones).value, tenant)|;
            listed <= expected && ((exists i :: Misses(ones, entries, tenant, i)) ==> listed < expected)
    decreases |ones|
  {
    if ones != [] {
      var ones', entries' := ones[..|ones| - 1], entries[..|entries| - 1];
      ShorterList(ones', entries', tenant);
      var gs := Gather(ones).value;
      assert gs[..|gs| - 1] == Gather(ones').value;
      if i :| Misses(ones, entries, tenant, i) && i < |ones'| {
        assert Misses(ones', entries', tenant, i);
      }
    }
  }

  predicate DistinctGroups(gs: seq<Group>) {
    forall i, j | 0 <= i < j < |gs| :: gs[i].jid != gs[j].jid && gs[i].chatLabel != gs[j].chatLabel
  }

  lemma {:induction false} GatheredDistinct(ones: seq<Option<Group>>)
    requires Gather(ones).Some?
    ensures DistinctGroups(Gather(ones).value)
    ensures forall g | g in Gather(ones).value :: Some(g) in ones
    decreases |ones|
  {
    if ones != [] {
      GatheredDistinct(ones[..|ones| - 1]);
      assert ones[|ones| - 1] in ones && forall o | o in ones[..|ones| - 1] :: o in ones;
    }
  }

  /** A trimmed text that is not empty. */
  predicate Proper(s: string) {
    s != "" && TrimSpace(s) == s
  }

  /** A supported chat, a proper JID and label, and a proper list of tenants without repetitions. */
  ghost predicate SoundGroup(g: Group) {
    && SupportedChatJID(g.jid) && Proper(g.jid) && Proper(g.chatLabel)
    && g.tenants != [] && Distinct(g.tenants) && forall t | t in g.tenants :: Proper(t)
  }

  /** What Load accepts: no chat and no label twice, and only sound groups. */
  lemma LoadedGroupsSound(f: File)
    requires Loaded(f).Some?
    ensures DistinctGroups(Loaded(f).value)
    ensures forall g | g in Loaded(f).value :: SoundGroup(g)
  {
    if f.enabled {
      var ones := Ones(f.groups);
      GatheredDistinct(ones);
      forall g | g in Loaded(f).value ensures SoundGroup(g) {
        var i :| 0 <= i < |ones| && ones[i] == Some(g);
        assert LoadOne(f.groups[i]) == Some(g);
        LoadedOneSound(f.groups[i]);
      }
    }
  }

  lemma LoadedOneSound(raw: RawGroup)
    requires WellTyped(raw) && LoadOne(raw).Some?
    ensures SoundGroup(LoadOne(raw).value)
  {
    StringsLength(raw.tenants.value.values);
    TenantsProper(AsStrings(raw.tenants.value.values).value);
    TrimIdempotent(AsString(raw.jid).value);
    TrimIdempotent(AsString(raw.chatLabel).value);
  }

  lemma {:induction false} TenantsProper(values: seq<string>)
    requires TenantsFrom(values).Some?
    ensures |TenantsFrom(values).value| == |values| && Distinct(TenantsFrom(values).value)
    ensures forall t | t in TenantsFrom(values).value :: Proper(t)
    decreases |values|
  {
    if values != [] {
      TenantsProper(values[..|values| - 1]);
      TrimIdempotent(values[|values| - 1]);
    }
  }

  predicate Holds(gs: seq<Group>, tenant: string, jid: string) {
    exists i :: 0 <= i < |gs| && gs[i].jid == jid && HasTenant(gs[i], tenant)
  }

  lemma OneMoreHolds(front: seq<Group>, last: Group, tenant: string, jid: string)
    ensures Holds(front + [last], tenant, jid)
        <==> Holds(front, tenant, jid) || (last.jid == jid && HasTenant(last, tenant))
  {
    var gs := front + [last];
    assert gs[|front|] == last;
    if Holds(front, tenant, jid) {
      var i :| 0 <= i < |front| && front[i].jid == jid && HasTenant(front[i], tenant);
      assert gs[i] == front[i];
    }
  }

  /** A chat is listed exactly when a group of it holds the tenant. */
  lemma {:induction false} HoldingIn(gs: seq<Group>, tenant: string, jid: string)
    ensures jid in JidsHolding(gs, tenant) <==> Holds(gs, tenant, jid)
    decreases |gs|
  {
    if gs != [] {
      HoldingIn(gs[..|gs| - 1], tenant, jid);
      OneMoreHolds(gs[..|gs| - 1], gs[|gs| - 1], tenant, jid);
      assert gs[..|gs| - 1] + [gs[|gs| - 1]] == gs;
    }
  }

  lemma {:induction false} HoldingDistinct(gs: seq<Group>, tenant: string)
    requires DistinctGroups(gs)
    ensures Distinct(JidsHolding(gs, tenant))
    decreases |gs|
  {
    if gs != [] {
      var front, last := gs[..|gs| - 1], gs[|gs| - 1];
      assert forall i | 0 <= i < |front| :: front[i] == gs[i] && front[i].jid != last.jid;
      HoldingDistinct(front, tenant);
      HoldingIn(front, tenant, last.jid);
      assert !Holds(front, tenant, last.jid);
    }
  }

  /** Every entry spells the key of its tenants as the reader does, and every entry that holds the tenant that of its
      JID. */
  ghost predicate Legible(f: File, tenant: string)
    requires Loaded(f).Some?
  {
    f.enabled ==>
      forall g | g in f.groups ::
        g.tenantsPlain && (g.jidPlain || !EntryHolds(g, tenant))
  }

  predicate EntryHolds(g: RawGroup, tenant: string)
    requires WellTyped(g)
  {
    LoadOne(g).Some? && HasTenant(LoadOne(g).value, tenant)
  }

  /** An accepted file loads entry by entry. */
  lemma {:induction false} GatherTakesAll(ones: seq<Option<Group>>)
    requires Gather(ones).Some?
    ensures forall i | 0 <= i < |ones| :: ones[i].Some?
    decreases |ones|
  {
    if ones != [] {
      GatherTakesAll(ones[..|ones| - 1]);
      assert forall i | 0 <= i < |ones| - 1 :: ones[i] == ones[..|ones| - 1][i];
    }
  }

  /** What the reader makes of the entries of an accepted file. */
  lemma EntriesOfAccepted(f: File)
    requires Loaded(f).Some? && f.enabled
    ensures forall i | 0 <= i < |f.groups| ::
              var one, e, g := LoadOne(f.groups[i]), Entries(f.groups)[i], f.groups[i];
              && one.Some? && one.value.jid != "" && e.jid == (if g.jidPlain then one.value.jid else "")
              && e.tenants == if g.tenantsPlain then Some(one.value.tenants) else None
  {
    GatherTakesAll(Ones(f.groups));
    forall i | 0 <= i < |f.groups|
      ensures var one, e, g := LoadOne(f.groups[i]), Entries(f.groups)[i], f.groups[i];
              && one.Some? && one.value.jid != "" && e.jid == (if g.jidPlain then one.value.jid else "")
              && e.tenants == if g.tenantsPlain then Some(one.value.tenants) else None
    {
      assert Ones(f.groups)[i].Some?;
      ReaderAgreesOnOne(f.groups[i]);
    }
  }

  /** Of every file that Load accepts the reader sees the chats of the loaded groups that hold its tenant, in order
      and once each, and nothing when the file is disabled, if and only if the keys are spelled as it looks them up. */
  lemma ReadersAgree(f: File, tenant: string)
    requires Loaded(f).Some?
    ensures TenantGroupJIDsOf(f, tenant) == Some(JidsHolding(Loaded(f).value, tenant)) <==> Legible(f, tenant)
    ensures Distinct(JidsHolding(Loaded(f).value, tenant))
    ensures !f.enabled ==> TenantGroupJIDsOf(f, tenant) == Some([])
  {
    if f.enabled {
      GatheredDistinct(Ones(f.groups));
      HoldingDistinct(Loaded(f).value, tenant);
      EntriesOfAccepted(f);
      if Legible(f, tenant) {
        GathersAgree(Ones(f.groups), Entries(f.groups), tenant);
      } else {
        IllegibleDiffers(f, tenant);
      }
    }
  }

  lemma IllegibleTenants(f: File, tenant: string, i: nat)
    requires Loaded(f).Some? && f.enabled && i < |f.groups| && !f.groups[i].tenantsPlain
    ensures TenantGroupJIDsOf(f, tenant).None?
  {
    var entries := Entries(f.groups);
    var upTo := entries[..i + 1];
    assert upTo[|upTo| - 1] == entries[i] && entries[i].tenants.None?;
    GatherJidsFails(entries, tenant, i + 1);
  }

  lemma IllegibleJid(f: File, tenant: string, i: nat)
    requires Loaded(f).Some? && f.enabled && i < |f.groups| && forall g | g in f.groups :: g.tenantsPlain
    requires !f.groups[i].jidPlain && EntryHolds(f.groups[i], tenant)
    ensures TenantGroupJIDsOf(f, tenant) != Some(JidsHolding(Loaded(f).value, tenant))
  {
    EntriesOfAccepted(f);
    var ones, entries := Ones(f.groups), Entries(f.groups);
    assert Misses(ones, entries, tenant, i);
    forall k | 0 <= k < |ones| && ones[k].Some? ensures entries[k].tenants == Some(ones[k].value.tenants) {
      assert f.groups[k] in f.groups;
    }
    ShorterList(ones, entries, tenant);
  }

  lemma IllegibleDiffers(f: File, tenant: string)
    requires Loaded(f).Some? && f.enabled && !Legible(f, tenant)
    ensures TenantGroupJIDsOf(f, tenant) != Some(JidsHolding(Loaded(f).value, tenant))
  {
    var g :| g in f.groups && !(g.tenantsPlain && (g.jidPlain || !EntryHolds(g, tenant)));
    var i: nat :| i < |f.groups| && f.groups[i] == g;
    if k: nat :| k < |f.groups| && !f.groups[k].tenantsPlain {
      IllegibleTenants(f, tenant, k);
    } else {
      IllegibleJid(f, tenant, i);
    }
  }

  // ---------------------------------------------------------------- what a loaded group says

  /** A field of the file that holds this text; a JSON null and an absent field hold the empty one. */
  predicate Holding(v: Option<Json>, s: string) {
    v == Some(Str(s)) || (s == "" && (v == None || v == Some(Null)))
  }

  /** The group of an entry, field by field: what is not said is the default, which lets text and descriptions in and
      files not. */
  ghost predicate SaysWhat(g: RawGroup, group: Group) {
    && g.rest.Some?
    && var r := g.rest.value;
       && (exists s :: Holding(g.jid, s) && group.jid == TrimSpace(s))
       && (exists s :: Holding(g.chatLabel, s) && group.chatLabel == TrimSpace(s))
       && (group.ingestText == false <==> r.ingestText == Some(false))
       && (group.ingestMediaMetadata == false <==> r.ingestMediaMetadata == Some(false))
       && (group.copyMedia == true <==> r.copyMedia == Some(true))
       && (group.indexEmbeddings == true <==> r.indexEmbeddings == Some(true))
       && group.purpose == r.purpose && group.retentionDays == r.retentionDays
  }

  lemma OneSaysWhat(g: RawGroup)
    requires WellTyped(g) && LoadOne(g).Some?
    ensures SaysWhat(g, LoadOne(g).value)
  {
    HoldsItsString(g.jid);
    HoldsItsString(g.chatLabel);
  }

  lemma HoldsItsString(v: Option<Json>)
    requires AsString(v).Some?
    ensures Holding(v, AsString(v).value)
  {
  }

  /** And its tenants are those of the entry, trimmed, one by one. */
  ghost predicate SaysTenants(g: RawGroup, group: Group) {
    && g.tenants.Some? && g.tenants.value.List? && |group.tenants| == |g.tenants.value.values|
    && forall k | 0 <= k < |group.tenants| ::
         exists s :: Holding(Some(g.tenants.value.values[k]), s) && group.tenants[k] == TrimSpace(s)
  }

  lemma {:induction false} StringsAre(values: seq<Json>)
    requires AsStrings(values).Some?
    ensures |AsStrings(values).value| == |values|
    ensures forall k | 0 <= k < |values| :: Holding(Some(values[k]), AsStrings(values).value[k])
    decreases |values|
  {
    if values != [] {
      var front := values[..|values| - 1];
      StringsAre(front);
      HoldsItsString(Some(values[|values| - 1]));
      forall k | 0 <= k < |values| ensures Holding(Some(values[k]), AsStrings(values).value[k]) {
        if k < |front| {
          assert values[k] == front[k];
        }
      }
    }
  }

  lemma {:induction false} TenantsAre(values: seq<string>)
    requires TenantsFrom(values).Some?
    ensures |TenantsFrom(values).value| == |values|
    ensures forall k | 0 <= k < |values| :: TenantsFrom(values).value[k] == TrimSpace(values[k])
    decreases |values|
  {
    if values != [] {
      TenantsAre(values[..|values| - 1]);
    }
  }

  lemma OneSaysTenants(g: RawGroup)
    requires WellTyped(g) && LoadOne(g).Some?
    ensures SaysTenants(g, LoadOne(g).value)
  {
    var values := g.tenants.value.values;
    StringsAre(values);
    TenantsAre(AsStrings(values).value);
  }

  lemma {:induction false} GatherIs(ones: seq<Option<Group>>)
    requires Gather(ones).Some?
    ensures |Gather(ones).value| == |ones| && forall i | 0 <= i < |ones| :: ones[i] == Some(Gather(ones).value[i])
    decreases |ones|
  {
    if ones != [] {
      GatherIs(ones[..|ones| - 1]);
      assert forall i | 0 <= i < |ones| - 1 :: ones[i] == ones[..|ones| - 1][i];
    }
  }

  /** Group i of an accepted file is what entry i says; of a disabled file there is none. */
  lemma LoadedIsWhatIsSaid(f: File)
    requires Loaded(f).Some?
    ensures !f.enabled ==> Loaded(f).value == []
    ensures f.enabled ==> |Loaded(f).value| == |f.groups|
    ensures f.enabled ==> forall i | 0 <= i < |f.groups| ::
              SaysWhat(f.groups[i], Loaded(f).value[i]) && SaysTenants(f.groups[i], Loaded(f).value[i])
  {
    if f.enabled {
      GatherIs(Ones(f.groups));
      forall i | 0 <= i < |f.groups|
        ensures SaysWhat(f.groups[i], Loaded(f).value[i]) && SaysTenants(f.groups[i], Loaded(f).value[i])
      {
        assert Ones(f.groups)[i] == LoadOne(f.groups[i]);
        OneSaysWhat(f.groups[i]);
        OneSaysTenants(f.groups[i]);
      }
    }
  }

  // ---------------------------------------------------------------- what is accepted

  predicate AllDigits(s: string) {
    forall i | 0 <= i < |s| :: '0' <= s[i] <= '9'
  }

  /** A group, or a person by phone number or hidden id. */
  predicate IsChat(jid: string, user: string, server: string) {
    && jid == user + "@" + server && '@' !in user && user != ""
    && (server == "g.us" || ((server == "s.whatsapp.net" || server == "lid") && AllDigits(user)))
  }

  lemma {:induction false} FirstAtSplits(user: string, server: string)
    requires '@' !in user
    ensures FirstAt(user + "@" + server) == |user| && Ats(user + "@" + server) == 1 + Ats(server)
    decreases |user|
  {
    var s := user + "@" + server;
    if user == [] {
      assert s[1..] == server;
    } else {
      assert s[1..] == user[1..] + "@" + server;
      FirstAtSplits(user[1..], server);
    }
  }

  lemma {:induction false} BeforeFirstAt(s: string)
    ensures '@' !in s[..FirstAt(s)] && (FirstAt(s) < |s| ==> s[FirstAt(s)] == '@')
    decreases |s|
  {
    if s != [] && s[0] != '@' {
      BeforeFirstAt(s[1..]);
      assert s[..FirstAt(s)] == [s[0]] + s[1..][..FirstAt(s[1..])];
    }
  }

  lemma SupportedIsChat(jid: string)
    requires SupportedChatJID(jid)
    ensures IsChat(jid, jid[..FirstAt(jid)], jid[FirstAt(jid) + 1..])
  {
    BeforeFirstAt(jid);
    var n := FirstAt(jid);
    assert jid == jid[..n] + "@" + jid[n + 1..];
  }

  lemma {:induction false} NoAt(s: string)
    requires '@' !in s
    ensures Ats(s) == 0
    decreases |s|
  {
    if s != [] {
      NoAt(s[1..]);
    }
  }

  lemma ServersHaveNoAt(server: string)
    requires server == "g.us" || server == "s.whatsapp.net" || server == "lid"
    ensures Ats(server) == 0
  {
    NoAt(server);
  }

  lemma CutAt(user: string, server: string)
    ensures var jid := user + "@" + server; jid[..|user|] == user && jid[|user| + 1..] == server
  {
  }

  /** The test of the source on the two parts. */
  lemma PartsDecide(jid: string, user: string, server: string)
    requires Ats(jid) == 1 && FirstAt(jid) == |user| < |jid|
    requires user == jid[..FirstAt(jid)] && server == jid[FirstAt(jid) + 1..]
    requires user != "" && (server == "g.us" || ((server == "s.whatsapp.net" || server == "lid") && AllDigits(user)))
    ensures SupportedChatJID(jid)
  {
  }

  lemma ChatIsSupported(jid: string, user: string, server: string)
    requires IsChat(jid, user, server)
    ensures SupportedChatJID(jid)
  {
    FirstAtSplits(user, server);
    ServersHaveNoAt(server);
    CutAt(user, server);
    PartsDecide(jid, user, server);
  }

  lemma SupportedExactly(jid: string)
    ensures SupportedChatJID(jid) <==> exists user, server :: IsChat(jid, user, server)
  {
    if SupportedChatJID(jid) {
      SupportedIsChat(jid);
    }
    if user, server :| IsChat(jid, user, server) {
      ChatIsSupported(jid, user, server);
    }
  }

  /** What the fields of an entry must hold. */
  ghost predicate InOrder(g: RawGroup)
    requires WellTyped(g)
  {
    && JidOf(g) != "" && LabelOf(g) != "" && (exists user, server :: IsChat(JidOf(g), user, server))
    && g.tenants.Some? && g.tenants.value.List? && TenantsInOrder(AsStrings(g.tenants.value.values).value)
  }

  predicate TenantsInOrder(values: seq<string>) {
    && values != [] && (forall i | 0 <= i < |values| :: TrimSpace(values[i]) != "")
    && forall i, j | 0 <= i < j < |values| :: TrimSpace(values[i]) != TrimSpace(values[j])
  }

  lemma {:induction false} TenantsAccepted(values: seq<string>)
    ensures TenantsFrom(values).Some?
        <==> && (forall i | 0 <= i < |values| :: TrimSpace(values[i]) != "")
             && forall i, j | 0 <= i < j < |values| :: TrimSpace(values[i]) != TrimSpace(values[j])
    decreases |values|
  {
    if values != [] {
      var front, last := values[..|values| - 1], TrimSpace(values[|values| - 1]);
      TenantsAccepted(front);
      if TenantsFrom(front).Some? {
        TenantsAre(front);
        assert last in TenantsFrom(front).value <==> exists i :: 0 <= i < |front| && TrimSpace(front[i]) == last;
      }
      assert forall i | 0 <= i < |front| :: front[i] == values[i];
    }
  }

  lemma OneAcceptedExactly(g: RawGroup)
    requires WellTyped(g)
    ensures LoadOne(g).Some? <==> InOrder(g)
    ensures LoadOne(g).Some? ==> LoadOne(g).value.jid == JidOf(g) && LoadOne(g).value.chatLabel == LabelOf(g)
  {
    SupportedExactly(JidOf(g));
    if g.tenants.Some? && g.tenants.value.List? {
      TenantsAccepted(AsStrings(g.tenants.value.values).value);
    }
  }

  lemma {:induction false} GatherAccepts(ones: seq<Option<Group>>)
    ensures Gather(ones).Some?
        <==> && (forall i | 0 <= i < |ones| :: ones[i].Some?)
             && forall i, j | 0 <= i < j < |ones| ::
                  ones[i].value.jid != ones[j].value.jid && ones[i].value.chatLabel != ones[j].value.chatLabel
    decreases |ones|
  {
    if ones != [] {
      var front := ones[..|ones| - 1];
      GatherAccepts(front);
      assert forall i | 0 <= i < |front| :: front[i] == ones[i];
      if Gather(front).Some? {
        GatherIs(front);
        assert forall i | 0 <= i < |front| :: ones[i].value == Gather(front).value[i];
      }
    }
  }

  /** A file is accepted exactly when every entry is well-typed and, if it is enabled, in order, with no chat and no
      label twice. */
  lemma AcceptedExactly(f: File)
    ensures Loaded(f).Some?
        <==> && (forall g | g in f.groups :: WellTyped(g))
             && (f.enabled ==>
                   && (forall g | g in f.groups :: InOrder(g))
                   && forall i, j | 0 <= i < j < |f.groups| ::
                        JidOf(f.groups[i]) != JidOf(f.groups[j]) && LabelOf(f.groups[i]) != LabelOf(f.groups[j]))
  {
    if f.enabled && forall g | g in f.groups :: WellTyped(g) {
      AllAcceptedExactly(f.groups);
    }
  }

  lemma AllAcceptedExactly(groups: seq<RawGroup>)
    requires forall g | g in groups :: WellTyped(g)
    ensures Gather(Ones(groups)).Some?
        <==> && (forall g | g in groups :: InOrder(g))
             && forall i, j | 0 <= i < j < |groups| ::
                  JidOf(groups[i]) != JidOf(groups[j]) && LabelOf(groups[i]) != LabelOf(groups[j])
  {
    var ones := Ones(groups);
    GatherAccepts(ones);
    forall i | 0 <= i < |groups|
      ensures ones[i].Some? <==> InOrder(groups[i])
      ensures ones[i].Some? ==> ones[i].value.jid == JidOf(groups[i]) && ones[i].value.chatLabel == LabelOf(groups[i])
    {
      OneAcceptedExactly(groups[i]);
    }
    assert (forall g | g in groups :: InOrder(g)) <==> forall i | 0 <= i < |ones| :: ones[i].Some?;
  }

  // ---------------------------------------------------------------- Reload

  predicate SameGroup(a: Group, b: Group) {
    && a.jid == b.jid && a.chatLabel == b.chatLabel && a.purpose == b.purpose
    && a.ingestText == b.ingestText && a.ingestMediaMetadata == b.ingestMediaMetadata
    && a.copyMedia == b.copyMedia && a.indexEmbeddings == b.indexEmbeddings
    && SameStrings(a.tenants, b.tenants)
    && (if a.retentionDays.None? || b.retentionDays.None? then a.retentionDays.None? && b.retentionDays.None?
        else a.retentionDays.value == b.retentionDays.value)
  }

  predicate SameStrings(a: seq<string>, b: seq<string>) {
    |a| == |b| && forall i | 0 <= i < |a| :: a[i] == b[i]
  }

  lemma SameGroupIsEquality(a: Group, b: Group)
    ensures SameGroup(a, b) <==> a == b
  {
    if SameGroup(a, b) {
      assert a.tenants == b.tenants;
    }
  }

  function ByJid(gs: seq<Group>): map<string, Group> {
    if gs == [] then map[] else ByJid(gs[..|gs| - 1])[gs[|gs| - 1].jid := gs[|gs| - 1]]
  }

  const BUFFER: nat := 4

  datatype Change = Change(added: seq<Group>)

  class Manager {
    var groups: map<string, Group>
    var subs: seq<seq<Change>>

    constructor (groups: map<string, Group>)
      ensures this.groups == groups && subs == []
    {
      this.groups, subs := groups, [];
    }

    /** A new subscription is an empty buffer. */
    method Subscribe() returns (sub: nat)
      modifies this`subs
      ensures sub == |old(subs)| && subs == old(subs) + [[]]
    {
      sub := |subs|;
      subs := subs + [[]];
    }

    /** The comparison loop of Reload, over the new keys in any order. */
    method Compare(next: map<string, Group>) returns (changed: bool, added: seq<Group>, ghost order: seq<string>)
      ensures changed <==> next != groups
      ensures IsListing(order, next.Keys - groups.Keys) && added == GroupsAt(next, order)
    {
      changed := |next| != |groups|;
      added, order := [], [];
      var todo := next.Keys;
      ghost var done: set<string> := {};
      while todo != {}
        invariant done == next.Keys - todo && todo <= next.Keys
        invariant changed ==> Differs(next, groups)
        invariant !changed ==> |next| == |groups| && SameOn(next, groups, done)
        invariant IsListing(order, done - groups.Keys) && added == GroupsAt(next, order)
        decreases |todo|
      {
        SomeName(todo);
        var jid: string :| jid in todo;
        changed := CompareOne(next, jid, done, changed);
        added, order := AddOne(next, jid, done, added, order);
        done := done + {jid};
        todo := todo - {jid};
      }
      assert done == next.Keys;
      DiffersExactly(next, groups);
    }

    /** One turn of the comparison loop. */
    method AddOne(next: map<string, Group>, jid: string, ghost done: set<string>, added: seq<Group>,
                  ghost order: seq<string>)
      returns (added': seq<Group>, ghost order': seq<string>)
      requires jid in next && jid !in done && done <= next.Keys
      requires IsListing(order, done - groups.Keys) && added == GroupsAt(next, order)
      ensures IsListing(order', (done + {jid}) - groups.Keys) && added' == GroupsAt(next, order')
    {
      added', order' := added, order;
      if jid !in groups {
        assert (done + {jid}) - groups.Keys == (done - groups.Keys) + {jid};
        ListingGrows(next, order, done - groups.Keys, jid);
        added', order' := added + [next[jid]], order + [jid];
      } else {
        assert (done + {jid}) - groups.Keys == done - groups.Keys;
      }
    }

    method CompareOne(next: map<string, Group>, jid: string, ghost done: set<string>, changed: bool)
      returns (changed': bool)
      requires jid in next && done <= next.Keys
      requires changed ==> Differs(next, groups)
      requires !changed ==> |next| == |groups| && SameOn(next, groups, done)
      ensures changed' ==> Differs(next, groups)
      ensures !changed' ==> |next| == |groups| && SameOn(next, groups, done + {jid})
    {
      changed' := changed;
      if jid !in groups {
        changed' := true;
      } else {
        SameGroupIsEquality(groups[jid], next[jid]);
        if !SameGroup(groups[jid], next[jid]) {
          changed' := true;
        }
      }
    }

    /** Reload, given what Load returned: on an error nothing happens; otherwise the map is replaced, and every
        subscriber whose buffer has room gets one change exactly when the map is a different one. */
    method Reload(loaded: Option<seq<Group>>) returns (ok: bool, change: Change, ghost order: seq<string>)
      modifies this
      ensures ok == loaded.Some?
      ensures groups == if ok then ByJid(loaded.value) else old(groups)
      ensures |subs| == |old(subs)|
      ensures forall i | 0 <= i < |subs| ::
                subs[i] == if groups != old(groups) && |old(subs)[i]| < 4
                           then old(subs)[i] + [change] else old(subs)[i]
      ensures ok ==> IsListing(order, groups.Keys - old(groups).Keys) && change.added == GroupsAt(groups, order)
    {
      change, order := Change([]), [];
      if loaded.None? {
        return false, change, order;
      }
      var next: map<string, Group> := map[];
      var n := 0;
      while n < |loaded.value|
        invariant 0 <= n <= |loaded.value|
        invariant next == ByJid(loaded.value[..n])
      {
        assert loaded.value[..n + 1][..n] == loaded.value[..n];
        next := next[loaded.value[n].jid := loaded.value[n]];
        n := n + 1;
      }
      assert loaded.value[..n] == loaded.value;
      var changed, added;
      changed, added, order := Compare(next);
      groups := next;
      change := Change(added);
      ok := true;
      if changed {
        var i := 0;
        while i < |subs|
          invariant 0 <= i <= |subs| == |old(subs)| && groups == next
          invariant forall k | 0 <= k < i ::
                      subs[k] == if |old(subs)[k]| < BUFFER then old(subs)[k] + [change] else old(subs)[k]
          invariant forall k | i <= k < |subs| :: subs[k] == old(subs)[k]
        {
          if |subs[i]| < BUFFER {
            subs := subs[i := subs[i] + [change]];
          }
          i := i + 1;
        }
      }
    }
  }

  /** A list of exactly some keys, each once. */
  ghost predicate IsListing(order: seq<string>, keys: set<string>) {
    Distinct(order) && forall k :: k in order <==> k in keys
  }

  function GroupsAt(next: map<string, Group>, order: seq<string>): (r: seq<Group>)
    requires forall k | k in order :: k in next
    ensures |r| == |order|
  {
    seq(|order|, i requires 0 <= i < |order| => next[order[i]])
  }

  lemma ListingGrows(next: map<string, Group>, order: seq<string>, keys: set<string>, jid: string)
    requires IsListing(order, keys) && keys <= next.Keys && jid in next && jid !in keys
    ensures IsListing(order + [jid], keys + {jid})
    ensures GroupsAt(next, order + [jid]) == GroupsAt(next, order) + [next[jid]]
  {
  }

  ghost predicate SameOn(next: map<string, Group>, groups: map<string, Group>, done: set<string>) {
    forall k | k in done :: k in next && k in groups && groups[k] == next[k]
  }

  ghost predicate Differs(next: map<string, Group>, groups: map<string, Group>) {
    |next| != |groups| || exists k :: k in next && (k !in groups || groups[k] != next[k])
  }

  lemma DiffersExactly(next: map<string, Group>, groups: map<string, Group>)
    ensures Differs(next, groups) <==> next != groups
  {
    if !Differs(next, groups) {
      assert next.Keys <= groups.Keys;
      SameSize(next.Keys, groups.Keys);
      assert next == groups;
    }
  }

  lemma SameSize(a: set<string>, b: set<string>)
    ensures a <= b && |a| == |b| ==> a == b
  {
    if a <= b {
      assert b == a + (b - a);
      assert |b| == |a| + |b - a|;
    }
  }

  lemma SomeName(s: set<string>)
    ensures s == {} || exists x: string :: x in s
  {
    if !exists x: string :: x in s {
      assert s == {};
    }
  }
}
