/** The records that the writer, the reader and the configuration share: events, table rows and the
    clauses of the SQL statements as functions over them. */
module Types {
  import opened Text

  newtype byte = x: int | 0 <= x < 256

  type Bytes = seq<byte>

  datatype Group = Group(
    jid: string,
    chatLabel: string,
    tenants: seq<string>,
    purpose: string,
    ingestText: bool,
    ingestMediaMetadata: bool,
    copyMedia: bool,
    indexEmbeddings: bool,
    retentionDays: Option<int>)

  datatype Event = Event(
    chatJID: string,
    chatLabel: string,
    msgID: string,
    senderJID: string,
    senderName: string,
    timestamp: int,
    fromMe: bool,
    text: string,
    rawType: int,
    messageType: string,
    mediaType: string,
    mediaTitle: string,
    mediaPath: string,
    mediaURL: string,
    mediaSize: int,
    mediaBytes: Bytes,
    mediaExt: string,
    hydrationStatus: string,
    hydrationAttempts: int,
    sourcePK: int)

  /** Columns that only an insert sets. */
  datatype Identity = Identity(
    sourcePK: int,
    chatJID: string,
    chatLabel: string,
    msgID: string,
    senderJID: Option<string>,
    ts: int,
    fromMe: bool,
    rawType: int)

  /** Columns that every upsert overwrites. */
  datatype Content = Content(
    senderName: Option<string>,
    text: Option<string>,
    messageType: Option<string>,
    mediaType: Option<string>,
    mediaTitle: Option<string>,
    mediaPath: Option<string>,
    mediaURL: Option<string>,
    mediaSize: Option<int>,
    textHash: string)

  /** Columns of the media life cycle. */
  datatype Media = Media(
    localPath: Option<string>,
    hydratedAt: Option<int>,
    status: Option<string>,
    attempts: int,
    surfacedAt: Option<int>)

  datatype Row = Row(ident: Identity, content: Content, media: Media, ingestedAt: int)

  datatype FtsRow = FtsRow(id: string, text: string, chatLabel: string, senderName: string, mediaTitle: string)

  datatype Run = Run(
    startedAt: int,
    finishedAt: Option<int>,
    dryRun: bool,
    allowedGroupCount: int,
    scanned: int,
    inserted: int,
    updated: int,
    skipped: int,
    mediaCopied: int,
    status: string)

  datatype GroupRow = GroupRow(
    chatLabel: string,
    purpose: string,
    ingestText: bool,
    ingestMediaMetadata: bool,
    copyMedia: bool,
    indexEmbeddings: bool,
    retentionDays: Option<int>,
    updatedAt: int)

  datatype Tables = Tables(
    messages: map<string, Row>,
    fts: seq<FtsRow>,
    runs: map<string, Run>,
    groups: map<string, GroupRow>)

  // ---------------------------------------------------------------- keys

  datatype NaturalKey = NaturalKey(chatJID: string, msgID: string, senderJID: string, ts: int)

  function NullEmpty(v: string): Option<string> {
    if v == "" then None else Some(v)
  }

  function NullZero(v: int): Option<int> {
    if v == 0 then None else Some(v)
  }

  /** coalesce(column, '') */
  function Coalesce(v: Option<string>): string {
    match v
    case Some(s) => s
    case None => ""
  }

  function KeyOfEvent(ev: Event): NaturalKey {
    NaturalKey(ev.chatJID, ev.msgID, ev.senderJID, ev.timestamp)
  }

  function KeyOfRow(ident: Identity): NaturalKey {
    NaturalKey(ident.chatJID, ident.msgID, Coalesce(ident.senderJID), ident.ts)
  }

  predicate KeyNulFree(k: NaturalKey) {
    NulFree(k.chatJID) && NulFree(k.msgID) && NulFree(k.senderJID)
  }

  /** StableMessageID, up to the hash: the text that is fed to SHA-256. */
  function MessageID(k: NaturalKey, pk: int): string {
    Joined(k.chatJID, Joined(k.msgID, Joined(k.senderJID, Joined(FormatInt(k.ts), FormatInt(pk)))))
  }

  /** StableRunID, up to the hash. Writes of one message in one second share it. */
  function RunID(id: string, now: int): string {
    Joined(FormatInt(now), id)
  }

  /** TextHash, up to the hash. */
  function TextHash(text: string, mediaTitle: string): string {
    Joined(text, mediaTitle)
  }

  lemma CountNulOfMessageID(k: NaturalKey, pk: int)
    ensures CountNul(MessageID(k, pk)) == 4 + CountNul(k.chatJID) + CountNul(k.msgID) + CountNul(k.senderJID)
  {
    var ts := Joined(FormatInt(k.ts), FormatInt(pk));
    var sender := Joined(k.senderJID, ts);
    CountNulOfJoined(k.chatJID, Joined(k.msgID, sender));
    CountNulOfJoined(k.msgID, sender);
    CountNulOfJoined(k.senderJID, ts);
    CountNulOfJoined(FormatInt(k.ts), FormatInt(pk));
    FormatIntNulFree(k.ts);
    FormatIntNulFree(pk);
    NulFreeCountsZero(FormatInt(k.ts));
    NulFreeCountsZero(FormatInt(pk));
  }

  /** A key without NULs shares its id with no other key, whatever that other key holds. */
  lemma MessageIDInjective(k: NaturalKey, pk: int, k': NaturalKey, pk': int)
    requires KeyNulFree(k)
    requires MessageID(k, pk) == MessageID(k', pk')
    ensures k == k' && pk == pk'
  {
    assert KeyNulFree(k') by {
      CountNulOfMessageID(k, pk);
      CountNulOfMessageID(k', pk');
      NulFreeCountsZero(k.chatJID);
      NulFreeCountsZero(k.msgID);
      NulFreeCountsZero(k.senderJID);
      NulFreeCountsZero(k'.chatJID);
      NulFreeCountsZero(k'.msgID);
      NulFreeCountsZero(k'.senderJID);
    }
    var ts, ts' := Joined(FormatInt(k.ts), FormatInt(pk)), Joined(FormatInt(k'.ts), FormatInt(pk'));
    var sender, sender' := Joined(k.senderJID, ts), Joined(k'.senderJID, ts');
    JoinedInjective(k.chatJID, Joined(k.msgID, sender), k'.chatJID, Joined(k'.msgID, sender'));
    JoinedInjective(k.msgID, sender, k'.msgID, sender');
    JoinedInjective(k.senderJID, ts, k'.senderJID, ts');
    FormatIntNulFree(k.ts);
    FormatIntNulFree(k'.ts);
    JoinedInjective(FormatInt(k.ts), FormatInt(pk), FormatInt(k'.ts), FormatInt(pk'));
    FormatIntInjective(k.ts, k'.ts);
    FormatIntInjective(pk, pk');
  }

  /** A run id stands for one message and one second. */
  lemma RunIDInjective(id: string, now: int, id': string, now': int)
    requires RunID(id, now) == RunID(id', now')
    ensures id == id' && now == now'
  {
    FormatIntNulFree(now);
    FormatIntNulFree(now');
    JoinedInjective(FormatInt(now), id, FormatInt(now'), id');
    FormatIntInjective(now, now');
  }

  /** With a NUL in a part, two different keys do share an id. */
  lemma MessageIDNulCollision(ts: int, pk: int)
    ensures MessageID(NaturalKey("a\0b", "c", "", ts), pk) == MessageID(NaturalKey("a", "b\0c", "", ts), pk)
  {
    var rest := Joined("", Joined(FormatInt(ts), FormatInt(pk)));
    assert Joined("a\0b", Joined("c", rest)) == Joined("a", Joined("b\0c", rest));
  }
}
