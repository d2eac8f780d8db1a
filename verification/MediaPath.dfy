/** Where the writer puts a media file, and why one write's temporary name is not another's final name. */
module MediaPath {
  import opened Text

  predicate IsSafeChar(c: char) {
    'A' <= c <= 'Z' || 'a' <= c <= 'z' || '0' <= c <= '9' || c == '@' || c == '.' || c == '_' || c == '-'
  }

  /** unsafePath.ReplaceAllString(v, "_"): every maximal run of unsafe characters becomes one '_'. */
  function Collapse(v: string, inRun: bool): (r: string)
    ensures forall i | 0 <= i < |r| :: IsSafeChar(r[i])
  {
    if v == [] then []
    else if IsSafeChar(v[0]) then [v[0]] + Collapse(v[1..], false)
    else (if inRun then [] else ['_']) + Collapse(v[1..], true)
  }

  predicate Trimmed(c: char) {
    c == '.' || c == '_'
  }

  function TrimHead(v: string): (r: string)
    ensures |r| <= |v| && r == v[|v| - |r|..]
    ensures r != [] ==> !Trimmed(r[0])
  {
    if v != [] && Trimmed(v[0]) then TrimHead(v[1..]) else v
  }

  function TrimTail(v: string): (r: string)
    ensures |r| <= |v| && r == v[..|r|]
    ensures r != [] ==> !Trimmed(r[|r| - 1])
  {
    if v != [] && Trimmed(v[|v| - 1]) then TrimTail(v[..|v| - 1]) else v
  }

  function SafePathPart(v: string): (r: string)
    ensures r != [] && !Trimmed(r[0]) && !Trimmed(r[|r| - 1])
    ensures '/' !in r && forall i | 0 <= i < |r| :: IsSafeChar(r[i])
  {
    var t := TrimTail(TrimHead(Collapse(v, false)));
    if t == [] then "unknown" else t
  }

  function ToLowerChar(c: char): char {
    if 'A' <= c <= 'Z' then (c as int + 32) as char else c
  }

  function ToLower(s: string): (r: string)
    ensures |r| == |s| && forall i | 0 <= i < |s| :: r[i] == ToLowerChar(s[i])
  {
    seq(|s|, i requires 0 <= i < |s| => ToLowerChar(s[i]))
  }

  function CleanExt(ext: string): (r: string)
    ensures r != [] ==> r[0] == '.' && |r| <= 12 && '/' !in r && '\\' !in r
    ensures r == [] <==> ext == "" || '/' in ext || '\\' in ext || |ext| > (if ext[0] == '.' then 12 else 11)
  {
    if ext == "" then ""
    else
      var dotted := if ext[0] == '.' then ext else "." + ext;
      if '/' in dotted || '\\' in dotted || |dotted| > 12 then "" else ToLower(dotted)
  }

  function ExtForType(t: string): (r: string)
    ensures |r| > 3 && r[0] == '.' && '/' !in r && !EndsWith(r, ".tmp")
  {
    var k := ToLower(t);
    if k == "image" then ".jpg"
    else if k == "video" then ".mp4"
    else if k == "audio" || k == "ptt" then ".ogg"
    else if k == "sticker" then ".webp"
    else ".bin"
  }

  /** The extension writeMedia uses. */
  function ExtOf(mediaExt: string, messageType: string): (r: string)
    ensures r != [] && r[0] == '.' && '/' !in r
  {
    var ext := CleanExt(mediaExt);
    if ext == "" then ExtForType(messageType) else ext
  }

  function Dir(root: string, chat: string): string {
    root + "/" + SafePathPart(chat)
  }

  function FileName(msg: string, mediaExt: string, messageType: string): (r: string)
    ensures '/' !in r
  {
    SafePathPart(msg) + ExtOf(mediaExt, messageType)
  }

  function Final(root: string, chat: string, msg: string, mediaExt: string, messageType: string): string {
    Dir(root, chat) + "/" + FileName(msg, mediaExt, messageType)
  }

  function Tmp(final: string): string {
    final + ".tmp"
  }

  /** The names that the extension of an event can make dangerous. */
  predicate TmpExt(mediaExt: string, messageType: string) {
    EndsWith(ExtOf(mediaExt, messageType), ".tmp")
  }

  /** Only the extension decides whether a name ends in ".tmp": ".tmp" has no second '.' for the dot of
      a shorter extension to line up with. */
  lemma DottedSuffix(stem: string, ext: string)
    requires ext != [] && ext[0] == '.'
    ensures EndsWith(stem + ext, ".tmp") == EndsWith(ext, ".tmp")
  {
    var s := stem + ext;
    if 4 <= |ext| {
      assert s[|s| - 4..] == ext[|ext| - 4..];
    } else if 4 <= |s| {
      assert s[|s| - 4..][4 - |ext|] == '.';
    }
  }

  /** A final name ends in ".tmp" exactly when its extension does. */
  lemma FinalEndsInTmp(root: string, chat: string, msg: string, mediaExt: string, messageType: string)
    ensures EndsWith(Final(root, chat, msg, mediaExt, messageType), ".tmp") == TmpExt(mediaExt, messageType)
  {
    var dir, name, ext := Dir(root, chat), SafePathPart(msg), ExtOf(mediaExt, messageType);
    Reassociate(dir, name, ext);
    DottedSuffix(dir + "/" + name, ext);
  }

  lemma Reassociate(a: string, b: string, c: string)
    ensures a + "/" + (b + c) == (a + "/" + b) + c
  {
  }

  /** No final name is any write's temporary name, if and only if its own extension is not a ".tmp" one.
      (A ".tmp" extension really does collide: TmpNameCollision.) */
  lemma FinalIsNobodysTmp(root: string, chat: string, msg: string, mediaExt: string, messageType: string, other: string)
    requires !TmpExt(mediaExt, messageType)
    ensures Final(root, chat, msg, mediaExt, messageType) != Tmp(other)
  {
    FinalEndsInTmp(root, chat, msg, mediaExt, messageType);
    assert Tmp(other)[|Tmp(other)| - 4..] == ".tmp";
  }

  /** How many characters follow the last '/'. */
  function AfterSlash(s: string): nat {
    if s == [] || s[|s| - 1] == '/' then 0 else 1 + AfterSlash(s[..|s| - 1])
  }

  lemma {:induction false} AfterSlashOf(a: string, b: string)
    requires '/' !in b
    ensures AfterSlash(a + "/" + b) == |b|
    decreases |b|
  {
    var s := a + "/" + b;
    if b == [] {
      assert s[|s| - 1] == '/';
    } else {
      var front := b[..|b| - 1];
      assert s[..|s| - 1] == a + "/" + front;
      AfterSlashOf(a, front);
    }
  }

  lemma SplitAtSlash(a: string, b: string, a': string, b': string)
    requires '/' !in b && '/' !in b'
    requires a + "/" + b == a' + "/" + b'
    ensures a == a' && b == b'
  {
    AfterSlashOf(a, b);
    AfterSlashOf(a', b');
    var s := a + "/" + b;
    assert |b| == |b'| && |a| == |a'|;
    assert a == s[..|a|] && a' == s[..|a|];
    assert b == s[|a| + 1..] && b' == s[|a| + 1..];
  }

  /** Two final names agree only when the chat directories and the file names agree: nothing an event
      carries can move its file out of its chat's directory. */
  lemma FinalInjective(root: string, chat: string, msg: string, ext: string, mtype: string,
                       chat': string, msg': string, ext': string, mtype': string)
    requires Final(root, chat, msg, ext, mtype) == Final(root, chat', msg', ext', mtype')
    ensures SafePathPart(chat) == SafePathPart(chat')
    ensures FileName(msg, ext, mtype) == FileName(msg', ext', mtype')
  {
    SplitAtSlash(Dir(root, chat), FileName(msg, ext, mtype), Dir(root, chat'), FileName(msg', ext', mtype'));
    SplitAtSlash(root, SafePathPart(chat), root, SafePathPart(chat'));
  }

  lemma {:induction false} CollapseSafe(v: string)
    requires forall i | 0 <= i < |v| :: IsSafeChar(v[i])
    ensures Collapse(v, false) == v
    decreases |v|
  {
    if v != [] {
      CollapseSafe(v[1..]);
    }
  }

  lemma SafeNameIsKept(v: string)
    requires v != [] && !Trimmed(v[0]) && !Trimmed(v[|v| - 1])
    requires forall i | 0 <= i < |v| :: IsSafeChar(v[i])
    ensures SafePathPart(v) == v
  {
    CollapseSafe(v);
  }

  /** A name that is already safe is kept as it is. */
  lemma SafePathPartIdempotent(v: string)
    ensures SafePathPart(SafePathPart(v)) == SafePathPart(v)
  {
    SafeNameIsKept(SafePathPart(v));
  }

  lemma LowerCaseIsKept(s: string)
    requires forall i | 0 <= i < |s| :: !('A' <= s[i] <= 'Z')
    ensures ToLower(s) == s
  {
  }

  lemma CleanExtIsKept(ext: string)
    requires ext != [] && ext[0] == '.' && |ext| <= 12
    requires forall i | 0 <= i < |ext| :: ext[i] != '/' && ext[i] != '\\' && !('A' <= ext[i] <= 'Z')
    ensures CleanExt(ext) == ext
  {
    LowerCaseIsKept(ext);
  }

  /** A kept extension is kept as it is. */
  lemma CleanExtIdempotent(ext: string)
    ensures CleanExt(CleanExt(ext)) == CleanExt(ext)
  {
    var clean := CleanExt(ext);
    if clean != "" {
      assert forall i | 0 <= i < |clean| :: !('A' <= clean[i] <= 'Z');
      CleanExtIsKept(clean);
    }
  }

  lemma ConcreteExtensions()
    ensures ExtOf(".tmp", "document") == ".tmp" && TmpExt(".tmp", "document")
    ensures ExtOf("", "document") == ".bin"
  {
    CleanExtIsKept(".tmp");
    LowerCaseIsKept("document");
  }

  // ---------------------------------------------------------------- where extensions come from

  /** filepath.Ext of the first n characters. */
  function ExtTo(s: string, n: nat): string
    requires n <= |s|
  {
    if n == 0 || s[n - 1] == '/' then ""
    else if s[n - 1] == '.' then s[n - 1..]
    else ExtTo(s, n - 1)
  }

  /** filepath.Ext: from the last dot of the last path element. */
  function FileExt(s: string): string {
    ExtTo(s, |s|)
  }

  /** mediaExt: the extension of the title if it is short, and otherwise what the MIME type gives. */
  function MediaExt(title: string, byType: string): string {
    if FileExt(title) != "" && |FileExt(title)| <= 12 then FileExt(title) else byType
  }

  lemma {:induction false} ExtHasOneDot(s: string, n: nat)
    requires n <= |s| && forall i | n <= i < |s| :: s[i] != '.' && s[i] != '/'
    ensures var ext := ExtTo(s, n);
            ext != "" ==> ext[0] == '.' && forall i | 0 < i < |ext| :: ext[i] != '.' && ext[i] != '/'
    decreases n
  {
    if n > 0 && s[n - 1] != '/' && s[n - 1] != '.' {
      ExtHasOneDot(s, n - 1);
    }
  }

  lemma LowerKeepsDots(ext: string)
    requires ext != "" && ext[0] == '.' && forall i | 0 < i < |ext| :: ext[i] != '.' && ext[i] != '/'
    ensures var low := ToLower(ext); low[0] == '.' && '/' !in ext && forall i | 0 < i < |low| :: low[i] != '.'
  {
  }

  lemma OneDotEndsInTmp(low: string)
    requires low != "" && low[0] == '.' && forall i | 0 < i < |low| :: low[i] != '.'
    ensures EndsWith(low, ".tmp") <==> low == ".tmp"
  {
    if EndsWith(low, ".tmp") {
      assert low[|low| - 4] == low[|low| - 4..][0] == '.';
      assert low == low[|low| - 4..];
    }
  }

  /** A short extension in the title decides: the file is a ".tmp" one exactly when the title's extension is ".tmp" in
      some case. */
  lemma TitleDecidesTmp(title: string, byType: string, messageType: string)
    requires FileExt(title) != "" && |FileExt(title)| <= 12
    ensures TmpExt(MediaExt(title, byType), messageType) <==> ToLower(FileExt(title)) == ".tmp"
  {
    var ext := FileExt(title);
    ExtHasOneDot(title, |title|);
    LowerKeepsDots(ext);
    OneDotEndsInTmp(ToLower(ext));
    if ToLower(ext) == ".tmp" {
      assert forall i | 0 <= i < |ext| :: ext[i] != '\\' by {
        forall i | 0 <= i < |ext| ensures ext[i] != '\\' {
          assert ToLower(ext)[i] == ".tmp"[i];
        }
      }
    }
  }

  /** A message id that SafePathPart leaves alone. */
  predicate IsSafeName(v: string) {
    v != [] && !Trimmed(v[0]) && !Trimmed(v[|v| - 1]) && forall i | 0 <= i < |v| :: IsSafeChar(v[i])
  }

  lemma SafeFileName(v: string, mediaExt: string, messageType: string, ext: string)
    requires IsSafeName(v) && ExtOf(mediaExt, messageType) == ext
    ensures FileName(v, mediaExt, messageType) == v + ext
  {
    SafeNameIsKept(v);
  }

  const BIN: string := ".bin"
  const TMP: string := ".tmp"

  lemma LongerIsSafe(m: string, bin: string)
    requires IsSafeName(m) && bin == ".bin"
    ensures IsSafeName(m + bin)
  {
    var longer := m + bin;
    assert longer[|longer| - 1] == 'n' && longer[0] == m[0];
  }

  lemma NamesCollide(root: string, chat: string, m: string, longer: string, bin: string, tmp: string)
    requires IsSafeName(m) && IsSafeName(longer) && longer == m + bin
    requires ExtOf("", "document") == bin && ExtOf(tmp, "document") == tmp == ".tmp"
    ensures Final(root, chat, longer, tmp, "document") == Tmp(Final(root, chat, m, "", "document"))
  {
    SafeFileName(longer, tmp, "document", tmp);
    SafeFileName(m, "", "document", bin);
    Reassociate(Dir(root, chat), longer, tmp);
  }

  /** For every safe message id m, the file of message m.bin with a ".tmp" extension has the temporary name of
      message m, so FinalIsNobodysTmp needs its condition. */
  lemma TmpNameCollision(root: string, chat: string, m: string)
    requires IsSafeName(m)
    ensures Final(root, chat, m + BIN, TMP, "document") == Tmp(Final(root, chat, m, "", "document"))
    ensures TmpExt(TMP, "document")
  {
    ConcreteExtensions();
    LongerIsSafe(m, BIN);
    NamesCollide(root, chat, m, m + BIN, BIN, TMP);
  }

  // ---------------------------------------------------------------- what the names look like

  const UPPER := "ABCDEFGHIJKLMNOPQRSTUVWXYZ"
  const LOWER := "abcdefghijklmnopqrstuvwxyz"
  const OTHERS := "0123456789@._-"

  lemma UpperIs(c: char)
    ensures c in UPPER <==> 'A' <= c <= 'Z'
  {
    if 'A' <= c <= 'Z' {
      assert UPPER[c as int - 'A' as int] == c;
    }
  }

  lemma LowerIs(c: char)
    ensures c in LOWER <==> 'a' <= c <= 'z'
  {
    if 'a' <= c <= 'z' {
      assert LOWER[c as int - 'a' as int] == c;
    }
  }

  lemma OthersAre(c: char)
    ensures c in OTHERS <==> '0' <= c <= '9' || c == '@' || c == '.' || c == '_' || c == '-'
  {
    if '0' <= c <= '9' {
      assert OTHERS[c as int - '0' as int] == c;
    }
    assert OTHERS[10] == '@' && OTHERS[11] == '.' && OTHERS[12] == '_' && OTHERS[13] == '-';
  }

  lemma SafeCharsAre(c: char)
    ensures IsSafeChar(c) <==> c in UPPER || c in LOWER || c in OTHERS
  {
    UpperIs(c);
    LowerIs(c);
    OthersAre(c);
  }

  /** Letters of the two alphabets change places one by one, and nothing else changes. */
  lemma LowerCaseIs(i: nat, c: char)
    requires i < 26 && c !in UPPER
    ensures ToLowerChar(UPPER[i]) == LOWER[i] && ToLowerChar(c) == c
  {
    UpperIs(c);
  }

  predicate AllSafe(v: string) {
    forall i | 0 <= i < |v| :: IsSafeChar(v[i])
  }

  predicate NoneSafe(v: string) {
    forall i | 0 <= i < |v| :: !IsSafeChar(v[i])
  }

  /** A text of safe characters that neither starts nor ends with a dot or an underscore. */
  predicate Clean(v: string) {
    v != "" && AllSafe(v) && !Trimmed(v[0]) && !Trimmed(v[|v| - 1])
  }

  lemma {:induction false} CollapseStart(a: string, b: string, inRun: bool)
    requires AllSafe(a) && a != ""
    ensures Collapse(a + b, inRun) == a + Collapse(b, false)
    decreases |a|
  {
    assert (a + b)[1..] == a[1..] + b;
    if |a| > 1 {
      CollapseStart(a[1..], b, false);
    } else {
      assert a[1..] + b == b;
    }
    assert a == [a[0]] + a[1..];
  }

  lemma {:induction false} CollapseUnsafe(run: string, b: string)
    requires NoneSafe(run)
    ensures Collapse(run + b, true) == Collapse(b, true)
    decreases |run|
  {
    if run == "" {
      assert run + b == b;
    } else {
      assert (run + b)[1..] == run[1..] + b;
      CollapseUnsafe(run[1..], b);
    }
  }

  lemma CleanIsNotTrimmed(v: string)
    requires Clean(v)
    ensures TrimTail(TrimHead(v)) == v
  {
  }

  /** A clean text is kept as it is. */
  lemma CleanIsKept(v: string)
    requires Clean(v)
    ensures SafePathPart(v) == v
  {
    CollapseStart(v, "", false);
    assert v + "" == v && Collapse("", false) == "";
    CleanIsNotTrimmed(v);
  }

  /** A run of unsafe characters between two clean texts becomes one underscore. */
  lemma RunBecomesUnderscore(a: string, run: string, b: string)
    requires Clean(a) && Clean(b) && run != "" && NoneSafe(run)
    ensures SafePathPart(a + run + b) == a + "_" + b
  {
    CollapseRun(a, run, b);
    assert Clean(a + "_" + b) by {
      assert IsSafeChar('_');
    }
    CleanIsNotTrimmed(a + "_" + b);
  }

  lemma CollapseClean(b: string, inRun: bool)
    requires Clean(b)
    ensures Collapse(b, inRun) == b
  {
    CollapseStart(b, "", inRun);
    assert b + "" == b;
  }

  lemma CollapseTail(run: string, b: string)
    requires Clean(b) && run != "" && NoneSafe(run)
    ensures Collapse(run + b, false) == "_" + b
  {
    assert (run + b)[0] == run[0] && (run + b)[1..] == run[1..] + b;
    CollapseUnsafe(run[1..], b);
    CollapseClean(b, true);
  }

  lemma CollapseRun(a: string, run: string, b: string)
    requires Clean(a) && Clean(b) && run != "" && NoneSafe(run)
    ensures Collapse(a + run + b, false) == a + "_" + b
  {
    assert a + run + b == a + (run + b) && a + ("_" + b) == a + "_" + b;
    CollapseStart(a, run + b, false);
    CollapseTail(run, b);
  }

  lemma {:induction false} NothingSafeLeft(v: string, inRun: bool)
    requires forall i | 0 <= i < |v| :: Trimmed(v[i]) || !IsSafeChar(v[i])
    ensures forall i | 0 <= i < |Collapse(v, inRun)| :: Trimmed(Collapse(v, inRun)[i])
    decreases |v|
  {
    if v != "" {
      NothingSafeLeft(v[1..], !IsSafeChar(v[0]));
    }
  }

  lemma {:induction false} AllTrimmed(v: string)
    requires forall i | 0 <= i < |v| :: Trimmed(v[i])
    ensures TrimHead(v) == ""
    decreases |v|
  {
    if v != "" {
      AllTrimmed(v[1..]);
    }
  }

  /** A text of unsafe characters, dots and underscores becomes "unknown". */
  lemma NothingLeftIsUnknown(v: string)
    requires forall i | 0 <= i < |v| :: v[i] == '.' || v[i] == '_' || !IsSafeChar(v[i])
    ensures SafePathPart(v) == "unknown"
  {
    NothingSafeLeft(v, false);
    AllTrimmed(Collapse(v, false));
  }

  lemma FourParts(a: string, b: string, c: string)
    ensures a + "/" + b + "/" + c == a + ("/" + b + "/" + c)
  {
  }

  /** A file lies in the directory of its chat, right under the root, and is named after its message. */
  lemma FinalLiesUnder(root: string, chat: string, msg: string, mediaExt: string, messageType: string)
    ensures var part, file := SafePathPart(chat), SafePathPart(msg) + ExtOf(mediaExt, messageType);
            && Final(root, chat, msg, mediaExt, messageType) == root + ("/" + part + "/" + file)
            && '/' !in part && '/' !in file
  {
    FinalIs(root, SafePathPart(chat), chat, SafePathPart(msg) + ExtOf(mediaExt, messageType), msg, mediaExt,
            messageType);
  }

  lemma FinalIs(root: string, part: string, chat: string, file: string, msg: string, mediaExt: string,
                messageType: string)
    requires part == SafePathPart(chat) && file == FileName(msg, mediaExt, messageType)
    ensures Final(root, chat, msg, mediaExt, messageType) == root + ("/" + part + "/" + file)
  {
    FourParts(root, part, file);
  }

  lemma {:induction false} ExtToSkips(s: string, n: nat, k: nat)
    requires k <= n <= |s| && forall i | k <= i < n :: s[i] != '.' && s[i] != '/'
    ensures ExtTo(s, n) == ExtTo(s, k)
    decreases n
  {
    if k < n {
      ExtToSkips(s, n - 1, k);
    }
  }

  predicate Plain(s: string) {
    '.' !in s && '/' !in s
  }

  /** The extension of a title is what follows its last dot, if no slash follows that. */
  lemma TitleWithDot(stem: string, e: string, byType: string)
    requires Plain(e)
    ensures MediaExt(stem + "." + e, byType) == if |e| <= 11 then "." + e else byType
  {
    var s := stem + "." + e;
    forall i | |stem| + 1 <= i < |s| ensures s[i] != '.' && s[i] != '/' {
      assert s[i] == e[i - |stem| - 1];
    }
    ExtToSkips(s, |s|, |stem| + 1);
    assert s[|stem|..] == "." + e;
  }

  /** A title without a dot in its last part has none, and the type decides. */
  lemma TitleWithoutDot(stem: string, e: string, byType: string)
    requires Plain(e) && (stem == "" || stem[|stem| - 1] == '/')
    ensures MediaExt(stem + e, byType) == byType
  {
    var s := stem + e;
    forall i | |stem| <= i < |s| ensures s[i] != '.' && s[i] != '/' {
      assert s[i] == e[i - |stem|];
    }
    ExtToSkips(s, |s|, |stem|);
  }

  /** The type decides when the event names no extension that can be used, in any letter case. */
  lemma TypesHaveExtensions(t: string)
    ensures var ext := ExtOf("", t);
            && (ToLower(t) == "image" <==> ext == ".jpg") && (ToLower(t) == "video" <==> ext == ".mp4")
            && (ToLower(t) == "audio" || ToLower(t) == "ptt" <==> ext == ".ogg")
            && (ToLower(t) == "sticker" <==> ext == ".webp")
            && (ext == ".jpg" || ext == ".mp4" || ext == ".ogg" || ext == ".webp" || ext == ".bin")
  {
    var ext := ExtForType(t);
    assert ext[1] == 'j' || ext[1] == 'm' || ext[1] == 'o' || ext[1] == 'w' || ext[1] == 'b';
  }
}
