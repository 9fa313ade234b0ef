/** The file-backed credential store of internal/auth/kiro/token_repository.go. The
    directory walk is the sequence of entries `filepath.WalkDir` visits; each file is seen
    as what reading and JSON-decoding it gives. RFC 3339 parsing and formatting are the
    parameters `parseTime` and `formatTime`, `filepath.Join` is `join`. */
module TokenRepository {
  import opened Wrappers
  import opened GoStrings
  import opened GoTime

  /** A decoded JSON value. */
  datatype Json =
    | JNull
    | JBool(b: bool)
    | JNumber(n: real)
    | JString(s: string)
    | JArray(items: seq<Json>)
    | JObject(fields: map<string, Json>)

  /** What `os.ReadFile` followed by JSON decoding makes of one file. */
  datatype FileState = Unreadable | Malformed | Parsed(json: Json)

  /** One callback of the walk: an error, a directory, or a file with its base name. */
  datatype WalkEntry = WalkError | Directory | File(name: string, state: FileState)

  /** The refresher's `Token` record (its declaration is not part of this model); times
      are nanoseconds, 0 for the zero time. */
  datatype Token = Token(
    id: string,
    accessToken: string,
    refreshToken: string,
    clientID: string,
    clientSecret: string,
    authMethod: string,
    provider: string,
    region: string,
    startURL: string,
    expiresAt: int,
    lastVerified: int)

  /** `readTokenFile`'s `(*Token, error)`: an error, or a token that may be nil. */
  datatype ReadResult = ReadFailed | ReadOk(token: Option<Token>)

  /** `metadata[key].(string)` with the comma-ok result dropped: "" unless a string is there. */
  function StringField(m: map<string, Json>, key: string): (s: string)
    ensures key in m && m[key].JString? ==> s == m[key].s
    ensures !(key in m && m[key].JString?) ==> s == ""
  {
    if key in m && m[key].JString? then m[key].s else ""
  }

  /** A time field: its parse when it holds a string that parses, else the zero time. */
  function TimeField(m: map<string, Json>, key: string, parseTime: string -> Option<int>): (t: int)
    ensures key in m && m[key].JString? && parseTime(m[key].s).Some? ==> t == parseTime(m[key].s).value
    ensures !(key in m && m[key].JString? && parseTime(m[key].s).Some?) ==> IsZero(t)
  {
    if key in m && m[key].JString? && parseTime(m[key].s).Some? then parseTime(m[key].s).value else ZeroTime
  }

  predicate IsRefreshableMethod(authMethod: string) {
    authMethod == "idc" || authMethod == "builder-id"
  }

  /** The token a decoded object describes, when it is a Kiro IDC or Builder ID record. */
  function DecodeToken(name: string, m: map<string, Json>, parseTime: string -> Option<int>): (r: Option<Token>)
    ensures r.Some? <==> StringField(m, "type") == "kiro" && IsRefreshableMethod(StringField(m, "auth_method"))
    ensures r.Some? ==> r.value.id == name && r.value.authMethod == StringField(m, "auth_method")
    ensures r.Some? ==> r.value.accessToken == StringField(m, "access_token")
                        && r.value.refreshToken == StringField(m, "refresh_token")
                        && r.value.clientID == StringField(m, "client_id")
                        && r.value.clientSecret == StringField(m, "client_secret")
                        && r.value.region == StringField(m, "region")
                        && r.value.startURL == StringField(m, "start_url")
                        && r.value.provider == StringField(m, "provider")
    ensures r.Some? ==> r.value.expiresAt == TimeField(m, "expires_at", parseTime)
                        && r.value.lastVerified == TimeField(m, "last_refresh", parseTime)
  {
    var authMethod := StringField(m, "auth_method");
    if StringField(m, "type") != "kiro" then None
    else if !IsRefreshableMethod(authMethod) then None
    else Some(Token(name, StringField(m, "access_token"), StringField(m, "refresh_token"),
                    StringField(m, "client_id"), StringField(m, "client_secret"), authMethod,
                    StringField(m, "provider"), StringField(m, "region"), StringField(m, "start_url"),
                    TimeField(m, "expires_at", parseTime), TimeField(m, "last_refresh", parseTime)))
  }

  /** `readTokenFile`; `name` is `filepath.Base(path)`. Decoding `null` leaves the map
      nil, which reads as empty; any other non-object is a decoding error. */
  function ReadTokenFile(name: string, state: FileState, parseTime: string -> Option<int>): (r: ReadResult)
    ensures state.Unreadable? || state.Malformed? ==> r == ReadFailed
    ensures state == Parsed(JNull) ==> r == ReadOk(None)
    ensures state.Parsed? && state.json.JObject? ==> r == ReadOk(DecodeToken(name, state.json.fields, parseTime))
    ensures state.Parsed? && !state.json.JObject? && !state.json.JNull? ==> r == ReadFailed
  {
    match state
    case Unreadable => ReadFailed
    case Malformed => ReadFailed
    case Parsed(json) =>
      match json
      case JNull => ReadOk(DecodeToken(name, map[], parseTime))
      case JObject(m) => ReadOk(DecodeToken(name, m, parseTime))
      case _ => ReadFailed
  }

  /** The name test of `FindOldestUnverified`: "kiro-" prefix and a ".json" suffix in any
      letter case. */
  predicate IsScannedName(name: string) {
    HasSuffix(LowerAsciiString(name), ".json") && HasPrefix(name, "kiro-")
  }

  /** The name test of `ListKiroTokens`: "kiro-" prefix and an exact ".json" suffix. */
  predicate IsListedName(name: string) {
    HasPrefix(name, "kiro-") && HasSuffix(name, ".json")
  }

  /** A token is due when it has no expiry or expires in less than five minutes. */
  predicate NeedsRefresh(t: Token, now: int) {
    IsZero(t.expiresAt) || t.expiresAt - now < 5 * Minute
  }

  /** The token one walk entry contributes to `FindOldestUnverified`, if any. */
  function Selected(e: WalkEntry, now: int, parseTime: string -> Option<int>): (r: Option<Token>)
    ensures r.Some? ==> e.File? && IsScannedName(e.name)
                        && ReadTokenFile(e.name, e.state, parseTime) == ReadOk(r)
                        && r.value.refreshToken != "" && NeedsRefresh(r.value, now)
  {
    if !e.File? || !IsScannedName(e.name) then None
    else
      match ReadTokenFile(e.name, e.state, parseTime)
      case ReadFailed => None
      case ReadOk(t) =>
        if t.Some? && t.value.refreshToken != "" && NeedsRefresh(t.value, now) then t else None
  }

  /** The tokens the walk collects, in walk order. */
  function Candidates(walk: seq<WalkEntry>, now: int, parseTime: string -> Option<int>): seq<Token>
    decreases |walk|
  {
    if walk == [] then []
    else
      var rest := Candidates(walk[..|walk| - 1], now, parseTime);
      match Selected(walk[|walk| - 1], now, parseTime)
      case None => rest
      case Some(t) => rest + [t]
  }

  lemma CandidatesStep(walk: seq<WalkEntry>, i: int, now: int, parseTime: string -> Option<int>)
    requires 0 <= i < |walk|
    ensures Candidates(walk[..i + 1], now, parseTime)
            == Candidates(walk[..i], now, parseTime)
               + (match Selected(walk[i], now, parseTime) case None => [] case Some(t) => [t])
  {
    assert walk[..i + 1][..i] == walk[..i];
  }

  /** Every collected token has a refresh token and is due. */
  lemma {:induction false} CandidatesAreDue(walk: seq<WalkEntry>, now: int, parseTime: string -> Option<int>)
    ensures forall t :: t in Candidates(walk, now, parseTime) ==> t.refreshToken != "" && NeedsRefresh(t, now)
    decreases |walk|
  {
    if walk != [] {
      CandidatesAreDue(walk[..|walk| - 1], now, parseTime);
    }
  }

  /** A file that cannot be read or decoded is skipped and the scan goes on. */
  lemma SkipsUnreadableFiles(walk: seq<WalkEntry>, name: string, bad: FileState, now: int, parseTime: string -> Option<int>)
    requires bad.Unreadable? || bad.Malformed?
    ensures Candidates(walk + [File(name, bad)], now, parseTime) == Candidates(walk, now, parseTime)
  {
    assert (walk + [File(name, bad)])[..|walk|] == walk;
  }

  predicate SortedByLastVerified(ts: seq<Token>) {
    forall i, j :: 0 <= i < j < |ts| ==> ts[i].lastVerified <= ts[j].lastVerified
  }

  /** The length after `if limit > 0 && len(tokens) > limit { tokens = tokens[:limit] }`. */
  function Limited(n: nat, limit: int): (k: nat)
    ensures k <= n
    ensures limit > 0 ==> k <= limit
    ensures limit <= 0 ==> k == n
  {
    if limit > 0 && n > limit then limit else n
  }

  /** `r` is a prefix, of the limited length, of some ordering of `cands` by last verification. */
  ghost predicate OldestFirst(r: seq<Token>, cands: seq<Token>, limit: int) {
    |r| == Limited(|cands|, limit)
    && exists s :: multiset(s) == multiset(cands) && SortedByLastVerified(s) && |r| <= |s| && r == s[..|r|]
  }

  /** Whatever the order the sort leaves equal keys in, a kept token was verified no later
      than any token cut off by the limit. */
  lemma OldestFirstKeepsOldest(r: seq<Token>, cands: seq<Token>, limit: int, s: seq<Token>)
    requires multiset(s) == multiset(cands) && SortedByLastVerified(s) && |r| <= |s| && r == s[..|r|]
    ensures SortedByLastVerified(r)
    ensures multiset(r) <= multiset(cands)
    ensures forall i, j :: 0 <= i < |r| <= j < |s| ==> r[i].lastVerified <= s[j].lastVerified
  {
    assert s == r + s[|r|..];
    assert multiset(s) == multiset(r) + multiset(s[|r|..]);
  }

  /** The first `n` tokens are in order of last verification. */
  predicate SortedPrefix(ts: seq<Token>, n: int) {
    0 <= n <= |ts| && forall p, q :: 0 <= p < q < n ==> ts[p].lastVerified <= ts[q].lastVerified
  }

  /** `sort.Slice(tokens, LastVerified.Before)`, an insertion sort here. */
  method SortByLastVerified(a: array<Token>)
    modifies a
    ensures SortedByLastVerified(a[..])
    ensures multiset(a[..]) == multiset(old(a[..]))
  {
    if a.Length <= 1 {
      return;
    }
    var i := 1;
    while i < a.Length
      invariant 1 <= i <= a.Length
      invariant SortedPrefix(a[..], i)
      invariant multiset(a[..]) == multiset(old(a[..]))
    {
      InsertInto(a, i);
      i := i + 1;
    }
  }

  /** Moves `a[i]` down into the sorted prefix `a[..i]`. */
  method InsertInto(a: array<Token>, i: int)
    requires 1 <= i < a.Length && SortedPrefix(a[..], i)
    modifies a
    ensures SortedPrefix(a[..], i + 1)
    ensures multiset(a[..]) == multiset(old(a[..]))
  {
    var j := i;
    while j > 0 && a[j].lastVerified < a[j - 1].lastVerified
      invariant Inserting(a[..], i, j)
      invariant multiset(a[..]) == multiset(old(a[..]))
    {
      ghost var before := a[..];
      a[j], a[j - 1] := a[j - 1], a[j];
      InsertingStep(before, a[..], i, j);
      j := j - 1;
    }
    InsertingDone(a[..], i, j);
  }

  /** Midway through inserting `ts[i]`: it now sits at `j`, below everything after it, and
      the rest of `ts[..i + 1]` is in order. */
  predicate Inserting(ts: seq<Token>, i: int, j: int) {
    0 <= j <= i < |ts|
    && (forall p, q :: 0 <= p < q <= i && p != j && q != j ==> ts[p].lastVerified <= ts[q].lastVerified)
    && (forall q :: j < q <= i ==> ts[j].lastVerified < ts[q].lastVerified)
  }

  lemma InsertingStep(ts: seq<Token>, us: seq<Token>, i: int, j: int)
    requires Inserting(ts, i, j) && j > 0 && ts[j].lastVerified < ts[j - 1].lastVerified
    requires us == ts[j := ts[j - 1]][j - 1 := ts[j]]
    ensures Inserting(us, i, j - 1)
    ensures multiset(us) == multiset(ts)
  {
  }

  lemma InsertingDone(ts: seq<Token>, i: int, j: int)
    requires Inserting(ts, i, j) && (j == 0 || ts[j - 1].lastVerified <= ts[j].lastVerified)
    ensures SortedPrefix(ts, i + 1)
  {
  }

  /** `UpdateToken`'s result: an error, the written file, or the run-time panic of
      assigning into a nil map. */
  datatype UpdateOutcome = UpdateError(message: string) | Written(path: string, fields: map<string, Json>) | NilMapPanic

  /** The target path: ".json" appended unless the joined path already ends in it. */
  function TargetPath(joined: string): (p: string)
    ensures HasSuffix(p, ".json")
    ensures HasSuffix(joined, ".json") ==> p == joined
    ensures !HasSuffix(joined, ".json") ==> p == joined + ".json"
  {
    if HasSuffix(joined, ".json") then joined
    else
      assert (joined + ".json")[|joined + ".json"| - 5..] == ".json";
      joined + ".json"
  }

  /** `existingData` after `json.Unmarshal` into the fresh map, `None` for the nil map left
      by decoding `null`. A missing or malformed file, or a non-object, leaves the map empty. */
  function UnmarshalExisting(state: FileState): (r: Option<map<string, Json>>)
    ensures r.None? <==> state == Parsed(JNull)
  {
    if state.Parsed? && state.json.JObject? then Some(state.json.fields)
    else if state == Parsed(JNull) then None
    else Some(map[])
  }

  /** The key-value writes of `UpdateToken`, in order; `None` where the code skips the
      write: the expiry when it is zero, the client and account fields when empty. */
  function Writes(t: Token, stamp: string, formatTime: int -> string): (ws: seq<(string, Option<Json>)>)
    ensures |ws| == 9
  {
    [("access_token", Some(JString(t.accessToken))),
     ("refresh_token", Some(JString(t.refreshToken))),
     ("last_refresh", Some(JString(stamp))),
     ("expires_at", if !IsZero(t.expiresAt) then Some(JString(formatTime(t.expiresAt))) else None),
     ("client_id", NonEmpty(t.clientID)),
     ("client_secret", NonEmpty(t.clientSecret)),
     ("auth_method", NonEmpty(t.authMethod)),
     ("region", NonEmpty(t.region)),
     ("start_url", NonEmpty(t.startURL))]
  }

  function NonEmpty(value: string): (v: Option<Json>)
    ensures v.Some? <==> value != ""
    ensures v.Some? ==> v.value == JString(value)
  {
    if value != "" then Some(JString(value)) else None
  }

  /** `m` after performing the writes in order. */
  function ApplyWrites(m: map<string, Json>, ws: seq<(string, Option<Json>)>): map<string, Json>
    decreases |ws|
  {
    if ws == [] then m
    else
      var prev := ApplyWrites(m, ws[..|ws| - 1]);
      var (key, value) := ws[|ws| - 1];
      if value.Some? then prev[key := value.value] else prev
  }

  /** The value last written under `key`, if any. */
  function LastWrite(ws: seq<(string, Option<Json>)>, key: string): Option<Json>
    decreases |ws|
  {
    if ws == [] then None
    else if ws[|ws| - 1].0 == key && ws[|ws| - 1].1.Some? then ws[|ws| - 1].1
    else LastWrite(ws[..|ws| - 1], key)
  }

  /** After a series of writes a key holds its last written value, or its old one when
      nothing was written to it. */
  lemma {:induction false} ApplyWritesAt(m: map<string, Json>, ws: seq<(string, Option<Json>)>, key: string)
    ensures key in ApplyWrites(m, ws) <==> key in m || LastWrite(ws, key).Some?
    ensures LastWrite(ws, key).Some? ==> ApplyWrites(m, ws)[key] == LastWrite(ws, key).value
    ensures LastWrite(ws, key).None? && key in m ==> ApplyWrites(m, ws)[key] == m[key]
    decreases |ws|
  {
    if ws != [] {
      ApplyWritesAt(m, ws[..|ws| - 1], key);
    }
  }

  /** One more write on top of the ones done. */
  lemma ApplyWritesSnoc(m: map<string, Json>, done: seq<(string, Option<Json>)>, key: string, value: Option<Json>)
    ensures ApplyWrites(m, done + [(key, value)])
            == (if value.Some? then ApplyWrites(m, done)[key := value.value] else ApplyWrites(m, done))
  {
    assert (done + [(key, value)])[..|done|] == done;
  }

  /** The fields after `UpdateToken`'s updates, `stamp` being the formatted write time. */
  function MergeFields(existing: map<string, Json>, t: Token, stamp: string, formatTime: int -> string): map<string, Json> {
    ApplyWrites(existing, Writes(t, stamp, formatTime))
  }

  /** The merge always writes both tokens and the write time, the expiry only when it is
      set, and keeps every key it does not write with its old value. */
  lemma MergeFieldsEffect(existing: map<string, Json>, t: Token, stamp: string, formatTime: int -> string, key: string)
    ensures var m := MergeFields(existing, t, stamp, formatTime);
      "access_token" in m && m["access_token"] == JString(t.accessToken)
      && "refresh_token" in m && m["refresh_token"] == JString(t.refreshToken)
      && "last_refresh" in m && m["last_refresh"] == JString(stamp)
      && (!IsZero(t.expiresAt) ==> "expires_at" in m && m["expires_at"] == JString(formatTime(t.expiresAt)))
      && (IsZero(t.expiresAt) ==> ("expires_at" in m <==> "expires_at" in existing))
      && (IsZero(t.expiresAt) && "expires_at" in existing ==> m["expires_at"] == existing["expires_at"])
      && (key !in WrittenKeys ==> (key in m <==> key in existing))
      && (key !in WrittenKeys && key in existing ==> m[key] == existing[key])
  {
    var ws := Writes(t, stamp, formatTime);
    WritesKeysDistinct(t, stamp, formatTime, 0);
    LastWriteOfUniqueKey(ws, 0);
    WritesKeysDistinct(t, stamp, formatTime, 1);
    LastWriteOfUniqueKey(ws, 1);
    WritesKeysDistinct(t, stamp, formatTime, 2);
    LastWriteOfUniqueKey(ws, 2);
    WritesKeysDistinct(t, stamp, formatTime, 3);
    LastWriteOfUniqueKey(ws, 3);
    ApplyWritesAt(existing, ws, "access_token");
    ApplyWritesAt(existing, ws, "refresh_token");
    ApplyWritesAt(existing, ws, "last_refresh");
    ApplyWritesAt(existing, ws, "expires_at");
    ApplyWritesAt(existing, ws, key);
    if key !in WrittenKeys {
      NoWriteOutsideWrittenKeys(ws, key, t, stamp, formatTime);
    }
  }

  /** The keys `UpdateToken` may write. */
  const WrittenKeys: set<string> :=
    {"access_token", "refresh_token", "last_refresh", "expires_at", "client_id", "client_secret",
     "auth_method", "region", "start_url"}

  lemma NoWriteOutsideWrittenKeys(ws: seq<(string, Option<Json>)>, key: string, t: Token, stamp: string,
                                  formatTime: int -> string)
    requires ws == Writes(t, stamp, formatTime) && key !in WrittenKeys
    ensures LastWrite(ws, key).None?
  {
    assert forall i :: 0 <= i < |ws| ==> ws[i].0 in WrittenKeys;
    LastWriteOfUnwrittenKey(ws, key);
  }

  /** A key written exactly once holds that write's value. */
  lemma {:induction false} LastWriteOfUniqueKey(ws: seq<(string, Option<Json>)>, i: int)
    requires 0 <= i < |ws|
    requires forall j :: 0 <= j < |ws| && j != i ==> ws[j].0 != ws[i].0
    ensures LastWrite(ws, ws[i].0) == ws[i].1
    decreases |ws|
  {
    var prefix := ws[..|ws| - 1];
    if i == |ws| - 1 {
      if ws[i].1.None? {
        LastWriteOfUnwrittenKey(prefix, ws[i].0);
      }
    } else {
      assert prefix[i] == ws[i];
      LastWriteOfUniqueKey(prefix, i);
    }
  }

  /** The nine keys of `Writes` are distinct. */
  lemma WritesKeysDistinct(t: Token, stamp: string, formatTime: int -> string, i: int)
    requires 0 <= i < 9
    ensures var ws := Writes(t, stamp, formatTime);
      forall j :: 0 <= j < |ws| && j != i ==> ws[j].0 != ws[i].0
  {
  }

  lemma {:induction false} LastWriteOfUnwrittenKey(ws: seq<(string, Option<Json>)>, key: string)
    requires forall i :: 0 <= i < |ws| ==> ws[i].0 != key
    ensures LastWrite(ws, key).None?
    decreases |ws|
  {
    if ws != [] {
      LastWriteOfUnwrittenKey(ws[..|ws| - 1], key);
    }
  }

  /** An optional field, the i-th write for 4 <= i < 9, reads back as the token's value
      when that is non-empty, and as it was otherwise. */
  lemma MergeKeepsOptionalField(existing: map<string, Json>, t: Token, stamp: string, formatTime: int -> string,
                                i: int)
    requires 4 <= i < 9
    ensures var (key, value) := Writes(t, stamp, formatTime)[i];
      var m := MergeFields(existing, t, stamp, formatTime);
      (value.Some? ==> key in m && m[key] == value.value)
      && (value.None? ==> (key in m <==> key in existing))
      && (value.None? && key in existing ==> m[key] == existing[key])
  {
    var ws := Writes(t, stamp, formatTime);
    WritesKeysDistinct(t, stamp, formatTime, i);
    LastWriteOfUniqueKey(ws, i);
    ApplyWritesAt(existing, ws, ws[i].0);
  }

  /** A token written by `UpdateToken` over a Kiro record reads back with the new access and
      refresh tokens, the non-empty client fields and auth method of the token and the old
      ones otherwise, its expiry (when set, and when formatting it loses nothing) or the old
      one, and the write time as its last verification. */
  lemma UpdateThenRead(name: string, existing: map<string, Json>, t: Token, stamp: string,
                       formatTime: int -> string, parseTime: string -> Option<int>)
    requires StringField(existing, "type") == "kiro"
    requires t.authMethod == "" ==> IsRefreshableMethod(StringField(existing, "auth_method"))
    requires t.authMethod != "" ==> IsRefreshableMethod(t.authMethod)
    ensures var r := ReadTokenFile(name, Parsed(JObject(MergeFields(existing, t, stamp, formatTime))), parseTime);
      r.ReadOk? && r.token.Some?
      && r.token.value.accessToken == t.accessToken
      && r.token.value.refreshToken == t.refreshToken
      && r.token.value.clientID == (if t.clientID != "" then t.clientID else StringField(existing, "client_id"))
      && r.token.value.clientSecret == (if t.clientSecret != "" then t.clientSecret else StringField(existing, "client_secret"))
      && r.token.value.region == (if t.region != "" then t.region else StringField(existing, "region"))
      && r.token.value.startURL == (if t.startURL != "" then t.startURL else StringField(existing, "start_url"))
      && r.token.value.lastVerified == (if parseTime(stamp).Some? then parseTime(stamp).value else ZeroTime)
      && r.token.value.authMethod == (if t.authMethod != "" then t.authMethod else StringField(existing, "auth_method"))
      && (!IsZero(t.expiresAt) && parseTime(formatTime(t.expiresAt)) == Some(t.expiresAt) ==>
            r.token.value.expiresAt == t.expiresAt)
      && (IsZero(t.expiresAt) ==> r.token.value.expiresAt == TimeField(existing, "expires_at", parseTime))
  {
    var m := MergeFields(existing, t, stamp, formatTime);
    MergeFieldsEffect(existing, t, stamp, formatTime, "type");
    assert StringField(m, "type") == "kiro";
    MergeKeepsOptionalField(existing, t, stamp, formatTime, 4);
    MergeKeepsOptionalField(existing, t, stamp, formatTime, 5);
    MergeKeepsOptionalField(existing, t, stamp, formatTime, 6);
    MergeKeepsOptionalField(existing, t, stamp, formatTime, 7);
    MergeKeepsOptionalField(existing, t, stamp, formatTime, 8);
  }

  /** The outcome of `UpdateToken` as the code is written. */
  function UpdateResult(token: Option<Token>, baseDir: string, join: (string, string) -> string,
                        readFile: string -> FileState, stamp: string, formatTime: int -> string,
                        writeFails: bool, renameFails: bool): UpdateOutcome
  {
    if token.None? then UpdateError("token repository: token is nil")
    else if baseDir == "" then UpdateError("token repository: base directory not configured")
    else
      var path := TargetPath(join(baseDir, token.value.id));
      match UnmarshalExisting(readFile(path))
      case None => NilMapPanic
      case Some(existing) =>
        if writeFails then UpdateError("token repository: write temp file failed")
        else if renameFails then UpdateError("token repository: rename failed")
        else Written(path, MergeFields(existing, token.value, stamp, formatTime))
  }

  /** A credential file holding JSON `null` makes `UpdateToken` panic. */
  lemma NullFileMakesUpdateTokenPanic(t: Token, baseDir: string, join: (string, string) -> string,
                                      readFile: string -> FileState, stamp: string, formatTime: int -> string)
    requires baseDir != ""
    requires readFile(TargetPath(join(baseDir, t.id))) == Parsed(JNull)
    ensures UpdateResult(Some(t), baseDir, join, readFile, stamp, formatTime, false, false) == NilMapPanic
  {
  }

  /** `UpdateToken` as evidently intended: a file decoding to `null` counts as empty. */
  function UpdateResultNullSafe(token: Option<Token>, baseDir: string, join: (string, string) -> string,
                                readFile: string -> FileState, stamp: string, formatTime: int -> string,
                                writeFails: bool, renameFails: bool): (r: UpdateOutcome)
    ensures !r.NilMapPanic?
    ensures token.Some? && baseDir != "" && !writeFails && !renameFails ==>
      r.Written? && r.path == TargetPath(join(baseDir, token.value.id))
      && r.fields.Keys >= {"access_token", "refresh_token", "last_refresh"}
    ensures UpdateResult(token, baseDir, join, readFile, stamp, formatTime, writeFails, renameFails) != NilMapPanic
            ==> r == UpdateResult(token, baseDir, join, readFile, stamp, formatTime, writeFails, renameFails)
  {
    if token.None? then UpdateError("token repository: token is nil")
    else if baseDir == "" then UpdateError("token repository: base directory not configured")
    else
      var path := TargetPath(join(baseDir, token.value.id));
      var existing := match UnmarshalExisting(readFile(path)) case None => map[] case Some(m) => m;
      if writeFails then UpdateError("token repository: write temp file failed")
      else if renameFails then UpdateError("token repository: rename failed")
      else
        MergeFieldsEffect(existing, token.value, stamp, formatTime, "");
        Written(path, MergeFields(existing, token.value, stamp, formatTime))
  }

  /** The tokens `ListKiroTokens` collects, in walk order. */
  function Listed(walk: seq<WalkEntry>, parseTime: string -> Option<int>): seq<Token>
    decreases |walk|
  {
    if walk == [] then []
    else
      var rest := Listed(walk[..|walk| - 1], parseTime);
      var e := walk[|walk| - 1];
      if e.File? && IsListedName(e.name) then
        match ReadTokenFile(e.name, e.state, parseTime)
        case ReadOk(Some(t)) => rest + [t]
        case _ => rest
      else rest
  }

  /** Every listed token was read from a file of the walk with a listed name, and no
      walk entry yields more than one token. */
  lemma {:induction false} ListedComeFromWalk(walk: seq<WalkEntry>, parseTime: string -> Option<int>)
    ensures |Listed(walk, parseTime)| <= |walk|
    ensures forall t :: t in Listed(walk, parseTime) ==>
      exists e :: e in walk && e.File? && IsListedName(e.name) && ReadTokenFile(e.name, e.state, parseTime) == ReadOk(Some(t))
    decreases |walk|
  {
    if walk != [] {
      var init := walk[..|walk| - 1];
      ListedComeFromWalk(init, parseTime);
      assert forall e :: e in init ==> e in walk;
      assert walk[|walk| - 1] in walk;
    }
  }

  /** Every name `ListKiroTokens` accepts is also scanned by `FindOldestUnverified`. */
  lemma ListedNamesAreScanned(name: string)
    requires IsListedName(name)
    ensures IsScannedName(name)
  {
    var lower := LowerAsciiString(name);
    assert forall i :: |name| - 5 <= i < |name| ==> lower[i] == name[i];
    assert lower[|lower| - 5..] == name[|name| - 5..];
  }

  /** The in-place updates of `UpdateToken` on the decoded fields, `stamp` being the
      formatted write time. */
  method MergeInto(existing: map<string, Json>, t: Token, stamp: string, formatTime: int -> string)
    returns (existingData: map<string, Json>)
    ensures existingData == MergeFields(existing, t, stamp, formatTime)
  {
    existingData := existing;
    ghost var done := [];
    existingData := existingData["access_token" := JString(t.accessToken)];
    ApplyWritesSnoc(existing, done, "access_token", Some(JString(t.accessToken)));
    done := done + [("access_token", Some(JString(t.accessToken)))];
    existingData := existingData["refresh_token" := JString(t.refreshToken)];
    ApplyWritesSnoc(existing, done, "refresh_token", Some(JString(t.refreshToken)));
    done := done + [("refresh_token", Some(JString(t.refreshToken)))];
    existingData := existingData["last_refresh" := JString(stamp)];
    ApplyWritesSnoc(existing, done, "last_refresh", Some(JString(stamp)));
    done := done + [("last_refresh", Some(JString(stamp)))];
    if !IsZero(t.expiresAt) {
      existingData := existingData["expires_at" := JString(formatTime(t.expiresAt))];
    }
    ApplyWritesSnoc(existing, done, "expires_at", if !IsZero(t.expiresAt) then Some(JString(formatTime(t.expiresAt))) else None);
    done := done + [("expires_at", if !IsZero(t.expiresAt) then Some(JString(formatTime(t.expiresAt))) else None)];
    if t.clientID != "" {
      existingData := existingData["client_id" := JString(t.clientID)];
    }
    ApplyWritesSnoc(existing, done, "client_id", NonEmpty(t.clientID));
    done := done + [("client_id", NonEmpty(t.clientID))];
    if t.clientSecret != "" {
      existingData := existingData["client_secret" := JString(t.clientSecret)];
    }
    ApplyWritesSnoc(existing, done, "client_secret", NonEmpty(t.clientSecret));
    done := done + [("client_secret", NonEmpty(t.clientSecret))];
    if t.authMethod != "" {
      existingData := existingData["auth_method" := JString(t.authMethod)];
    }
    ApplyWritesSnoc(existing, done, "auth_method", NonEmpty(t.authMethod));
    done := done + [("auth_method", NonEmpty(t.authMethod))];
    if t.region != "" {
      existingData := existingData["region" := JString(t.region)];
    }
    ApplyWritesSnoc(existing, done, "region", NonEmpty(t.region));
    done := done + [("region", NonEmpty(t.region))];
    if t.startURL != "" {
      existingData := existingData["start_url" := JString(t.startURL)];
    }
    ApplyWritesSnoc(existing, done, "start_url", NonEmpty(t.startURL));
    done := done + [("start_url", NonEmpty(t.startURL))];
    assert done == Writes(t, stamp, formatTime);
  }

  datatype ListResult = ListError(message: string) | ListOk(tokens: seq<Token>)

  class FileTokenRepository {
    var baseDir: string

    /** `NewFileTokenRepository`: the directory is kept as given. */
    constructor (baseDir: string)
      ensures this.baseDir == baseDir
    {
      this.baseDir := baseDir;
    }

    method SetBaseDir(dir: string)
      modifies this
      ensures baseDir == TrimSpace(dir)
    {
      baseDir := TrimSpace(dir);
    }

    /** The due Kiro tokens, least recently verified first, at most `limit` of them when
        `limit` > 0; nil when no directory is configured. */
    method FindOldestUnverified(limit: int, walk: seq<WalkEntry>, now: int, parseTime: string -> Option<int>)
      returns (tokens: seq<Token>)
      ensures baseDir == "" ==> tokens == []
      ensures baseDir != "" ==> OldestFirst(tokens, Candidates(walk, now, parseTime), limit)
    {
      if baseDir == "" {
        return [];
      }
      tokens := [];
      var i := 0;
      while i < |walk|
        invariant 0 <= i <= |walk|
        invariant tokens == Candidates(walk[..i], now, parseTime)
      {
        CandidatesStep(walk, i, now, parseTime);
        var e := walk[i];
        if e.File? && HasSuffix(LowerAsciiString(e.name), ".json") && HasPrefix(e.name, "kiro-") {
          var read := ReadTokenFile(e.name, e.state, parseTime);
          if read.ReadOk? {
            var token := read.token;
            if token.Some? && token.value.refreshToken != "" {
              if IsZero(token.value.expiresAt) || token.value.expiresAt - now < 5 * Minute {
                tokens := tokens + [token.value];
              }
            }
          }
        }
        i := i + 1;
      }
      assert walk[..|walk|] == walk;
      ghost var cands := tokens;
      var a := new Token[|tokens|](k requires 0 <= k < |tokens| => tokens[k]);
      assert a[..] == cands;
      SortByLastVerified(a);
      ghost var sorted := a[..];
      var n := a.Length;
      if limit > 0 && n > limit {
        n := limit;
      }
      tokens := a[..n];
      assert tokens == sorted[..|tokens|];
    }

    /** `UpdateToken`: the fields of the existing file are updated key by key and the file
        is rewritten through a temporary file. */
    method UpdateToken(token: Option<Token>, join: (string, string) -> string, readFile: string -> FileState,
                       now: int, formatTime: int -> string, writeFails: bool, renameFails: bool)
      returns (outcome: UpdateOutcome)
      ensures outcome == UpdateResult(token, baseDir, join, readFile, formatTime(now), formatTime, writeFails, renameFails)
      ensures !outcome.NilMapPanic? ==>
        outcome == UpdateResultNullSafe(token, baseDir, join, readFile, formatTime(now), formatTime, writeFails, renameFails)
    {
      if token.None? {
        return UpdateError("token repository: token is nil");
      }
      if baseDir == "" {
        return UpdateError("token repository: base directory not configured");
      }
      var t := token.value;
      var filePath := join(baseDir, t.id);
      if !HasSuffix(filePath, ".json") {
        filePath := filePath + ".json";
      }
      var decoded := UnmarshalExisting(readFile(filePath));
      if decoded.None? {
        return NilMapPanic;
      }
      var existingData := MergeInto(decoded.value, t, formatTime(now), formatTime);
      if writeFails {
        return UpdateError("token repository: write temp file failed");
      }
      if renameFails {
        return UpdateError("token repository: rename failed");
      }
      outcome := Written(filePath, existingData);
    }

    /** Every Kiro token file of the directory, in walk order; an error when no directory
        is configured. */
    method ListKiroTokens(walk: seq<WalkEntry>, parseTime: string -> Option<int>) returns (r: ListResult)
      ensures baseDir == "" ==> r == ListError("token repository: base directory not configured")
      ensures baseDir != "" ==> r == ListOk(Listed(walk, parseTime))
    {
      if baseDir == "" {
        return ListError("token repository: base directory not configured");
      }
      var tokens := [];
      var i := 0;
      while i < |walk|
        invariant 0 <= i <= |walk|
        invariant tokens == Listed(walk[..i], parseTime)
      {
        assert walk[..i + 1][..i] == walk[..i];
        var e := walk[i];
        if e.File? && HasPrefix(e.name, "kiro-") && HasSuffix(e.name, ".json") {
          var read := ReadTokenFile(e.name, e.state, parseTime);
          if read.ReadOk? && read.token.Some? {
            tokens := tokens + [read.token.value];
          }
        }
        i := i + 1;
      }
      assert walk[..|walk|] == walk;
      r := ListOk(tokens);
    }
  }
}
