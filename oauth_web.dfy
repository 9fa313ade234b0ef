/** The decision rules and session bookkeeping of internal/auth/kiro/oauth_web.go, the
    browser-driven login of Kiro credentials. Routing, page rendering and the OIDC and
    social network clients are not part of this model: what those clients answer is a
    parameter. Times are nanoseconds; RFC 3339 formatting is the parameter `formatTime`. */
module OAuthWeb {
  import opened Wrappers
  import opened GoStrings
  import opened GoTime
  import opened KiroToken
  import TokenRepository

  /** A pending session is dropped this long after it started. */
  const DefaultSessionExpiry: int := 10 * Minute
  /** The floor on the device-code polling interval, in seconds. */
  const PollIntervalSeconds: int := 5
  /** A finished session is dropped this long after it completed. */
  const FinishedSessionRetention: int := 30 * Minute
  /** Imported refresh tokens carry this prefix. */
  const ImportedTokenPrefix: string := "aorAAAAAG"

  datatype AuthSessionStatus = Pending | Succeeded | Failed

  // ---------------------------------------------------------------------------------
  // Credential file names

  /** The e-mail with every '@' and every '.' replaced by '-'. */
  function SanitizeEmail(email: string): (s: string)
    ensures |s| == |email|
    ensures forall i :: 0 <= i < |s| ==> s[i] != '@' && s[i] != '.'
    ensures forall i :: 0 <= i < |s| ==> email[i] != '@' && email[i] != '.' ==> s[i] == email[i]
  {
    ReplaceChar(ReplaceChar(email, '@', '-'), '.', '-')
  }

  /** The file name under which `saveTokenToFile` stores a credential and which
      `handleImportToken` reports: the method, then the sanitised e-mail when there is one. */
  function CredentialFileName(authMethod: string, email: string): (name: string)
    ensures HasPrefix(name, "kiro-" + authMethod) && HasSuffix(name, ".json")
    ensures |name| >= |"kiro-" + authMethod| + |".json"|
    ensures name[|"kiro-" + authMethod|..|name| - |".json"|]
            == if email == "" then "" else "-" + SanitizeEmail(email)
  {
    var middle := if email == "" then "" else "-" + SanitizeEmail(email);
    var name := "kiro-" + authMethod + middle + ".json";
    assert name[..|"kiro-" + authMethod|] == "kiro-" + authMethod;
    assert name[|name| - 5..] == ".json";
    assert name[|"kiro-" + authMethod|..|name| - 5] == middle;
    name
  }

  /** Every credential file the web login writes is one the token repository lists and
      the background refresher scans. */
  lemma CredentialFilesAreListed(authMethod: string, email: string)
    ensures TokenRepository.IsListedName(CredentialFileName(authMethod, email))
    ensures TokenRepository.IsScannedName(CredentialFileName(authMethod, email))
  {
    var name := CredentialFileName(authMethod, email);
    assert name[..5] == (name[..|"kiro-" + authMethod|])[..5];
    TokenRepository.ListedNamesAreScanned(name);
  }

  /** Two accounts of the same method share a file when their e-mails differ only in
      where '@' and '.' stand. */
  lemma SanitizedEmailsCollide()
    ensures CredentialFileName("builder-id", "a.b@c") == CredentialFileName("builder-id", "a@b.c")
  {
    assert SanitizeEmail("a.b@c") == "a-b-c";
    assert SanitizeEmail("a@b.c") == "a-b-c";
  }

  /** The JSON object `saveTokenToFile` writes: `KiroTokenStorage`, whose optional
      fields are omitted when empty. */
  function StorageFields(t: KiroTokenData, lastRefresh: string): (m: map<string, TokenRepository.Json>) {
    OmitEmpty("client_id", t.clientID) + OmitEmpty("client_secret", t.clientSecret)
      + OmitEmpty("region", t.region) + OmitEmpty("start_url", t.startURL) + OmitEmpty("email", t.email)
      + RequiredStorageFields(t, lastRefresh)
  }

  /** The fields of `KiroTokenStorage` that are always written. */
  function RequiredStorageFields(t: KiroTokenData, lastRefresh: string): (m: map<string, TokenRepository.Json>)
    ensures "type" in m && m["type"] == TokenRepository.JString("kiro")
    ensures "auth_method" in m && m["auth_method"] == TokenRepository.JString(t.authMethod)
    ensures "refresh_token" in m && m["refresh_token"] == TokenRepository.JString(t.refreshToken)
    ensures "access_token" in m && m["access_token"] == TokenRepository.JString(t.accessToken)
    ensures "provider" in m && m["provider"] == TokenRepository.JString(t.provider)
    ensures m.Keys == {"access_token", "profile_arn", "expires_at", "provider", "last_refresh",
                       "refresh_token", "auth_method", "type"}
  {
    map[
      "access_token" := TokenRepository.JString(t.accessToken),
      "profile_arn" := TokenRepository.JString(t.profileArn),
      "expires_at" := TokenRepository.JString(t.expiresAt),
      "provider" := TokenRepository.JString(t.provider),
      "last_refresh" := TokenRepository.JString(lastRefresh),
      "refresh_token" := TokenRepository.JString(t.refreshToken),
      "auth_method" := TokenRepository.JString(t.authMethod),
      "type" := TokenRepository.JString("kiro")]
  }

  /** What the token repository's decoder reads from the saved fields that decide whether
      and how a credential is refreshed. */
  lemma StorageFieldsRead(t: KiroTokenData, lastRefresh: string)
    ensures var m := StorageFields(t, lastRefresh);
      TokenRepository.StringField(m, "type") == "kiro"
      && TokenRepository.StringField(m, "auth_method") == t.authMethod
      && TokenRepository.StringField(m, "refresh_token") == t.refreshToken
      && TokenRepository.StringField(m, "access_token") == t.accessToken
      && TokenRepository.StringField(m, "provider") == t.provider
  {
  }

  /** A field tagged `omitempty`: absent when empty. */
  function OmitEmpty(key: string, value: string): (m: map<string, TokenRepository.Json>)
    ensures m.Keys <= {key}
    ensures TokenRepository.StringField(m, key) == value
  {
    if value == "" then map[] else map[key := TokenRepository.JString(value)]
  }

  /** The token repository reads a saved credential back exactly when its method is IDC
      or Builder ID, with the tokens and provider that were saved; so imported social
      tokens are never refreshed in the background. */
  lemma SavedCredentialReadBack(t: KiroTokenData, lastRefresh: string, parseTime: string -> Option<int>)
    ensures
      var name := CredentialFileName(t.authMethod, t.email);
      var r := TokenRepository.ReadTokenFile(name, TokenRepository.Parsed(TokenRepository.JObject(StorageFields(t, lastRefresh))), parseTime);
      r.ReadOk? && (r.token.Some? <==> TokenRepository.IsRefreshableMethod(t.authMethod))
      && (r.token.Some? ==>
            r.token.value.id == name && r.token.value.authMethod == t.authMethod
            && r.token.value.accessToken == t.accessToken && r.token.value.refreshToken == t.refreshToken
            && r.token.value.provider == t.provider)
  {
    StorageFieldsRead(t, lastRefresh);
  }

  // ---------------------------------------------------------------------------------
  // Manual refresh dispatch

  /** The fields of a stored `KiroTokenStorage` that choose how it is refreshed. */
  datatype StoredCredential = StoredCredential(refreshToken: string, clientID: string, clientSecret: string,
                                               authMethod: string, region: string, startURL: string)

  /** The refresh call `refreshTokenData` makes, with its arguments. */
  datatype RefreshCall =
    | IDCRefresh(clientID: string, clientSecret: string, refreshToken: string, region: string, startURL: string)
    | BuilderIDRefresh(clientID: string, clientSecret: string, refreshToken: string)
    | SocialRefresh(refreshToken: string)

  predicate HasClient(s: StoredCredential) {
    s.clientID != "" && s.clientSecret != ""
  }

  function RefreshCallFor(s: StoredCredential): (c: RefreshCall)
    ensures c.IDCRefresh? <==> HasClient(s) && s.authMethod == "idc" && s.region != ""
    ensures c.BuilderIDRefresh? <==> HasClient(s) && s.authMethod == "builder-id"
    ensures c.SocialRefresh? <==> !HasClient(s) || !(s.authMethod == "builder-id" || (s.authMethod == "idc" && s.region != ""))
    ensures c.refreshToken == s.refreshToken
    ensures !c.SocialRefresh? ==> c.clientID == s.clientID && c.clientSecret == s.clientSecret
    ensures c.IDCRefresh? ==> c.region == s.region && c.startURL == s.startURL
  {
    if HasClient(s) && s.authMethod == "idc" && s.region != "" then
      IDCRefresh(s.clientID, s.clientSecret, s.refreshToken, s.region, s.startURL)
    else if HasClient(s) && s.authMethod == "builder-id" then
      BuilderIDRefresh(s.clientID, s.clientSecret, s.refreshToken)
    else
      SocialRefresh(s.refreshToken)
  }

  /** An IDC credential without a region goes to the social refresh endpoint. */
  lemma IDCWithoutRegionRefreshesAsSocial(s: StoredCredential)
    requires s.authMethod == "idc" && s.region == ""
    ensures RefreshCallFor(s) == SocialRefresh(s.refreshToken)
  {
  }

  // ---------------------------------------------------------------------------------
  // Token import

  /** The JSON reply of `handleImportToken`; `token` is what it saves and announces. */
  datatype ImportReply = ImportReply(httpStatus: int, success: bool, error: string, fileName: string,
                                     token: Option<KiroTokenData>)

  function ImportRejected(error: string): ImportReply {
    ImportReply(400, false, error, "", None)
  }

  /** `handleImportToken`: `body` is the bound `refreshToken` field (`None` when the body
      does not bind) and `refreshSocial` the social client's answer for a token. */
  function ImportToken(body: Option<string>, refreshSocial: string -> Result<KiroTokenData>): (r: ImportReply)
    ensures body.None? ==> r == ImportRejected("Invalid request body")
    ensures body.Some? && TrimSpace(body.value) == "" ==> r == ImportRejected("Refresh token is required")
    ensures r.success <==>
      body.Some? && HasPrefix(TrimSpace(body.value), ImportedTokenPrefix)
      && refreshSocial(TrimSpace(body.value)).Success?
    ensures r.success ==>
      var given, answer := TrimSpace(body.value), refreshSocial(TrimSpace(body.value)).value;
      r.httpStatus == 200 && r.token.Some?
      && r.token.value == answer.(refreshToken := if answer.refreshToken == "" then given else answer.refreshToken,
                                 authMethod := "social", provider := "imported")
      && r.token.value.refreshToken != ""
      && r.fileName == CredentialFileName("social", answer.email)
    ensures !r.success ==> r.httpStatus == 400 && r.token.None?
  {
    if body.None? then ImportRejected("Invalid request body")
    else
      var refreshToken := TrimSpace(body.value);
      if refreshToken == "" then ImportRejected("Refresh token is required")
      else if !HasPrefix(refreshToken, ImportedTokenPrefix) then
        ImportRejected("Invalid token format. Token should start with aorAAAAAG...")
      else
        match refreshSocial(refreshToken)
        case Failure(e) => ImportRejected("Token validation failed: " + e)
        case Success(tokenData) =>
          var t0 := if tokenData.refreshToken == "" then tokenData.(refreshToken := refreshToken) else tokenData;
          var t := t0.(authMethod := "social", provider := "imported");
          ImportReply(200, true, "", CredentialFileName(t.authMethod, t.email), Some(t))
  }

  /** The reported file name is where `saveTokenToFile` put the token, and the token
      repository lists it but never decodes it as a refreshable credential. */
  lemma ImportedTokenIsSavedAsReported(body: Option<string>, refreshSocial: string -> Result<KiroTokenData>,
                                       lastRefresh: string, parseTime: string -> Option<int>)
    requires ImportToken(body, refreshSocial).success
    ensures
      var r := ImportToken(body, refreshSocial);
      r.fileName == CredentialFileName(r.token.value.authMethod, r.token.value.email)
      && TokenRepository.IsListedName(r.fileName)
      && TokenRepository.ReadTokenFile(r.fileName, TokenRepository.Parsed(TokenRepository.JObject(StorageFields(r.token.value, lastRefresh))), parseTime)
         == TokenRepository.ReadOk(None)
  {
    var r := ImportToken(body, refreshSocial);
    CredentialFilesAreListed("social", r.token.value.email);
    SavedCredentialReadBack(r.token.value, lastRefresh, parseTime);
  }

  // ---------------------------------------------------------------------------------
  // Starting a login

  /** The page shown for Google and GitHub, whose redirect is refused for third-party apps. */
  const SocialLoginUnavailable: string :=
    "Google/GitHub login is not available for third-party applications. Please use AWS Builder ID or import your token from Kiro IDE."

  datatype StartAction =
    | RedirectToSelect
    | ShowError(message: string)
    | BeginBuilderID
    | BeginIDC

  /** `handleStart`'s dispatch on the `method` query parameter. */
  function StartActionFor(authMethod: string): (a: StartAction)
    ensures a == RedirectToSelect <==> authMethod == ""
    ensures a == BeginBuilderID <==> authMethod == "builder-id"
    ensures a == BeginIDC <==> authMethod == "idc"
    ensures authMethod == "google" || authMethod == "github" ==>
      a == ShowError(SocialLoginUnavailable)
    ensures authMethod !in {"", "google", "github", "builder-id", "idc"} ==>
      a == ShowError("Unknown authentication method: " + authMethod)
  {
    if authMethod == "" then RedirectToSelect
    else if authMethod == "google" || authMethod == "github" then
      ShowError(SocialLoginUnavailable)
    else if authMethod == "builder-id" then BeginBuilderID
    else if authMethod == "idc" then BeginIDC
    else ShowError("Unknown authentication method: " + authMethod)
  }

  /** The query checks of `startIDCAuth`: a start URL is required and the region
      defaults to `defaultRegion` (a constant declared outside this model). */
  function IDCParameters(startURL: string, region: string, defaultRegion: string): (r: Result<(string, string)>)
    ensures r.Failure? <==> startURL == ""
    ensures r.Success? ==> r.value.0 == startURL && r.value.1 == (if region == "" then defaultRegion else region)
  {
    if startURL == "" then Failure("Missing startUrl parameter for IDC authentication")
    else Success((startURL, if region == "" then defaultRegion else region))
  }

  // ---------------------------------------------------------------------------------
  // Sessions and polling

  /** What `CreateTokenWithRegion` answers on one poll; `Granted` also carries what the
      profile and e-mail lookups then return. */
  datatype PollReply =
    | AuthorizationPending
    | SlowDown
    | PollError(message: string)
    | Granted(accessToken: string, refreshToken: string, expiresIn: int, profileArn: string, email: string)

  /** What wakes `pollForToken`: its context ending, or a tick at `now`. */
  datatype PollEvent = ContextDone | Tick(now: int, reply: PollReply)

  /** The session fields polling writes, the current interval, and whether it returned. */
  datatype PollRun = PollRun(status: AuthSessionStatus, error: string, completedAt: int, expiresAt: int,
                             tokenData: Option<KiroTokenData>, interval: int, stopped: bool)

  /** The session fields polling reads. */
  datatype DeviceSession = DeviceSession(authMethod: string, clientID: string, clientSecret: string,
                                         region: string, startURL: string)

  /** The first polling interval: the session's, but at least five seconds. */
  function FirstInterval(seconds: int): (d: int)
    ensures d >= PollIntervalSeconds * Second
    ensures seconds >= PollIntervalSeconds ==> d == seconds * Second
    ensures seconds < PollIntervalSeconds ==> d == PollIntervalSeconds * Second
  {
    if seconds * Second < PollIntervalSeconds * Second then PollIntervalSeconds * Second else seconds * Second
  }

  /** The session after a timeout: a pending one fails, any other is untouched. */
  function TimedOut(r: PollRun): (t: PollRun)
    ensures r.status == Pending ==> t.status == Failed && t.error == "Authentication timed out"
    ensures r.status != Pending ==> t.status == r.status && t.error == r.error
    ensures t.(status := r.status, error := r.error) == r
  {
    if r.status == Pending then r.(status := Failed, error := "Authentication timed out") else r
  }

  /** The credential a granted poll yields. */
  function GrantedToken(s: DeviceSession, reply: PollReply, expiresAt: int, formatTime: int -> string): KiroTokenData
    requires reply.Granted?
  {
    KiroTokenData(reply.accessToken, reply.refreshToken, reply.profileArn, formatTime(expiresAt),
                  s.authMethod, "AWS", s.clientID, s.clientSecret, reply.email, s.region, s.startURL)
  }

  /** One wake-up of the polling loop. */
  function PollStep(s: DeviceSession, r: PollRun, e: PollEvent, formatTime: int -> string): PollRun {
    match e
    case ContextDone => TimedOut(r).(stopped := true)
    case Tick(now, reply) =>
      match reply
      case AuthorizationPending => r
      case SlowDown => r.(interval := r.interval + 5 * Second)
      case PollError(message) => r.(status := Failed, error := message, completedAt := now, stopped := true)
      case Granted(_, _, expiresIn, _, _) =>
        var expiresAt := now + expiresIn * Second;
        r.(status := Succeeded, completedAt := now, expiresAt := expiresAt,
           tokenData := Some(GrantedToken(s, reply, expiresAt, formatTime)), stopped := true)
  }

  /** Polling through a sequence of wake-ups until it returns. */
  function Poll(s: DeviceSession, r: PollRun, events: seq<PollEvent>, formatTime: int -> string): PollRun
    decreases |events|
  {
    if events == [] || r.stopped then r else Poll(s, PollStep(s, r, events[0], formatTime), events[1..], formatTime)
  }

  /** The interval only grows, and stays at least five seconds. */
  lemma {:induction false} PollIntervalNeverShrinks(s: DeviceSession, r: PollRun, events: seq<PollEvent>,
                                                    formatTime: int -> string)
    ensures Poll(s, r, events, formatTime).interval >= r.interval
    decreases |events|
  {
    if events != [] && !r.stopped {
      PollIntervalNeverShrinks(s, PollStep(s, r, events[0], formatTime), events[1..], formatTime);
    }
  }

  /** A session that polls from pending has returned exactly when it is no longer
      pending, and a success always carries its credential. */
  lemma {:induction false} PollSettles(s: DeviceSession, r: PollRun, events: seq<PollEvent>, formatTime: int -> string)
    requires r.status == Pending && !r.stopped
    ensures var f := Poll(s, r, events, formatTime);
      (f.stopped <==> f.status != Pending)
      && (f.status == Succeeded ==> f.tokenData.Some? && f.tokenData.value.provider == "AWS"
                                    && f.tokenData.value.authMethod == s.authMethod)
    decreases |events|
  {
    if events != [] {
      var next := PollStep(s, r, events[0], formatTime);
      if !next.stopped {
        PollSettles(s, next, events[1..], formatTime);
      }
    }
  }

  /** `authorization_pending` and `slow_down` keep polling; only `slow_down` changes
      anything, adding five seconds to the interval. */
  lemma PendingAndSlowDownContinue(s: DeviceSession, r: PollRun, now: int, formatTime: int -> string)
    ensures PollStep(s, r, Tick(now, AuthorizationPending), formatTime) == r
    ensures PollStep(s, r, Tick(now, SlowDown), formatTime) == r.(interval := r.interval + 5 * Second)
  {
  }

  /** A timeout after the session finished leaves its outcome as it was. */
  lemma TimeoutKeepsFinishedSession(s: DeviceSession, r: PollRun, formatTime: int -> string)
    requires r.status != Pending
    ensures var t := PollStep(s, r, ContextDone, formatTime);
      t.status == r.status && t.error == r.error && t.tokenData == r.tokenData && t.completedAt == r.completedAt
  {
  }

  /** A `webAuthSession`, with the fields the handler's rules read and write. */
  class WebAuthSession {
    var expiresIn: int
    var interval: int
    var status: AuthSessionStatus
    var startedAt: int
    var completedAt: int
    var expiresAt: int
    var error: string
    var tokenData: Option<KiroTokenData>
    var device: DeviceSession

    /** A freshly started device-code session. */
    constructor (device: DeviceSession, expiresIn: int, interval: int, startedAt: int)
      ensures this.device == device && this.expiresIn == expiresIn && this.interval == interval
      ensures this.startedAt == startedAt && status == Pending && tokenData == None
      ensures completedAt == ZeroTime && expiresAt == ZeroTime && error == ""
    {
      this.device := device;
      this.expiresIn := expiresIn;
      this.interval := interval;
      this.startedAt := startedAt;
      status := Pending;
      completedAt := ZeroTime;
      expiresAt := ZeroTime;
      error := "";
      tokenData := None;
    }

    function Run(interval: int, stopped: bool): PollRun
      reads this
    {
      PollRun(status, error, completedAt, expiresAt, tokenData, interval, stopped)
    }

    /** The timeout handler of the social flow and of `pollForToken`. */
    method TimeOut()
      modifies this
      ensures Run(0, false) == TimedOut(old(Run(0, false)))
      ensures device == old(device) && startedAt == old(startedAt) && interval == old(interval)
      ensures expiresIn == old(expiresIn)
    {
      if status == Pending {
        status := Failed;
        error := "Authentication timed out";
      }
    }

    /** `pollForToken` over the wake-ups `events`: it returns the interval it ended with
        and whether it returned, leaving the session as `Poll` describes. */
    method PollForToken(events: seq<PollEvent>, formatTime: int -> string) returns (finalInterval: int, returned: bool)
      modifies this
      ensures Run(finalInterval, returned) == Poll(device, old(Run(FirstInterval(interval), false)), events, formatTime)
      ensures finalInterval >= PollIntervalSeconds * Second
      ensures device == old(device) && startedAt == old(startedAt) && interval == old(interval)
      ensures expiresIn == old(expiresIn)
    {
      var d := interval * Second;
      if d < PollIntervalSeconds * Second {
        d := PollIntervalSeconds * Second;
      }
      ghost var goal := Poll(device, Run(d, false), events, formatTime);
      var i := 0;
      while i < |events|
        invariant 0 <= i <= |events|
        invariant d >= PollIntervalSeconds * Second
        decreases |events| - i
        invariant Poll(device, Run(d, false), events[i..], formatTime) == goal
        invariant device == old(device) && startedAt == old(startedAt) && interval == old(interval)
        invariant expiresIn == old(expiresIn)
      {
        assert events[i..][1..] == events[i + 1..];
        match events[i] {
        case ContextDone =>
          TimeOut();
          return d, true;
        case Tick(now, reply) =>
          match reply
          case AuthorizationPending => {}
          case SlowDown =>
            d := d + 5 * Second;
          case PollError(message) =>
            status := Failed;
            error := message;
            completedAt := now;
            return d, true;
          case Granted(_, _, lifetime, _, _) =>
            var expiry := now + lifetime * Second;
            status := Succeeded;
            completedAt := now;
            expiresAt := expiry;
            tokenData := Some(GrantedToken(device, reply, expiry, formatTime));
            return d, true;
        }
        i := i + 1;
      }
      return d, false;
    }
  }

  /** The seconds `handleStatus` reports a pending session has left, clamped at zero. */
  function RemainingSeconds(expiresIn: int, elapsed: real): (r: int)
    ensures r >= 0
    ensures elapsed <= expiresIn as real ==> r == TruncReal(expiresIn as real - elapsed)
    ensures elapsed >= expiresIn as real ==> r == 0
    ensures elapsed >= 0.0 && expiresIn >= 0 ==> r <= expiresIn
  {
    var remaining := expiresIn as real - elapsed;
    TruncReal(if remaining < 0.0 then 0.0 else remaining)
  }

  /** A finished session is dropped half an hour after it completed. */
  predicate FinishedAndStale(s: WebAuthSession, now: int)
    reads s
  {
    s.status != Pending && now - s.completedAt > FinishedSessionRetention
  }

  /** A pending session is cancelled and dropped ten minutes after it started. */
  predicate PendingAndStale(s: WebAuthSession, now: int)
    reads s
  {
    s.status == Pending && now - s.startedAt > DefaultSessionExpiry
  }

  /** The JSON reply of `handleStatus`. */
  datatype StatusReply =
    | MissingState
    | SessionNotFound
    | PendingStatus(remainingSeconds: int)
    | SucceededStatus(completedAt: string, expiresAt: string)
    | FailedStatus(error: string, failedAt: string)

  class OAuthWebHandler {
    var sessions: map<string, WebAuthSession>

    constructor ()
      ensures sessions == map[]
    {
      sessions := map[];
    }

    /** `CleanupExpiredSessions` at `now`: it returns the sessions whose context it
        cancelled. */
    method CleanupExpiredSessions(now: int) returns (cancelled: set<string>)
      modifies this
      ensures sessions == map id | id in old(sessions) && !FinishedAndStale(old(sessions)[id], now)
                                   && !PendingAndStale(old(sessions)[id], now) :: old(sessions)[id]
      ensures cancelled == set id | id in old(sessions) && PendingAndStale(old(sessions)[id], now)
    {
      var all := sessions;
      var todo := sessions.Keys;
      cancelled := {};
      while todo != {}
        invariant todo <= all.Keys
        invariant sessions == map id | id in all && (id in todo || (!FinishedAndStale(all[id], now)
                                                     && !PendingAndStale(all[id], now))) :: all[id]
        invariant cancelled == set id | id in all && id !in todo && PendingAndStale(all[id], now)
        decreases todo
      {
        var id :| id in todo;
        var session := all[id];
        if session.status != Pending && now - session.completedAt > FinishedSessionRetention {
          sessions := sessions - {id};
        } else if session.status == Pending && now - session.startedAt > DefaultSessionExpiry {
          cancelled := cancelled + {id};
          sessions := sessions - {id};
        }
        todo := todo - {id};
      }
    }

    /** `handleStatus` for the `state` query parameter at `now`. */
    method HandleStatus(stateID: string, now: int, formatTime: int -> string) returns (reply: StatusReply)
      ensures stateID == "" ==> reply == MissingState
      ensures stateID != "" && stateID !in sessions ==> reply == SessionNotFound
      ensures stateID != "" && stateID in sessions ==>
        var s := sessions[stateID];
        match s.status
        case Pending => reply == PendingStatus(RemainingSeconds(s.expiresIn, Seconds(now - s.startedAt)))
        case Succeeded => reply == SucceededStatus(formatTime(s.completedAt), formatTime(s.expiresAt))
        case Failed => reply == FailedStatus(s.error, formatTime(s.completedAt))
    {
      if stateID == "" {
        return MissingState;
      }
      if stateID !in sessions {
        return SessionNotFound;
      }
      var session := sessions[stateID];
      match session.status
      case Pending =>
        var elapsed := Seconds(now - session.startedAt);
        var remaining := session.expiresIn as real - elapsed;
        if remaining < 0.0 {
          remaining := 0.0;
        }
        reply := PendingStatus(TruncReal(remaining));
      case Succeeded =>
        reply := SucceededStatus(formatTime(session.completedAt), formatTime(session.expiresAt));
      case Failed =>
        reply := FailedStatus(session.error, formatTime(session.completedAt));
    }
  }
}
