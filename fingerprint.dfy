/** The device fingerprints of internal/auth/kiro/fingerprint.go: one randomly assembled
    fingerprint per credential, its HTTP headers and its two user-agent strings. Each
    `rng.Intn(len(catalog))` draw is an index supplied by the caller, SHA-256 is the
    parameter `sha256` and the `time.Now().UnixNano()` folded into the hash is `nanos`. */
module Fingerprint {
  import opened GoStrings

  const SdkVersions: seq<string> :=
    ["1.0.20", "1.0.21", "1.0.22", "1.0.23", "1.0.24", "1.0.25", "1.0.26", "1.0.27"]
  const OsTypes: seq<string> := ["darwin", "windows", "linux"]
  const DarwinVersions: seq<string> := ["14.0", "14.1", "14.2", "14.3", "14.4", "14.5", "15.0", "15.1"]
  const WindowsVersions: seq<string> :=
    ["10.0.19041", "10.0.19042", "10.0.19043", "10.0.19044", "10.0.22621", "10.0.22631"]
  const LinuxVersions: seq<string> := ["5.15.0", "6.1.0", "6.2.0", "6.5.0", "6.6.0", "6.8.0"]
  const NodeVersions: seq<string> :=
    ["18.17.0", "18.18.0", "18.19.0", "18.20.0", "20.9.0", "20.10.0", "20.11.0", "20.12.0",
     "20.13.0", "22.0.0", "22.1.0", "22.2.0", "22.3.0"]
  const KiroVersions: seq<string> :=
    ["0.3.0", "0.3.1", "0.4.0", "0.4.1", "0.5.0", "0.5.1", "0.6.0", "0.6.1", "0.7.0", "0.7.1",
     "0.8.0", "0.8.1"]
  const AcceptLanguages: seq<string> :=
    ["en-US,en;q=0.9", "en-GB,en;q=0.9", "zh-CN,zh;q=0.9,en;q=0.8", "zh-TW,zh;q=0.9,en;q=0.8",
     "ja-JP,ja;q=0.9,en;q=0.8", "ko-KR,ko;q=0.9,en;q=0.8", "de-DE,de;q=0.9,en;q=0.8",
     "fr-FR,fr;q=0.9,en;q=0.8"]
  const ScreenResolutions: seq<string> :=
    ["1920x1080", "2560x1440", "3840x2160", "1366x768", "1440x900", "1680x1050", "2560x1600",
     "3440x1440"]
  const ColorDepths: seq<int> := [24, 32]
  const HardwareConcurrencies: seq<int> := [4, 6, 8, 10, 12, 16, 20, 24, 32]
  const TimezoneOffsets: seq<int> := [-480, -420, -360, -300, -240, 0, 60, 120, 480, 540]

  /** `osVersions[osType]`; the map has no entry outside `OsTypes`. */
  function OsVersions(osType: string): seq<string> {
    if osType == "darwin" then DarwinVersions
    else if osType == "windows" then WindowsVersions
    else if osType == "linux" then LinuxVersions
    else []
  }

  datatype Fingerprint = Fingerprint(
    sdkVersion: string,
    osType: string,
    osVersion: string,
    nodeVersion: string,
    kiroVersion: string,
    kiroHash: string,
    acceptLanguage: string,
    screenResolution: string,
    colorDepth: int,
    hardwareConcurrency: int,
    timezoneOffset: int)

  /** The ten random indices, in the order `generateFingerprint` draws them. */
  datatype Draws = Draws(os: nat, osVersion: nat, kiro: nat, sdk: nat, node: nat,
                         language: nat, resolution: nat, colorDepth: nat, concurrency: nat,
                         timezone: nat)

  /** Each draw is an index into its catalog, as `Intn(len(catalog))` guarantees. */
  predicate DrawsInRange(d: Draws) {
    d.os < |OsTypes| && d.osVersion < |OsVersions(OsTypes[d.os])| && d.kiro < |KiroVersions|
    && d.sdk < |SdkVersions| && d.node < |NodeVersions| && d.language < |AcceptLanguages|
    && d.resolution < |ScreenResolutions| && d.colorDepth < |ColorDepths|
    && d.concurrency < |HardwareConcurrencies| && d.timezone < |TimezoneOffsets|
  }

  /** SHA-256 yields 32 bytes. */
  ghost predicate IsDigest(sha256: string -> seq<Byte>) {
    forall data :: |sha256(data)| == 32
  }

  /** Every field comes from its catalog, the OS version from the one of the OS type, and
      the hash is 64 lowercase hex digits. */
  predicate WellFormed(fp: Fingerprint) {
    fp.sdkVersion in SdkVersions && fp.osType in OsTypes && fp.osVersion in OsVersions(fp.osType)
    && fp.nodeVersion in NodeVersions && fp.kiroVersion in KiroVersions
    && fp.acceptLanguage in AcceptLanguages && fp.screenResolution in ScreenResolutions
    && fp.colorDepth in ColorDepths && fp.hardwareConcurrency in HardwareConcurrencies
    && fp.timezoneOffset in TimezoneOffsets
    && |fp.kiroHash| == 64 && (forall i :: 0 <= i < |fp.kiroHash| ==> IsLowerHexDigit(fp.kiroHash[i]))
  }

  /** `generateKiroHash`: the hex SHA-256 of "tokenKey:kiroVersion:osType:nanos". */
  function GenerateKiroHash(tokenKey: string, kiroVersion: string, osType: string, nanos: int,
                            sha256: string -> seq<Byte>): (h: string)
    requires IsDigest(sha256)
    ensures |h| == 64 && forall i :: 0 <= i < |h| ==> IsLowerHexDigit(h[i])
  {
    HexEncode(sha256(tokenKey + ":" + kiroVersion + ":" + osType + ":" + IntToDecimal(nanos)))
  }

  /** `generateFingerprint`. */
  function GenerateFingerprint(tokenKey: string, d: Draws, nanos: int, sha256: string -> seq<Byte>): (fp: Fingerprint)
    requires DrawsInRange(d) && IsDigest(sha256)
    ensures WellFormed(fp)
    ensures fp.osType == OsTypes[d.os] && fp.osVersion == OsVersions(fp.osType)[d.osVersion]
    ensures fp.kiroHash == GenerateKiroHash(tokenKey, fp.kiroVersion, fp.osType, nanos, sha256)
  {
    var osType := OsTypes[d.os];
    var kiroVersion := KiroVersions[d.kiro];
    Fingerprint(SdkVersions[d.sdk], osType, OsVersions(osType)[d.osVersion], NodeVersions[d.node],
                kiroVersion, GenerateKiroHash(tokenKey, kiroVersion, osType, nanos, sha256),
                AcceptLanguages[d.language], ScreenResolutions[d.resolution],
                ColorDepths[d.colorDepth], HardwareConcurrencies[d.concurrency],
                TimezoneOffsets[d.timezone])
  }

  /** The map and the returned fingerprint after `GetFingerprint(tokenKey)`, where `generated`
      is what `generateFingerprint` would produce. */
  function GetOrCreate(fps: map<string, Fingerprint>, tokenKey: string, generated: Fingerprint):
    (r: (map<string, Fingerprint>, Fingerprint))
    ensures tokenKey in r.0 && r.0[tokenKey] == r.1
    ensures tokenKey in fps ==> r.0 == fps && r.1 == fps[tokenKey]
    ensures tokenKey !in fps ==> r.1 == generated && |r.0| == |fps| + 1
    ensures forall k :: k != tokenKey ==> (k in r.0 <==> k in fps)
    ensures forall k :: k != tokenKey && k in fps ==> r.0[k] == fps[k]
  {
    if tokenKey in fps then (fps, fps[tokenKey]) else (fps[tokenKey := generated], generated)
  }

  /** A second `GetFingerprint` for the same key returns the stored fingerprint and adds
      nothing, whatever it would have drawn. */
  lemma GetFingerprintIdempotent(fps: map<string, Fingerprint>, tokenKey: string,
                                 generated1: Fingerprint, generated2: Fingerprint)
    ensures var (fps1, fp1) := GetOrCreate(fps, tokenKey, generated1);
      GetOrCreate(fps1, tokenKey, generated2) == (fps1, fp1)
  {
  }

  class FingerprintManager {
    var fingerprints: map<string, Fingerprint>

    ghost predicate Valid()
      reads this
    {
      forall k :: k in fingerprints ==> WellFormed(fingerprints[k])
    }

    /** `NewFingerprintManager`; the random source is replaced by the caller's draws. */
    constructor ()
      ensures Valid() && fingerprints == map[]
    {
      fingerprints := map[];
    }

    method GetFingerprint(tokenKey: string, d: Draws, nanos: int, sha256: string -> seq<Byte>)
      returns (fp: Fingerprint)
      requires Valid() && DrawsInRange(d) && IsDigest(sha256)
      modifies this
      ensures Valid() && WellFormed(fp)
      ensures (fingerprints, fp) == GetOrCreate(old(fingerprints), tokenKey, GenerateFingerprint(tokenKey, d, nanos, sha256))
    {
      if tokenKey in fingerprints {
        return fingerprints[tokenKey];
      }
      fp := GenerateFingerprint(tokenKey, d, nanos, sha256);
      fingerprints := fingerprints[tokenKey := fp];
    }

    method RemoveFingerprint(tokenKey: string)
      requires Valid()
      modifies this
      ensures Valid()
      ensures fingerprints == old(fingerprints) - {tokenKey}
    {
      fingerprints := fingerprints - {tokenKey};
    }

    method Count() returns (n: int)
      ensures n == |fingerprints|
    {
      n := |fingerprints|;
    }
  }

  /** Removing a key leaves every other key's fingerprint, and removing an absent key
      changes nothing, so the count drops by one exactly when the key was present. */
  lemma RemoveFingerprintEffect(fps: map<string, Fingerprint>, tokenKey: string)
    ensures tokenKey !in fps ==> fps - {tokenKey} == fps
    ensures tokenKey in fps ==> |fps - {tokenKey}| == |fps| - 1
    ensures forall k :: k != tokenKey && k in fps ==> k in fps - {tokenKey} && (fps - {tokenKey})[k] == fps[k]
  {
    if tokenKey in fps {
      assert (fps - {tokenKey}).Keys == fps.Keys - {tokenKey};
    }
  }

  /** `textproto.CanonicalMIMEHeaderKey` for the keys used here: the first letter and
      every letter after a '-' in upper case, all other letters in lower case. */
  function CanonicalKey(key: string): (c: string)
    ensures |c| == |key|
    ensures forall i :: 0 <= i < |key| ==>
      c[i] == (if i == 0 || key[i - 1] == '-' then UpperAscii(key[i]) else LowerAscii(key[i]))
  {
    seq(|key|, i requires 0 <= i < |key| =>
      if i == 0 || key[i - 1] == '-' then UpperAscii(key[i]) else LowerAscii(key[i]))
  }

  /** An `http.Header`: canonical key to values. */
  class Header {
    var values: map<string, seq<string>>

    constructor ()
      ensures values == map[]
    {
      values := map[];
    }

    /** `Header.Get`: the first value under the canonical key, or "". */
    function Get(key: string): string
      reads this
    {
      var k := CanonicalKey(key);
      if k in values && |values[k]| > 0 then values[k][0] else ""
    }

    /** `Header.Set`: replaces the values under the canonical key by the one value. */
    method Set(key: string, value: string)
      modifies this
      ensures values == old(values)[CanonicalKey(key) := [value]]
    {
      values := values[CanonicalKey(key) := [value]];
    }
  }

  /** The header names `ApplyToRequest` sets, as written there, and the values it puts
      under them. */
  const HeaderNames: seq<string> :=
    ["X-Kiro-SDK-Version", "X-Kiro-OS-Type", "X-Kiro-OS-Version", "X-Kiro-Node-Version",
     "X-Kiro-Version", "X-Kiro-Hash", "Accept-Language", "X-Screen-Resolution", "X-Color-Depth",
     "X-Hardware-Concurrency", "X-Timezone-Offset"]

  function HeaderValues(fp: Fingerprint): (vs: seq<string>)
    ensures |vs| == |HeaderNames|
  {
    [fp.sdkVersion, fp.osType, fp.osVersion, fp.nodeVersion, fp.kiroVersion, fp.kiroHash,
     fp.acceptLanguage, fp.screenResolution, IntToDecimal(fp.colorDepth),
     IntToDecimal(fp.hardwareConcurrency), IntToDecimal(fp.timezoneOffset)]
  }

  /** Header map `m` after setting names[..n] to vs[..n] in order. */
  function SetAll(m: map<string, seq<string>>, names: seq<string>, vs: seq<string>): map<string, seq<string>>
    requires |names| == |vs|
    decreases |names|
  {
    if names == [] then m
    else SetAll(m, names[..|names| - 1], vs[..|vs| - 1])[CanonicalKey(names[|names| - 1]) := [vs[|vs| - 1]]]
  }

  lemma SetAllSnoc(m: map<string, seq<string>>, names: seq<string>, vs: seq<string>, name: string, v: string)
    requires |names| == |vs|
    ensures SetAll(m, names + [name], vs + [v]) == SetAll(m, names, vs)[CanonicalKey(name) := [v]]
  {
    assert (names + [name])[..|names|] == names;
    assert (vs + [v])[..|vs|] == vs;
  }

  /** `ApplyToRequest`: eleven `Header.Set` calls, in order. */
  method ApplyToRequest(fp: Fingerprint, h: Header)
    modifies h
    ensures h.values == SetAll(old(h.values), HeaderNames, HeaderValues(fp))
  {
    ghost var m0, ns, vs := h.values, [], [];
    h.Set("X-Kiro-SDK-Version", fp.sdkVersion);
    SetAllSnoc(m0, ns, vs, "X-Kiro-SDK-Version", fp.sdkVersion);
    ns, vs := ns + ["X-Kiro-SDK-Version"], vs + [fp.sdkVersion];
    h.Set("X-Kiro-OS-Type", fp.osType);
    SetAllSnoc(m0, ns, vs, "X-Kiro-OS-Type", fp.osType);
    ns, vs := ns + ["X-Kiro-OS-Type"], vs + [fp.osType];
    h.Set("X-Kiro-OS-Version", fp.osVersion);
    SetAllSnoc(m0, ns, vs, "X-Kiro-OS-Version", fp.osVersion);
    ns, vs := ns + ["X-Kiro-OS-Version"], vs + [fp.osVersion];
    h.Set("X-Kiro-Node-Version", fp.nodeVersion);
    SetAllSnoc(m0, ns, vs, "X-Kiro-Node-Version", fp.nodeVersion);
    ns, vs := ns + ["X-Kiro-Node-Version"], vs + [fp.nodeVersion];
    h.Set("X-Kiro-Version", fp.kiroVersion);
    SetAllSnoc(m0, ns, vs, "X-Kiro-Version", fp.kiroVersion);
    ns, vs := ns + ["X-Kiro-Version"], vs + [fp.kiroVersion];
    h.Set("X-Kiro-Hash", fp.kiroHash);
    SetAllSnoc(m0, ns, vs, "X-Kiro-Hash", fp.kiroHash);
    ns, vs := ns + ["X-Kiro-Hash"], vs + [fp.kiroHash];
    h.Set("Accept-Language", fp.acceptLanguage);
    SetAllSnoc(m0, ns, vs, "Accept-Language", fp.acceptLanguage);
    ns, vs := ns + ["Accept-Language"], vs + [fp.acceptLanguage];
    h.Set("X-Screen-Resolution", fp.screenResolution);
    SetAllSnoc(m0, ns, vs, "X-Screen-Resolution", fp.screenResolution);
    ns, vs := ns + ["X-Screen-Resolution"], vs + [fp.screenResolution];
    h.Set("X-Color-Depth", IntToDecimal(fp.colorDepth));
    SetAllSnoc(m0, ns, vs, "X-Color-Depth", IntToDecimal(fp.colorDepth));
    ns, vs := ns + ["X-Color-Depth"], vs + [IntToDecimal(fp.colorDepth)];
    h.Set("X-Hardware-Concurrency", IntToDecimal(fp.hardwareConcurrency));
    SetAllSnoc(m0, ns, vs, "X-Hardware-Concurrency", IntToDecimal(fp.hardwareConcurrency));
    ns, vs := ns + ["X-Hardware-Concurrency"], vs + [IntToDecimal(fp.hardwareConcurrency)];
    h.Set("X-Timezone-Offset", IntToDecimal(fp.timezoneOffset));
    SetAllSnoc(m0, ns, vs, "X-Timezone-Offset", IntToDecimal(fp.timezoneOffset));
    ns, vs := ns + ["X-Timezone-Offset"], vs + [IntToDecimal(fp.timezoneOffset)];
    assert ns == HeaderNames && vs == HeaderValues(fp);
  }

  /** Lower-casing a canonical key gives the lower-cased name, so names that differ other
      than in case stay different after canonicalisation. */
  lemma CanonicalKeyLower(key: string, i: int)
    requires 0 <= i < |key|
    ensures LowerAscii(CanonicalKey(key)[i]) == LowerAscii(key[i])
  {
  }

  lemma HeaderNamesCanonicallyDistinct()
    ensures forall i, j :: 0 <= i < j < |HeaderNames| ==> CanonicalKey(HeaderNames[i]) != CanonicalKey(HeaderNames[j])
  {
    var c0 := CanonicalKey(HeaderNames[1]);
    var c1 := CanonicalKey(HeaderNames[4]);
    CanonicalKeyLower(HeaderNames[1], 7);
    CanonicalKeyLower(HeaderNames[4], 7);
    assert c0[7] != c1[7];
    var c2 := CanonicalKey(HeaderNames[2]);
    var c3 := CanonicalKey(HeaderNames[10]);
    CanonicalKeyLower(HeaderNames[2], 2);
    CanonicalKeyLower(HeaderNames[10], 2);
    assert c2[2] != c3[2];
    var c4 := CanonicalKey(HeaderNames[3]);
    var c5 := CanonicalKey(HeaderNames[7]);
    CanonicalKeyLower(HeaderNames[3], 2);
    CanonicalKeyLower(HeaderNames[7], 2);
    assert c4[2] != c5[2];
  }

  /** The value set for the k-th of pairwise distinct keys is the one read back. */
  lemma {:induction false} SetAllReadsBack(m: map<string, seq<string>>, names: seq<string>, vs: seq<string>, k: int)
    requires |names| == |vs| && 0 <= k < |names|
    requires forall i, j :: 0 <= i < j < |names| ==> CanonicalKey(names[i]) != CanonicalKey(names[j])
    ensures CanonicalKey(names[k]) in SetAll(m, names, vs)
    ensures SetAll(m, names, vs)[CanonicalKey(names[k])] == [vs[k]]
    decreases |names|
  {
    if k < |names| - 1 {
      SetAllReadsBack(m, names[..|names| - 1], vs[..|vs| - 1], k);
    }
  }

  /** After `ApplyToRequest`, `Header.Get` of each of the eleven names gives the
      fingerprint's field, integers in decimal. */
  lemma ApplyToRequestReadsBack(m: map<string, seq<string>>, fp: Fingerprint, k: int)
    requires 0 <= k < |HeaderNames|
    ensures var c := CanonicalKey(HeaderNames[k]);
      c in SetAll(m, HeaderNames, HeaderValues(fp))
      && SetAll(m, HeaderNames, HeaderValues(fp))[c] == [HeaderValues(fp)[k]]
  {
    HeaderNamesCanonicallyDistinct();
    SetAllReadsBack(m, HeaderNames, HeaderValues(fp), k);
  }

  /** The space-separated products of `BuildUserAgent`'s template. */
  function UserAgentProductList(fp: Fingerprint): seq<string> {
    ["aws-sdk-js/" + fp.sdkVersion, "ua/2.1", "os/" + fp.osType + "#" + fp.osVersion, "lang/js",
     "md/nodejs#" + fp.nodeVersion, "api/codewhispererstreaming#" + fp.sdkVersion, "m/E",
     "KiroIDE-" + fp.kiroVersion + "-" + fp.kiroHash]
  }

  /** The space-separated products of `BuildAmzUserAgent`'s template. */
  function AmzUserAgentProductList(fp: Fingerprint): seq<string> {
    ["aws-sdk-js/" + fp.sdkVersion, "KiroIDE-" + fp.kiroVersion + "-" + fp.kiroHash]
  }

  /** `BuildUserAgent`: "aws-sdk-js/{sdk} ua/2.1 os/{os}#{osVersion} lang/js
      md/nodejs#{node} api/codewhispererstreaming#{sdk} m/E KiroIDE-{kiro}-{hash}". */
  function BuildUserAgent(fp: Fingerprint): string {
    Join(UserAgentProductList(fp), ' ')
  }

  /** `BuildAmzUserAgent`: "aws-sdk-js/{sdk} KiroIDE-{kiro}-{hash}". */
  function BuildAmzUserAgent(fp: Fingerprint): string {
    Join(AmzUserAgentProductList(fp), ' ')
  }

  predicate NoSpaces(s: string) {
    ' ' !in s
  }

  predicate FieldsWithoutSpaces(fp: Fingerprint) {
    NoSpaces(fp.sdkVersion) && NoSpaces(fp.osType) && NoSpaces(fp.osVersion)
    && NoSpaces(fp.nodeVersion) && NoSpaces(fp.kiroVersion) && NoSpaces(fp.kiroHash)
  }

  /** Both user agents split at spaces into exactly their template's products, so each
      field can be read back from them; they share the first and the last product. */
  lemma UserAgentProducts(fp: Fingerprint)
    requires FieldsWithoutSpaces(fp)
    ensures Split(BuildUserAgent(fp), ' ') == UserAgentProductList(fp)
    ensures Split(BuildAmzUserAgent(fp), ' ') == AmzUserAgentProductList(fp)
    ensures UserAgentProductList(fp)[0] == AmzUserAgentProductList(fp)[0]
    ensures UserAgentProductList(fp)[7] == AmzUserAgentProductList(fp)[1]
  {
    NoSpaceConcat("aws-sdk-js/", fp.sdkVersion);
    NoSpaceConcat3("os/", fp.osType, "#");
    NoSpaceConcat("os/" + fp.osType + "#", fp.osVersion);
    NoSpaceConcat("md/nodejs#", fp.nodeVersion);
    NoSpaceConcat("api/codewhispererstreaming#", fp.sdkVersion);
    NoSpaceConcat3("KiroIDE-", fp.kiroVersion, "-");
    NoSpaceConcat("KiroIDE-" + fp.kiroVersion + "-", fp.kiroHash);
    var ws := UserAgentProductList(fp);
    assert forall i :: 0 <= i < |ws| ==> ' ' !in ws[i];
    SplitJoin(ws, ' ');
    SplitJoin(AmzUserAgentProductList(fp), ' ');
  }

  lemma NoSpaceConcat(a: string, b: string)
    requires NoSpaces(a) && NoSpaces(b)
    ensures NoSpaces(a + b)
  {
    assert forall i :: 0 <= i < |a + b| ==> (a + b)[i] == (if i < |a| then a[i] else b[i - |a|]);
  }

  lemma NoSpaceConcat3(a: string, b: string, c: string)
    requires NoSpaces(a) && NoSpaces(b) && NoSpaces(c)
    ensures NoSpaces(a + b + c)
  {
    NoSpaceConcat(a, b);
    NoSpaceConcat(a + b, c);
  }

  lemma CatalogsHaveNoSpaces()
    ensures forall v :: v in SdkVersions ==> NoSpaces(v)
    ensures forall v :: v in OsTypes ==> NoSpaces(v)
    ensures forall v :: v in DarwinVersions ==> NoSpaces(v)
    ensures forall v :: v in WindowsVersions ==> NoSpaces(v)
    ensures forall v :: v in LinuxVersions ==> NoSpaces(v)
    ensures forall v :: v in NodeVersions ==> NoSpaces(v)
    ensures forall v :: v in KiroVersions ==> NoSpaces(v)
  {
  }

  /** Generated fingerprints satisfy the premise of `UserAgentProducts`. */
  lemma WellFormedHasNoSpaces(fp: Fingerprint)
    requires WellFormed(fp)
    ensures FieldsWithoutSpaces(fp)
  {
    CatalogsHaveNoSpaces();
    assert fp.osVersion in DarwinVersions || fp.osVersion in WindowsVersions || fp.osVersion in LinuxVersions;
    assert forall i :: 0 <= i < |fp.kiroHash| ==> fp.kiroHash[i] != ' ';
  }
}
