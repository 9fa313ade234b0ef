/** The Kiro model-list conversion of internal/registry/kiro_model_converter.go: model
    IDs from the Kiro API become `kiro-*` registry entries, get `-agentic` twins, and are
    merged with the static catalogue. A nil `*ModelInfo` in a list is `None`. */
module ModelConverter {
  import opened Wrappers
  import opened GoStrings

  const DefaultKiroContextLength: int := 200000
  const DefaultKiroMaxCompletionTokens: int := 64000
  const AgenticSuffix: string := "-agentic"
  const AgenticDescriptionSuffix: string := " (Agentic mode: chunked writes)"
  const DefaultAgenticDescription: string := "Optimized for coding agents with chunked writes"

  datatype KiroAPIModel = KiroAPIModel(modelID: string, modelName: string, description: string,
                                       rateMultiplier: real, rateUnit: string, maxInputTokens: int)

  datatype ThinkingSupport = ThinkingSupport(min: int, max: int, zeroAllowed: bool, dynamicAllowed: bool,
                                             levels: seq<string>)

  /** The `ModelInfo` fields the conversion writes. */
  datatype ModelInfo = ModelInfo(id: string, object: string, created: int, ownedBy: string, modelType: string,
                                 displayName: string, description: string, contextLength: int,
                                 maxCompletionTokens: int, thinking: Option<ThinkingSupport>)

  /** Every Kiro model thinks with a budget of 1024 to 32000 tokens, 0 and -1 allowed. */
  const DefaultKiroThinkingSupport: ThinkingSupport := ThinkingSupport(1024, 32000, true, true, [])

  // ---------------------------------------------------------------------------------
  // Single-model rules

  const KiroPrefix: string := "kiro-"
  const DisplayPrefix: string := "Kiro "

  /** `normalizeKiroModelID`: trimmed, dots turned into hyphens, `kiro-` prefixed. */
  function NormalizeKiroModelID(modelID: string): (r: string)
    ensures modelID == "" ==> r == ""
    ensures modelID != "" ==> HasPrefix(r, KiroPrefix) && '.' !in r && IsTrimmed(r)
  {
    if modelID == "" then ""
    else
      var normalized := ReplaceChar(TrimSpace(modelID), '.', '-');
      DotsReplacedInTrimmed(modelID);
      if HasPrefix(normalized, KiroPrefix) then normalized
      else
        PrefixedShape(normalized);
        KiroPrefix + normalized
  }

  lemma DotsReplacedInTrimmed(s: string)
    ensures var n := ReplaceChar(TrimSpace(s), '.', '-'); IsTrimmed(n) && '.' !in n
  {
    var trimmed := TrimSpace(s);
    var n := ReplaceChar(trimmed, '.', '-');
    TrimSpaceIsTrimmed(s);
    if |n| > 0 {
      assert !IsSpace('-');
      assert n[0] == '-' || n[0] == trimmed[0];
      assert n[|n| - 1] == '-' || n[|n| - 1] == trimmed[|trimmed| - 1];
    }
    forall i | 0 <= i < |n| ensures n[i] != '.' { }
  }

  lemma PrefixedShape(n: string)
    requires IsTrimmed(n) && '.' !in n
    ensures var r := KiroPrefix + n; HasPrefix(r, KiroPrefix) && '.' !in r && IsTrimmed(r)
  {
    var r := KiroPrefix + n;
    assert r[..|KiroPrefix|] == KiroPrefix;
    forall i | 0 <= i < |r| ensures r[i] != '.' {
      if i >= |KiroPrefix| { assert r[i] == n[i - |KiroPrefix|]; }
    }
    assert r[|r| - 1] == (if n == [] then '-' else n[|n| - 1]);
  }

  /** A normalised ID is its own normal form. */
  lemma NormalizeIdempotent(modelID: string)
    ensures NormalizeKiroModelID(NormalizeKiroModelID(modelID)) == NormalizeKiroModelID(modelID)
  {
    var r := NormalizeKiroModelID(modelID);
    if r != "" {
      TrimSpaceOfTrimmed(r);
      var again := ReplaceChar(r, '.', '-');
      assert again == r by {
        forall i | 0 <= i < |r| ensures again[i] == r[i] { }
      }
    }
  }

  /** An ID of blanks is not dropped: it normalises to the bare prefix. */
  lemma BlankIDBecomesBarePrefix()
    ensures NormalizeKiroModelID(" ") == KiroPrefix
  {
    assert SkipSpaceFrom(" ", 0) == 1;
  }

  function Capitalize(word: string): (r: string)
    ensures |r| == |word|
    ensures |word| > 0 ==> r[0] == UpperAscii(word[0]) && r[1..] == word[1..]
  {
    if |word| > 0 then [UpperAscii(word[0])] + word[1..] else word
  }

  function CapitalizeAll(words: seq<string>): (r: seq<string>)
    ensures |r| == |words| && forall i :: 0 <= i < |words| ==> r[i] == Capitalize(words[i])
  {
    seq(|words|, i requires 0 <= i < |words| => Capitalize(words[i]))
  }

  /** `generateKiroDisplayName`: "Kiro " and the API's name, or else the ID without its
      `kiro-` prefix, each hyphen-separated word capitalised, joined by blanks. */
  function DisplayName(modelName: string, normalizedID: string): string {
    if modelName != "" then DisplayPrefix + modelName
    else DisplayPrefix + Join(CapitalizeAll(Split(TrimPrefix(normalizedID, KiroPrefix), '-')), ' ')
  }

  /** Splitting a generated display name at blanks gives back the capitalised words of
      the ID, when the ID itself has no blank. */
  lemma DisplayNameWords(normalizedID: string)
    requires ' ' !in normalizedID
    ensures var name := DisplayName("", normalizedID);
      HasPrefix(name, DisplayPrefix)
      && Split(name[5..], ' ') == CapitalizeAll(Split(TrimPrefix(normalizedID, KiroPrefix), '-'))
  {
    var displayID := TrimPrefix(normalizedID, KiroPrefix);
    var words := CapitalizeAll(Split(displayID, '-'));
    assert ' ' !in displayID by {
      if HasPrefix(normalizedID, KiroPrefix) {
        forall i | 0 <= i < |displayID| ensures displayID[i] != ' ' {
          assert displayID[i] == normalizedID[i + 5];
        }
      }
    }
    SplitPiecesAvoid(displayID, '-', ' ');
    forall i | 0 <= i < |words| ensures ' ' !in words[i] {
      var w := Split(displayID, '-')[i];
      forall j | 0 <= j < |words[i]| ensures words[i][j] != ' ' {
        if j > 0 { assert words[i][j] == w[j]; } else { assert w[0] != ' ' && words[i][0] == UpperAscii(w[0]); }
      }
    }
    var name := DisplayName("", normalizedID);
    assert name[5..] == Join(words, ' ');
    SplitJoin(words, ' ');
  }

  /** A character absent from the input is absent from every piece of its split. */
  lemma {:induction false} SplitPiecesAvoid(s: string, sep: char, c: char)
    requires c !in s
    ensures forall i :: 0 <= i < |Split(s, sep)| ==> c !in Split(s, sep)[i]
    decreases |s|
  {
    if |s| > 0 {
      SplitPiecesAvoid(s[1..], sep, c);
      var rest := Split(s[1..], sep);
      assert c !in [s[0]] + rest[0];
    }
  }

  /** The display name of the Sonnet 4.5 model: words are split at `-` and capitalised. */
  lemma DisplayNameExample(words: seq<string>)
    requires words == ["claude", "sonnet", "4", "5"]
    ensures DisplayName("", KiroPrefix + Join(words, '-')) == DisplayPrefix + "Claude Sonnet 4 5"
  {
    var displayID := Join(words, '-');
    assert (KiroPrefix + displayID)[..|KiroPrefix|] == KiroPrefix;
    assert TrimPrefix(KiroPrefix + displayID, KiroPrefix) == displayID;
    SplitJoin(words, '-');
    var caps := CapitalizeAll(words);
    assert UpperAscii('c') == 'C' && UpperAscii('s') == 'S';
    assert caps[0] == "Claude" && caps[1] == "Sonnet" && caps[2] == "4" && caps[3] == "5";
    assert Join(caps[3..], ' ') == "5";
    assert Join(caps[2..], ' ') == "4 5";
    assert Join(caps[1..], ' ') == "Sonnet 4 5";
    assert Join(caps, ' ') == "Claude Sonnet 4 5";
  }

  /** `generateKiroDisplayName`, which capitalises the words of the ID in place. */
  method GenerateKiroDisplayName(modelName: string, normalizedID: string) returns (name: string)
    ensures name == DisplayName(modelName, normalizedID)
  {
    if modelName != "" {
      return DisplayPrefix + modelName;
    }
    var displayID := TrimPrefix(normalizedID, KiroPrefix);
    var words := Split(displayID, '-');
    ghost var original := words;
    var i := 0;
    while i < |words|
      invariant 0 <= i <= |words| == |original|
      invariant forall j :: 0 <= j < i ==> words[j] == Capitalize(original[j])
      invariant forall j :: i <= j < |words| ==> words[j] == original[j]
    {
      if |words[i]| > 0 {
        words := words[i := [UpperAscii(words[i][0])] + words[i][1..]];
      }
      i := i + 1;
    }
    assert words == CapitalizeAll(original);
    return DisplayPrefix + Join(words, ' ');
  }

  /** `generateAgenticDescription`. */
  function AgenticDescription(baseDescription: string): (r: string)
    ensures baseDescription == "" ==> r == DefaultAgenticDescription
    ensures baseDescription != "" ==> HasPrefix(r, baseDescription) && HasSuffix(r, AgenticDescriptionSuffix)
                                      && |r| == |baseDescription| + |AgenticDescriptionSuffix|
  {
    if baseDescription == "" then DefaultAgenticDescription
    else
      var r := baseDescription + AgenticDescriptionSuffix;
      assert r[..|baseDescription|] == baseDescription;
      assert r[|r| - |AgenticDescriptionSuffix|..] == AgenticDescriptionSuffix;
      r
  }

  /** `getContextLength`: the API's input limit when positive, else 200000. */
  function ContextLength(maxInputTokens: int): (n: int)
    ensures n > 0
    ensures maxInputTokens > 0 ==> n == maxInputTokens
    ensures maxInputTokens <= 0 ==> n == DefaultKiroContextLength
  {
    if maxInputTokens > 0 then maxInputTokens else DefaultKiroContextLength
  }

  /** `cloneThinkingSupport`: a copy field by field, equal to its source. */
  function CloneThinkingSupport(ts: Option<ThinkingSupport>): (r: Option<ThinkingSupport>)
    ensures r == ts
  {
    match ts
    case None => None
    case Some(t) =>
      var levels := if |t.levels| > 0 then seq(|t.levels|, i requires 0 <= i < |t.levels| => t.levels[i]) else [];
      assert levels == t.levels;
      Some(ThinkingSupport(t.min, t.max, t.zeroAllowed, t.dynamicAllowed, levels))
  }

  // ---------------------------------------------------------------------------------
  // ConvertKiroAPIModels

  predicate Convertible(km: Option<KiroAPIModel>) {
    km.Some? && km.value.modelID != ""
  }

  /** The registry entry for one API model created at Unix time `now`. */
  function ConvertModel(km: KiroAPIModel, now: int): (info: ModelInfo)
    ensures info.id == NormalizeKiroModelID(km.modelID) && info.contextLength > 0
    ensures info.maxCompletionTokens == DefaultKiroMaxCompletionTokens
    ensures info.thinking == Some(DefaultKiroThinkingSupport) && info.description == km.description
  {
    var id := NormalizeKiroModelID(km.modelID);
    ModelInfo(id, "model", now, "aws", "kiro", DisplayName(km.modelName, id), km.description,
              ContextLength(km.maxInputTokens), DefaultKiroMaxCompletionTokens,
              CloneThinkingSupport(Some(DefaultKiroThinkingSupport)))
  }

  /** The conversion of a whole list: nil and ID-less models are skipped, order is kept. */
  function Converted(kms: seq<Option<KiroAPIModel>>, now: int): seq<ModelInfo> {
    if kms == [] then []
    else
      var last := kms[|kms| - 1];
      Converted(kms[..|kms| - 1], now) + (if Convertible(last) then [ConvertModel(last.value, now)] else [])
  }

  /** A converted entry: a normalised `kiro-` ID, positive context, the default
      completion limit and thinking support. */
  predicate IsKiroEntry(info: ModelInfo) {
    HasPrefix(info.id, KiroPrefix) && '.' !in info.id && info.contextLength > 0
    && info.maxCompletionTokens == DefaultKiroMaxCompletionTokens && info.thinking == Some(DefaultKiroThinkingSupport)
  }

  /** The output is no longer than the input, and every entry is a Kiro entry. */
  lemma {:induction false} ConvertedShape(kms: seq<Option<KiroAPIModel>>, now: int)
    ensures |Converted(kms, now)| <= |kms|
    ensures forall i :: 0 <= i < |Converted(kms, now)| ==> IsKiroEntry(Converted(kms, now)[i])
  {
    if kms != [] {
      var init := kms[..|kms| - 1];
      ConvertedShape(init, now);
      var out := Converted(kms, now);
      forall i | 0 <= i < |out| ensures IsKiroEntry(out[i]) {
        if i < |Converted(init, now)| {
          assert out[i] == Converted(init, now)[i];
        }
      }
    }
  }

  method ConvertKiroAPIModels(kiroModels: seq<Option<KiroAPIModel>>, now: int) returns (result: seq<ModelInfo>)
    ensures result == Converted(kiroModels, now)
  {
    if |kiroModels| == 0 {
      return [];
    }
    result := [];
    var i := 0;
    while i < |kiroModels|
      invariant 0 <= i <= |kiroModels|
      invariant result == Converted(kiroModels[..i], now)
    {
      assert kiroModels[..i + 1][..i] == kiroModels[..i];
      var km := kiroModels[i];
      if km.Some? && km.value.modelID != "" {
        var normalizedID := NormalizeKiroModelID(km.value.modelID);
        var displayName := GenerateKiroDisplayName(km.value.modelName, normalizedID);
        var info := ModelInfo(normalizedID, "model", now, "aws", "kiro", displayName, km.value.description,
                              ContextLength(km.value.maxInputTokens), DefaultKiroMaxCompletionTokens,
                              CloneThinkingSupport(Some(DefaultKiroThinkingSupport)));
        result := result + [info];
      }
      i := i + 1;
    }
    assert kiroModels[..i] == kiroModels;
  }

  // ---------------------------------------------------------------------------------
  // GenerateAgenticVariants

  /** Models that get an `-agentic` twin: all but agentic ones and `kiro-auto`. */
  predicate HasAgenticTwin(m: ModelInfo) {
    !HasSuffix(m.id, AgenticSuffix) && m.id != "kiro-auto"
  }

  function AgenticVariant(m: ModelInfo): (v: ModelInfo)
    ensures HasPrefix(v.id, m.id) && HasSuffix(v.id, AgenticSuffix) && |v.id| == |m.id| + |AgenticSuffix|
    ensures !HasAgenticTwin(v)
    ensures v.displayName == m.displayName + " (Agentic)"
    ensures v.description == AgenticDescription(m.description)
    ensures v.(id := m.id, displayName := m.displayName, description := m.description) == m
  {
    var id := m.id + AgenticSuffix;
    assert id[|id| - |AgenticSuffix|..] == AgenticSuffix;
    assert id[..|m.id|] == m.id;
    m.(id := id, displayName := m.displayName + " (Agentic)", description := AgenticDescription(m.description),
       thinking := CloneThinkingSupport(m.thinking))
  }

  /** Every model, each directly followed by its twin when it has one. */
  function WithVariants(ms: seq<Option<ModelInfo>>): seq<ModelInfo> {
    if ms == [] then []
    else
      var last := ms[|ms| - 1];
      WithVariants(ms[..|ms| - 1])
        + (if last.None? then []
           else if HasAgenticTwin(last.value) then [last.value, AgenticVariant(last.value)]
           else [last.value])
  }

  function Present(ms: seq<Option<ModelInfo>>): seq<ModelInfo> {
    if ms == [] then []
    else Present(ms[..|ms| - 1]) + (if ms[|ms| - 1].Some? then [ms[|ms| - 1].value] else [])
  }

  function TwinCount(ms: seq<Option<ModelInfo>>): nat {
    if ms == [] then 0
    else
      var last := ms[|ms| - 1];
      TwinCount(ms[..|ms| - 1]) + (if last.Some? && HasAgenticTwin(last.value) then 1 else 0)
  }

  /** The output holds the present models and as many twins as there are twin-bearing
      models; every entry is a present model or a twin, hence at most twice as long. */
  lemma {:induction false} VariantsShape(ms: seq<Option<ModelInfo>>)
    ensures |WithVariants(ms)| == |Present(ms)| + TwinCount(ms)
    ensures |Present(ms)| <= |ms| && TwinCount(ms) <= |Present(ms)|
    ensures |WithVariants(ms)| <= 2 * |ms|
    ensures forall i :: 0 <= i < |WithVariants(ms)| ==>
      WithVariants(ms)[i] in Present(ms) || exists m :: m in Present(ms) && WithVariants(ms)[i] == AgenticVariant(m)
  {
    if ms != [] {
      var init := ms[..|ms| - 1];
      VariantsShape(init);
      var out := WithVariants(ms);
      forall i | 0 <= i < |out|
        ensures out[i] in Present(ms) || exists m :: m in Present(ms) && out[i] == AgenticVariant(m)
      {
        if i < |WithVariants(init)| {
          assert out[i] == WithVariants(init)[i];
          if out[i] !in Present(init) {
            var m :| m in Present(init) && out[i] == AgenticVariant(m);
            assert m in Present(ms);
          }
        } else {
          assert ms[|ms| - 1].value in Present(ms);
        }
      }
    }
  }

  /** A model's twin is placed right after it. */
  lemma TwinFollowsModel(ms: seq<Option<ModelInfo>>, m: ModelInfo)
    requires HasAgenticTwin(m)
    ensures WithVariants(ms + [Some(m)]) == WithVariants(ms) + [m, AgenticVariant(m)]
  {
    assert (ms + [Some(m)])[..|ms|] == ms;
  }

  method GenerateAgenticVariants(models: seq<Option<ModelInfo>>) returns (result: seq<ModelInfo>)
    ensures result == WithVariants(models)
  {
    if |models| == 0 {
      return [];
    }
    result := [];
    var i := 0;
    while i < |models|
      invariant 0 <= i <= |models|
      invariant result == WithVariants(models[..i])
    {
      assert models[..i + 1][..i] == models[..i];
      var model := models[i];
      if model.Some? {
        result := result + [model.value];
        if !HasSuffix(model.value.id, AgenticSuffix) && model.value.id != "kiro-auto" {
          var agenticModel := model.value.(id := model.value.id + AgenticSuffix,
                                           displayName := model.value.displayName + " (Agentic)",
                                           description := AgenticDescription(model.value.description),
                                           thinking := CloneThinkingSupport(model.value.thinking));
          result := result + [agenticModel];
        }
      }
      i := i + 1;
    }
    assert models[..i] == models;
  }

  // ---------------------------------------------------------------------------------
  // MergeWithStaticMetadata

  predicate HasID(m: Option<ModelInfo>) {
    m.Some? && m.value.id != ""
  }

  /** The IDs of the present models that have one. */
  function IDsOf(ms: seq<Option<ModelInfo>>): set<string> {
    set i | 0 <= i < |ms| && HasID(ms[i]) :: ms[i].value.id
  }

  lemma IDsOfSnoc(ms: seq<Option<ModelInfo>>)
    requires ms != []
    ensures IDsOf(ms) == IDsOf(ms[..|ms| - 1]) + (if HasID(ms[|ms| - 1]) then {ms[|ms| - 1].value.id} else {})
  {
    var init := ms[..|ms| - 1];
    assert forall i :: 0 <= i < |init| ==> init[i] == ms[i];
  }

  /** `staticMap`: the static models by ID, a later entry replacing an earlier one. */
  function StaticIndex(ss: seq<Option<ModelInfo>>): (index: map<string, ModelInfo>)
    ensures forall id :: id in index ==> index[id].id == id && id != ""
    ensures index.Keys == IDsOf(ss)
  {
    if ss == [] then map[]
    else
      var last := ss[|ss| - 1];
      var index := StaticIndex(ss[..|ss| - 1]);
      IDsOfSnoc(ss);
      if HasID(last) then index[last.value.id := last.value] else index
  }

  /** A merge in progress: the models so far and the IDs already taken. */
  datatype Merge = Merge(out: seq<ModelInfo>, seen: set<string>)

  /** The entry that stands for `m`: its static entry when `index` has one. */
  function Pick(m: ModelInfo, index: map<string, ModelInfo>): ModelInfo {
    if m.id in index then index[m.id] else m
  }

  /** Appending the entry for `m`, unless `m` is nil, ID-less or already seen. */
  function Admit(acc: Merge, m: Option<ModelInfo>, index: map<string, ModelInfo>): Merge {
    if !HasID(m) || m.value.id in acc.seen then acc
    else Merge(acc.out + [Pick(m.value, index)], acc.seen + {m.value.id})
  }

  /** The first pass: dynamic models, replaced by their static entry where there is one. */
  function MergeDynamic(ds: seq<Option<ModelInfo>>, index: map<string, ModelInfo>): Merge {
    if ds == [] then Merge([], {})
    else Admit(MergeDynamic(ds[..|ds| - 1], index), ds[|ds| - 1], index)
  }

  /** The second pass: static models whose ID has not been taken. */
  function MergeStatic(ss: seq<Option<ModelInfo>>, start: Merge): Merge {
    if ss == [] then start
    else Admit(MergeStatic(ss[..|ss| - 1], start), ss[|ss| - 1], map[])
  }

  function Merged(ds: seq<Option<ModelInfo>>, ss: seq<Option<ModelInfo>>): seq<ModelInfo> {
    MergeStatic(ss, MergeDynamic(ds, StaticIndex(ss))).out
  }

  /** The models so far carry pairwise distinct IDs, which are exactly the seen ones. */
  predicate Tracks(acc: Merge) {
    (forall i, j :: 0 <= i < j < |acc.out| ==> acc.out[i].id != acc.out[j].id)
    && acc.seen == set i | 0 <= i < |acc.out| :: acc.out[i].id
  }

  predicate KeyedByID(index: map<string, ModelInfo>) {
    forall id :: id in index ==> index[id].id == id
  }

  lemma AdmitTracks(acc: Merge, m: Option<ModelInfo>, index: map<string, ModelInfo>)
    requires Tracks(acc) && KeyedByID(index)
    ensures Tracks(Admit(acc, m, index))
    ensures Admit(acc, m, index).seen == acc.seen + (if HasID(m) then {m.value.id} else {})
  {
    if HasID(m) && m.value.id !in acc.seen {
      var chosen := Pick(m.value, index);
      var out := acc.out + [chosen];
      assert forall i :: 0 <= i < |acc.out| ==> out[i] == acc.out[i];
      assert (set i | 0 <= i < |out| :: out[i].id) == (set i | 0 <= i < |acc.out| :: acc.out[i].id) + {chosen.id} by {
        assert out[|acc.out|].id == chosen.id;
      }
    }
  }

  /** The IDs the dynamic pass takes: those of the dynamic models that have one. */
  lemma {:induction false} MergeDynamicTracks(ds: seq<Option<ModelInfo>>, index: map<string, ModelInfo>)
    requires KeyedByID(index)
    ensures Tracks(MergeDynamic(ds, index)) && MergeDynamic(ds, index).seen == IDsOf(ds)
  {
    if ds != [] {
      MergeDynamicTracks(ds[..|ds| - 1], index);
      AdmitTracks(MergeDynamic(ds[..|ds| - 1], index), ds[|ds| - 1], index);
      IDsOfSnoc(ds);
    }
  }

  lemma {:induction false} MergeStaticTracks(ss: seq<Option<ModelInfo>>, start: Merge)
    requires Tracks(start)
    ensures Tracks(MergeStatic(ss, start)) && MergeStatic(ss, start).seen == start.seen + IDsOf(ss)
  {
    if ss != [] {
      MergeStaticTracks(ss[..|ss| - 1], start);
      AdmitTracks(MergeStatic(ss[..|ss| - 1], start), ss[|ss| - 1], map[]);
      IDsOfSnoc(ss);
    }
  }

  /** The merged list has no duplicate IDs, and its IDs are those of all dynamic and
      static models. */
  lemma MergedIDs(ds: seq<Option<ModelInfo>>, ss: seq<Option<ModelInfo>>)
    ensures var r := Merged(ds, ss);
      (forall i, j :: 0 <= i < j < |r| ==> r[i].id != r[j].id)
      && (set i | 0 <= i < |r| :: r[i].id) == IDsOf(ds) + IDsOf(ss)
  {
    var index := StaticIndex(ss);
    MergeDynamicTracks(ds, index);
    MergeStaticTracks(ss, MergeDynamic(ds, index));
  }

  /** Every model the dynamic pass admits is the static entry for its ID when there is
      one, else a dynamic model itself. */
  lemma {:induction false} DynamicPrefersStatic(ds: seq<Option<ModelInfo>>, index: map<string, ModelInfo>)
    requires KeyedByID(index)
    ensures forall i :: 0 <= i < |MergeDynamic(ds, index).out| ==>
      var m := MergeDynamic(ds, index).out[i];
      (m.id in index ==> m == index[m.id]) && (m.id !in index ==> Some(m) in ds)
  {
    if ds != [] {
      var init := ds[..|ds| - 1];
      DynamicPrefersStatic(init, index);
      var before := MergeDynamic(init, index).out;
      var out := MergeDynamic(ds, index).out;
      forall i | 0 <= i < |out|
        ensures (out[i].id in index ==> out[i] == index[out[i].id]) && (out[i].id !in index ==> Some(out[i]) in ds)
      {
        if i < |before| {
          assert out[i] == before[i];
          assert ds == init + [ds[|ds| - 1]];
        } else {
          assert out[i] == Pick(ds[|ds| - 1].value, index);
        }
      }
    }
  }

  /** The static pass only appends. */
  lemma {:induction false} MergeStaticExtends(ss: seq<Option<ModelInfo>>, start: Merge)
    ensures |start.out| <= |MergeStatic(ss, start).out|
    ensures MergeStatic(ss, start).out[..|start.out|] == start.out
  {
    if ss != [] {
      MergeStaticExtends(ss[..|ss| - 1], start);
    }
  }

  /** In the merged list, every dynamic model with a static entry is that entry, and the
      dynamic models come first. */
  lemma MergedPrefersStatic(ds: seq<Option<ModelInfo>>, ss: seq<Option<ModelInfo>>, i: int)
    requires 0 <= i < |MergeDynamic(ds, StaticIndex(ss)).out|
    ensures i < |Merged(ds, ss)|
    ensures var m := Merged(ds, ss)[i];
      (m.id in StaticIndex(ss) ==> m == StaticIndex(ss)[m.id]) && (m.id !in StaticIndex(ss) ==> Some(m) in ds)
  {
    var index := StaticIndex(ss);
    var dyn := MergeDynamic(ds, index);
    DynamicPrefersStatic(ds, index);
    MergeStaticExtends(ss, dyn);
    assert Merged(ds, ss)[i] == Merged(ds, ss)[..|dyn.out|][i];
  }

  /** Static entries: a later duplicate ID wins where a dynamic model has that ID, but
      the earlier duplicate is appended where none has. */
  lemma DuplicateStaticIDs(a: ModelInfo, b: ModelInfo, d: ModelInfo)
    requires a.id == b.id == d.id != ""
    ensures Merged([Some(d)], [Some(a), Some(b)]) == [b]
    ensures Merged([], [Some(a), Some(b)]) == [a]
  {
    var ss := [Some(a), Some(b)];
    assert ss[..1] == [Some(a)] && [Some(a)][..0] == [] && [Some(d)][..0] == [];
    assert StaticIndex([Some(a)]) == map[a.id := a];
    var index := StaticIndex(ss);
    assert index == map[a.id := b];
    assert MergeDynamic([Some(d)], index) == Merge([b], {a.id});
    assert MergeStatic([Some(a)], Merge([b], {a.id})) == Merge([b], {a.id});
    assert MergeStatic([Some(a)], Merge([], {})) == Merge([a], {a.id});
  }

  /** `MergeWithStaticMetadata`. */
  method MergeWithStaticMetadata(dynamicModels: seq<Option<ModelInfo>>, staticModels: seq<Option<ModelInfo>>)
    returns (result: seq<ModelInfo>)
    ensures result == Merged(dynamicModels, staticModels)
  {
    if |dynamicModels| == 0 && |staticModels| == 0 {
      return [];
    }
    var staticMap := map[];
    var i := 0;
    while i < |staticModels|
      invariant 0 <= i <= |staticModels|
      invariant staticMap == StaticIndex(staticModels[..i])
    {
      assert staticModels[..i + 1][..i] == staticModels[..i];
      var sm := staticModels[i];
      if sm.Some? && sm.value.id != "" {
        staticMap := staticMap[sm.value.id := sm.value];
      }
      i := i + 1;
    }
    assert staticModels[..i] == staticModels;
    var acc := MergeOnce(dynamicModels, staticMap);
    result := MergeRest(staticModels, acc);
  }

  /** The dynamic loop of `MergeWithStaticMetadata`. */
  method MergeOnce(dynamicModels: seq<Option<ModelInfo>>, staticMap: map<string, ModelInfo>) returns (acc: Merge)
    ensures acc == MergeDynamic(dynamicModels, staticMap)
  {
    var seenIDs := {};
    var result := [];
    var i := 0;
    while i < |dynamicModels|
      invariant 0 <= i <= |dynamicModels|
      invariant Merge(result, seenIDs) == MergeDynamic(dynamicModels[..i], staticMap)
    {
      assert dynamicModels[..i + 1][..i] == dynamicModels[..i];
      var dm := dynamicModels[i];
      if dm.Some? && dm.value.id != "" && dm.value.id !in seenIDs {
        seenIDs := seenIDs + {dm.value.id};
        if dm.value.id in staticMap {
          result := result + [staticMap[dm.value.id]];
        } else {
          result := result + [dm.value];
        }
      }
      i := i + 1;
    }
    assert dynamicModels[..i] == dynamicModels;
    return Merge(result, seenIDs);
  }

  /** The static loop of `MergeWithStaticMetadata`. */
  method MergeRest(staticModels: seq<Option<ModelInfo>>, start: Merge) returns (result: seq<ModelInfo>)
    ensures result == MergeStatic(staticModels, start).out
  {
    var seenIDs := start.seen;
    result := start.out;
    var i := 0;
    while i < |staticModels|
      invariant 0 <= i <= |staticModels|
      invariant Merge(result, seenIDs) == MergeStatic(staticModels[..i], start)
    {
      assert staticModels[..i + 1][..i] == staticModels[..i];
      var sm := staticModels[i];
      if sm.Some? && sm.value.id != "" && sm.value.id !in seenIDs {
        seenIDs := seenIDs + {sm.value.id};
        result := result + [sm.value];
      }
      i := i + 1;
    }
    assert staticModels[..i] == staticModels;
  }
}
