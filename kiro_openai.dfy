/** The string-level helpers of internal/translator/kiro/openai/kiro_openai.go: the
    splitting of thinking blocks out of assistant text, the parsing of one Claude
    server-sent event, the framing at the top of the stream conversion and the filter
    that turns OpenAI tool declarations into Kiro tool specifications. */
module KiroOpenAI {
  import opened Wrappers
  import opened GoStrings

  const EventPrefix: string := "event:"
  const DataPrefix: string := "data:"
  const ToolDescriptionPrefix: string := "Tool: "

  /** `strings.Index(s, [c])` for a character that `a` does not contain. */
  lemma IndexOfFirst(a: string, c: char, b: string)
    requires c !in a
    ensures IndexOf(a + [c] + b, [c]) == |a|
  {
    var s := a + [c] + b;
    assert OccursAt(s, [c], |a|) by { assert s[|a|..|a| + 1] == [c]; }
    IndexOfIsFirst(s, [c]);
    forall j | 0 <= j < |a| ensures !OccursAt(s, [c], j) {
      assert s[j..j + 1][0] == a[j];
    }
  }

  // ---------------------------------------------------------------------------------
  // ExtractThinkingFromContent

  /** The text outside thinking blocks, the text inside them, and whether a block was
      opened. */
  datatype Extraction = Extraction(cleaned: string, thinking: string, hasThinking: bool)

  /** The loop of `ExtractThinkingFromContent` from `rest` on: text up to the next start
      tag is kept, text up to the matching end tag is thinking, and an unclosed block runs
      to the end. Nothing is invented: the two texts are shorter than the input by at
      least one start tag when a block is found. */
  function Scan(rest: string, startTag: string, endTag: string): (x: Extraction)
    requires |startTag| > 0
    ensures |x.cleaned| + |x.thinking| + (if x.hasThinking then |startTag| else 0) <= |rest|
    decreases |rest|
  {
    if |rest| == 0 then Extraction("", "", false)
    else
      var i := IndexOf(rest, startTag);
      if i == -1 then Extraction(rest, "", false)
      else
        var after := rest[i + |startTag|..];
        var j := IndexOf(after, endTag);
        if j == -1 then Extraction(rest[..i], after, true)
        else
          var x := Scan(after[j + |endTag|..], startTag, endTag);
          assert |after[j + |endTag|..]| <= |after| - j;
          Extraction(rest[..i] + x.cleaned, after[..j] + x.thinking, true)
  }

  /** `ExtractThinkingFromContent`, its two texts trimmed; content without a start tag is
      returned as it is. */
  function ExtractThinking(content: string, startTag: string, endTag: string): (x: Extraction)
    requires |startTag| > 0
    ensures !Contains(content, startTag) ==> x == Extraction(content, "", false)
    ensures Contains(content, startTag) ==> x.hasThinking && IsTrimmed(x.cleaned) && IsTrimmed(x.thinking)
  {
    if !Contains(content, startTag) then Extraction(content, "", false)
    else
      var x := Scan(content, startTag, endTag);
      TrimSpaceIsTrimmed(x.cleaned);
      TrimSpaceIsTrimmed(x.thinking);
      Extraction(TrimSpace(x.cleaned), TrimSpace(x.thinking), true)
  }

  /** One step of the scan over a start tag after `a` and an end tag after `b`. */
  lemma ScanBlockStep(a: string, b: string, c: string, startTag: string, endTag: string)
    requires |startTag| > 0
    requires IndexOf(a + startTag + (b + endTag + c), startTag) == |a|
    requires IndexOf(b + endTag + c, endTag) == |b|
    ensures var x := Scan(c, startTag, endTag);
      Scan(a + startTag + (b + endTag + c), startTag, endTag) == Extraction(a + x.cleaned, b + x.thinking, true)
  {
    var after := b + endTag + c;
    var content := a + startTag + after;
    assert content[..|a|] == a;
    assert content[|a| + |startTag|..] == after;
    assert after[..|b|] == b;
    assert after[|b| + |endTag|..] == c;
  }

  /** One well-formed block: text `a` before the first start tag, thinking `b` up to the
      first end tag, and text `c` without a start tag after it. */
  lemma SingleBlock(a: string, b: string, c: string, startTag: string, endTag: string)
    requires |startTag| > 0
    requires IndexOf(a + startTag + (b + endTag + c), startTag) == |a|
    requires IndexOf(b + endTag + c, endTag) == |b|
    requires IndexOf(c, startTag) == -1
    ensures ExtractThinking(a + startTag + (b + endTag + c), startTag, endTag)
            == Extraction(TrimSpace(a + c), TrimSpace(b), true)
  {
    ScanBlockStep(a, b, c, startTag, endTag);
    assert Scan(c, startTag, endTag).cleaned == c && Scan(c, startTag, endTag).thinking == "";
    assert b + "" == b;
  }

  /** An unclosed block: everything after the first start tag is thinking. */
  lemma UnclosedBlock(a: string, b: string, startTag: string, endTag: string)
    requires |startTag| > 0
    requires IndexOf(a + startTag + b, startTag) == |a| && IndexOf(b, endTag) == -1
    ensures ExtractThinking(a + startTag + b, startTag, endTag) == Extraction(TrimSpace(a), TrimSpace(b), true)
  {
    var content := a + startTag + b;
    assert content[..|a|] == a;
    assert content[|a| + |startTag|..] == b;
  }

  /** The builders' contents `done` followed by the extraction `x` of what remains. */
  function Then(done: Extraction, x: Extraction): Extraction {
    Extraction(done.cleaned + x.cleaned, done.thinking + x.thinking, done.hasThinking || x.hasThinking)
  }

  /** A string is split around an occurrence of `t`. */
  lemma SplitAround(s: string, t: string, k: int)
    requires OccursAt(s, t, k)
    ensures s == s[..k] + t + s[k + |t|..]
  {
    assert s == s[..k] + s[k..k + |t|] + s[k + |t|..];
  }

  /** The scan over text with a start tag at `i` and an end tag at `j` after it. */
  lemma ScanClosed(rest: string, startTag: string, endTag: string, i: int, j: int)
    requires |startTag| > 0 && |rest| > 0
    requires i == IndexOf(rest, startTag) >= 0 && j == IndexOf(rest[i + |startTag|..], endTag) >= 0
    ensures Scan(rest, startTag, endTag)
            == Then(Extraction(rest[..i], rest[i + |startTag|..][..j], true),
                    Scan(rest[i + |startTag|..][j + |endTag|..], startTag, endTag))
  {
    var after := rest[i + |startTag|..];
    IndexOfIsFirst(rest, startTag);
    IndexOfIsFirst(after, endTag);
    SplitAround(rest, startTag, i);
    SplitAround(after, endTag, j);
    ScanBlockStep(rest[..i], after[..j], after[j + |endTag|..], startTag, endTag);
  }

  /** The scan over text without a start tag. */
  lemma ScanNoStartTag(rest: string, startTag: string, endTag: string)
    requires |startTag| > 0 && IndexOf(rest, startTag) == -1
    ensures Scan(rest, startTag, endTag) == Extraction(rest, "", false)
  {
  }

  /** The scan over text with a start tag at `i` that is never closed. */
  lemma ScanUnclosed(rest: string, startTag: string, endTag: string, i: int)
    requires |startTag| > 0 && |rest| > 0 && i == IndexOf(rest, startTag) >= 0
    requires IndexOf(rest[i + |startTag|..], endTag) == -1
    ensures Scan(rest, startTag, endTag) == Extraction(rest[..i], rest[i + |startTag|..], true)
  {
  }

  lemma ThenAssoc(a: Extraction, b: Extraction, c: Extraction)
    ensures Then(Then(a, b), c) == Then(a, Then(b, c))
  {
    assert (a.cleaned + b.cleaned) + c.cleaned == a.cleaned + (b.cleaned + c.cleaned);
    assert (a.thinking + b.thinking) + c.thinking == a.thinking + (b.thinking + c.thinking);
  }

  /** `ExtractThinkingFromContent`, whose loop consumes `remaining` and appends to two
      builders. The tags are fixed non-empty strings in the source; only with both tags
      empty would its loop not end. The model asks for a non-empty start tag. */
  method ExtractThinkingFromContent(content: string, startTag: string, endTag: string)
    returns (cleaned: string, thinking: string, hasThinking: bool)
    requires |startTag| > 0
    ensures Extraction(cleaned, thinking, hasThinking) == ExtractThinking(content, startTag, endTag)
  {
    if !Contains(content, startTag) {
      return content, "", false;
    }
    var cleanedContent := "";
    var thinkingContent := "";
    hasThinking := false;
    var remaining := content;
    ghost var goal := Scan(content, startTag, endTag);
    assert Then(Extraction("", "", false), goal) == goal;
    while |remaining| > 0
      invariant Then(Extraction(cleanedContent, thinkingContent, hasThinking), Scan(remaining, startTag, endTag)) == goal
      decreases |remaining|
    {
      ghost var done := Extraction(cleanedContent, thinkingContent, hasThinking);
      ghost var before := remaining;
      var startIdx := IndexOf(remaining, startTag);
      if startIdx == -1 {
        ScanNoStartTag(remaining, startTag, endTag);
        cleanedContent := cleanedContent + remaining;
        assert thinkingContent + "" == thinkingContent;
        break;
      }
      cleanedContent := cleanedContent + remaining[..startIdx];
      remaining := remaining[startIdx + |startTag|..];
      var endIdx := IndexOf(remaining, endTag);
      if endIdx == -1 {
        ScanUnclosed(before, startTag, endTag, startIdx);
        thinkingContent := thinkingContent + remaining;
        hasThinking := true;
        break;
      }
      thinkingContent := thinkingContent + remaining[..endIdx];
      hasThinking := true;
      remaining := remaining[endIdx + |endTag|..];
      ScanClosed(before, startTag, endTag, startIdx, endIdx);
      ThenAssoc(done, Extraction(before[..startIdx], before[startIdx + |startTag|..][..endIdx], true),
                Scan(remaining, startTag, endTag));
    }
    assert Extraction(cleanedContent, thinkingContent, hasThinking) == goal;
    return TrimSpace(cleanedContent), TrimSpace(thinkingContent), hasThinking;
  }

  // ---------------------------------------------------------------------------------
  // ParseClaudeEvent

  /** A Claude event: its type and its data, "" where absent. */
  datatype Event = Event(eventType: string, eventData: string)

  predicate IsEventLine(line: string) {
    HasPrefix(TrimSpace(line), EventPrefix)
  }

  predicate IsDataLine(line: string) {
    !IsEventLine(line) && HasPrefix(TrimSpace(line), DataPrefix)
  }

  /** The value a line carries after its prefix, trimmed. */
  function LineValue(line: string, prefix: string): string {
    TrimSpace(TrimPrefix(TrimSpace(line), prefix))
  }

  /** The loop of `ParseClaudeEvent` over `lines`: event lines overwrite the type, data
      lines overwrite the data. */
  function ParseLines(lines: seq<string>): Event {
    if lines == [] then Event("", "")
    else
      var e := ParseLines(lines[..|lines| - 1]);
      var line := lines[|lines| - 1];
      if IsEventLine(line) then e.(eventType := LineValue(line, EventPrefix))
      else if IsDataLine(line) then e.(eventData := LineValue(line, DataPrefix))
      else e
  }

  /** The type is the value of the last event line, "" without one. */
  lemma {:induction false} LastEventLineWins(lines: seq<string>, k: int)
    requires -1 <= k < |lines| && (k >= 0 ==> IsEventLine(lines[k]))
    requires forall j :: k < j < |lines| ==> !IsEventLine(lines[j])
    ensures ParseLines(lines).eventType == if k >= 0 then LineValue(lines[k], EventPrefix) else ""
  {
    if lines != [] && k < |lines| - 1 {
      LastEventLineWins(lines[..|lines| - 1], k);
    }
  }

  /** The data is the value of the last data line, "" without one. */
  lemma {:induction false} LastDataLineWins(lines: seq<string>, k: int)
    requires -1 <= k < |lines| && (k >= 0 ==> IsDataLine(lines[k]))
    requires forall j :: k < j < |lines| ==> !IsDataLine(lines[j])
    ensures ParseLines(lines).eventData == if k >= 0 then LineValue(lines[k], DataPrefix) else ""
  {
    if lines != [] && k < |lines| - 1 {
      LastDataLineWins(lines[..|lines| - 1], k);
    }
  }

  /** Lines that are neither event nor data lines change nothing. */
  lemma OtherLinesIgnored(lines: seq<string>, line: string)
    requires !IsEventLine(line) && !IsDataLine(line)
    ensures ParseLines(lines + [line]) == ParseLines(lines)
  {
    assert (lines + [line])[..|lines|] == lines;
  }

  /** `ParseClaudeEvent`; the raw bytes are read as characters. */
  method ParseClaudeEvent(rawEvent: string) returns (eventType: string, eventData: string)
    ensures Event(eventType, eventData) == ParseLines(Split(rawEvent, '\n'))
  {
    var lines := Split(rawEvent, '\n');
    eventType := "";
    eventData := "";
    var i := 0;
    while i < |lines|
      invariant 0 <= i <= |lines|
      invariant Event(eventType, eventData) == ParseLines(lines[..i])
    {
      assert lines[..i + 1][..i] == lines[..i];
      var line := TrimSpace(lines[i]);
      if HasPrefix(line, EventPrefix) {
        eventType := TrimSpace(TrimPrefix(line, EventPrefix));
      } else if HasPrefix(line, DataPrefix) {
        eventData := TrimSpace(TrimPrefix(line, DataPrefix));
      }
      i := i + 1;
    }
    assert lines[..i] == lines;
  }

  // ---------------------------------------------------------------------------------
  // The framing at the top of ConvertKiroStreamToOpenAI

  /** Without a newline found, there is none. */
  lemma NoNewline(s: string)
    requires IndexOf(s, "\n") == -1
    ensures '\n' !in s
  {
    IndexOfIsFirst(s, "\n");
    forall j | 0 <= j < |s| ensures s[j] != '\n' {
      assert !OccursAt(s, "\n", j);
      assert s[j..j + 1] == [s[j]];
    }
  }

  /** The first newline found splits `s` into a newline-free head and the rest. */
  lemma FirstNewline(s: string, k: int)
    requires k == IndexOf(s, "\n") >= 0
    ensures k < |s| && s[k] == '\n' && '\n' !in s[..k] && s == s[..k] + "\n" + s[k + 1..]
  {
    IndexOfIsFirst(s, "\n");
    assert s[k..k + 1] == "\n";
    forall j | 0 <= j < k ensures s[..k][j] != '\n' {
      assert !OccursAt(s, "\n", j);
      assert s[j..j + 1] == [s[j]];
    }
  }

  /** `strings.SplitN(s, "\n", 2)`. */
  function SplitFirstLine(s: string): (lines: seq<string>)
    ensures 1 <= |lines| <= 2 && '\n' !in lines[0]
    ensures |lines| == 1 <==> '\n' !in s
    ensures |lines| == 1 ==> lines[0] == s
    ensures |lines| == 2 ==> s == lines[0] + "\n" + lines[1]
  {
    var k := IndexOf(s, "\n");
    if k == -1 then
      NoNewline(s);
      [s]
    else
      FirstNewline(s, k);
      [s[..k], s[k + 1..]]
  }

  /** The type and data of one raw stream chunk, or `None` where the conversion returns
      no chunks because the data is empty. */
  function FrameStreamEvent(raw: string): (r: Option<Event>)
    ensures r.Some? ==> r.value.eventData != ""
    ensures HasPrefix(raw, EventPrefix) && r.Some? ==>
      var lines := SplitFirstLine(raw);
      r.value.eventType == TrimSpace(TrimPrefix(lines[0], EventPrefix))
      && |lines| == 2 && HasPrefix(lines[1], DataPrefix)
      && r.value.eventData == TrimSpace(TrimPrefix(lines[1], DataPrefix))
    ensures !HasPrefix(raw, EventPrefix) ==> r.None? || r.value.eventType == ""
  {
    var frame :=
      if HasPrefix(raw, EventPrefix) then
        var lines := SplitFirstLine(raw);
        Event(TrimSpace(TrimPrefix(lines[0], EventPrefix)),
              if |lines| >= 2 && HasPrefix(lines[1], DataPrefix) then TrimSpace(TrimPrefix(lines[1], DataPrefix)) else "")
      else if HasPrefix(raw, DataPrefix) then Event("", TrimSpace(TrimPrefix(raw, DataPrefix)))
      else Event("", TrimSpace(raw));
    if frame.eventData == "" then None else Some(frame)
  }

  /** A line that trimming leaves alone. */
  predicate IsFieldValue(v: string) {
    IsTrimmed(v) && '\n' !in v
  }

  lemma PrefixedValue(prefix: string, v: string)
    requires IsTrimmed(v)
    ensures HasPrefix(prefix + v, prefix) && TrimPrefix(prefix + v, prefix) == v && TrimSpace(v) == v
  {
    var line := prefix + v;
    assert line[..|prefix|] == prefix && line[|prefix|..] == v;
    TrimSpaceOfTrimmed(v);
  }

  /** A prefixed field line is left alone by trimming. */
  lemma PrefixedLineTrimmed(prefix: string, v: string)
    requires |prefix| > 0 && !IsSpace(prefix[0]) && !IsSpace(prefix[|prefix| - 1]) && IsTrimmed(v)
    ensures TrimSpace(prefix + v) == prefix + v
  {
    var line := prefix + v;
    assert line[0] == prefix[0];
    assert line[|line| - 1] == if v == [] then prefix[|prefix| - 1] else v[|v| - 1];
    TrimSpaceOfTrimmed(line);
  }

  lemma SplitFirstLineAt(a: string, b: string)
    requires '\n' !in a
    ensures SplitFirstLine(a + "\n" + b) == [a, b]
  {
    var s := a + "\n" + b;
    IndexOfFirst(a, '\n', b);
    assert s[..|a|] == a && s[|a| + 1..] == b;
  }

  lemma NoNewlineAfterPrefix(prefix: string, v: string)
    requires '\n' !in prefix && '\n' !in v
    ensures '\n' !in prefix + v
  {
    forall j | 0 <= j < |prefix + v| ensures (prefix + v)[j] != '\n' {
      if j >= |prefix| { assert (prefix + v)[j] == v[j - |prefix|]; }
    }
  }

  lemma FrameOfTwoLines(raw: string, first: string, second: string)
    requires HasPrefix(raw, EventPrefix) && SplitFirstLine(raw) == [first, second] && HasPrefix(second, DataPrefix)
    requires TrimSpace(TrimPrefix(second, DataPrefix)) != ""
    ensures FrameStreamEvent(raw)
            == Some(Event(TrimSpace(TrimPrefix(first, EventPrefix)), TrimSpace(TrimPrefix(second, DataPrefix))))
  {
  }

  /** An event written as an event line and a data line is read back by the stream
      framing. */
  lemma FrameRoundTrip(t: string, d: string)
    requires IsFieldValue(t) && IsFieldValue(d) && d != ""
    ensures FrameStreamEvent(EventPrefix + t + "\n" + DataPrefix + d) == Some(Event(t, d))
  {
    var first := EventPrefix + t;
    var second := DataPrefix + d;
    var raw := EventPrefix + t + "\n" + DataPrefix + d;
    assert raw == first + "\n" + second;
    NoNewlineAfterPrefix(EventPrefix, t);
    SplitFirstLineAt(first, second);
    assert raw[..|EventPrefix|] == EventPrefix;
    PrefixedValue(EventPrefix, t);
    PrefixedValue(DataPrefix, d);
    FrameOfTwoLines(raw, first, second);
  }

  lemma ParseTwoLines(first: string, second: string)
    requires IsEventLine(first) && IsDataLine(second) && '\n' !in first && '\n' !in second
    ensures ParseLines(Split(first + "\n" + second, '\n'))
            == Event(LineValue(first, EventPrefix), LineValue(second, DataPrefix))
  {
    SplitAtSeparator(first, '\n', second);
    SplitWithoutSeparator(second, '\n');
    assert Split(first + "\n" + second, '\n') == [first, second];
    assert [first, second][..1] == [first] && [first][..0] == [];
  }

  /** A field line's value is the field. */
  lemma FieldLineValue(prefix: string, v: string)
    requires |prefix| > 0 && !IsSpace(prefix[0]) && !IsSpace(prefix[|prefix| - 1]) && IsTrimmed(v)
    ensures HasPrefix(TrimSpace(prefix + v), prefix) && LineValue(prefix + v, prefix) == v
  {
    PrefixedLineTrimmed(prefix, v);
    PrefixedValue(prefix, v);
  }

  lemma EventLineValue(t: string)
    requires IsFieldValue(t)
    ensures IsEventLine(EventPrefix + t) && LineValue(EventPrefix + t, EventPrefix) == t && '\n' !in EventPrefix + t
  {
    NoNewlineAfterPrefix(EventPrefix, t);
    FieldLineValue(EventPrefix, t);
  }

  lemma DataLineValue(d: string)
    requires IsFieldValue(d)
    ensures IsDataLine(DataPrefix + d) && LineValue(DataPrefix + d, DataPrefix) == d && '\n' !in DataPrefix + d
  {
    NoNewlineAfterPrefix(DataPrefix, d);
    FieldLineValue(DataPrefix, d);
    var line := DataPrefix + d;
    PrefixedLineTrimmed(DataPrefix, d);
    if |EventPrefix| <= |line| {
      assert line[..|EventPrefix|][0] == 'd' != EventPrefix[0];
    }
  }

  /** ... and by `ParseClaudeEvent`. */
  lemma ParseRoundTrip(t: string, d: string)
    requires IsFieldValue(t) && IsFieldValue(d)
    ensures ParseLines(Split(EventPrefix + t + "\n" + DataPrefix + d, '\n')) == Event(t, d)
  {
    assert EventPrefix + t + "\n" + DataPrefix + d == (EventPrefix + t) + "\n" + (DataPrefix + d);
    EventLineValue(t);
    DataLineValue(d);
    ParseTwoLines(EventPrefix + t, DataPrefix + d);
  }

  // ---------------------------------------------------------------------------------
  // ConvertOpenAIToolsToKiroFormat

  /** The `function` object of an OpenAI tool; `S` is the type of its parameter schema. */
  datatype FunctionDecl<S> = FunctionDecl(name: string, description: string, parameters: S)

  /** An OpenAI tool: its `type` ("" when absent or not a string) and its `function`
      object (`None` when absent or not an object). */
  datatype OpenAITool<S> = OpenAITool(toolType: string, decl: Option<FunctionDecl<S>>)

  datatype KiroTool<S> = KiroTool(name: string, description: string, inputSchema: S)

  predicate Converts<S>(tool: OpenAITool<S>) {
    tool.toolType == "function" && tool.decl.Some? && tool.decl.value.name != ""
  }

  /** The Kiro specification of a convertible tool; `ensureSchema` stands for
      `ensureKiroInputSchema`. */
  function ToKiroTool<S>(fn: FunctionDecl<S>, ensureSchema: S -> S): (k: KiroTool<S>)
    requires fn.name != ""
    ensures k.name == fn.name && k.description != "" && k.inputSchema == ensureSchema(fn.parameters)
    ensures k.description == if fn.description == "" then ToolDescriptionPrefix + fn.name else fn.description
  {
    KiroTool(fn.name, if fn.description == "" then ToolDescriptionPrefix + fn.name else fn.description,
             ensureSchema(fn.parameters))
  }

  /** The tools that are functions with a name, converted, in their order. */
  function KiroTools<S>(tools: seq<OpenAITool<S>>, ensureSchema: S -> S): seq<KiroTool<S>> {
    if tools == [] then []
    else
      var last := tools[|tools| - 1];
      KiroTools(tools[..|tools| - 1], ensureSchema)
        + (if Converts(last) then [ToKiroTool(last.decl.value, ensureSchema)] else [])
  }

  /** Converting two lists one after the other is converting their concatenation: the
      filter keeps the order of the tools. */
  lemma {:induction false} KiroToolsConcat<S>(a: seq<OpenAITool<S>>, b: seq<OpenAITool<S>>, ensureSchema: S -> S)
    ensures KiroTools(a + b, ensureSchema) == KiroTools(a, ensureSchema) + KiroTools(b, ensureSchema)
    decreases |b|
  {
    if b == [] {
      assert a + b == a;
    } else {
      var init := b[..|b| - 1];
      assert (a + b)[..|a + b| - 1] == a + init;
      KiroToolsConcat(a, init, ensureSchema);
    }
  }

  /** A single tool converts to one specification or is skipped. */
  lemma OneTool<S>(tool: OpenAITool<S>, ensureSchema: S -> S)
    ensures KiroTools([tool], ensureSchema) == if Converts(tool) then [ToKiroTool(tool.decl.value, ensureSchema)] else []
  {
    assert [tool][..0] == [];
  }

  /** The indices of the tools that convert. */
  function ConvertibleIndices<S>(tools: seq<OpenAITool<S>>): set<int> {
    set i | 0 <= i < |tools| && Converts(tools[i])
  }

  /** One specification comes from each convertible tool. */
  lemma {:induction false} KiroToolsCount<S>(tools: seq<OpenAITool<S>>, ensureSchema: S -> S)
    ensures |KiroTools(tools, ensureSchema)| == |ConvertibleIndices(tools)|
  {
    if tools != [] {
      var init := tools[..|tools| - 1];
      KiroToolsCount(init, ensureSchema);
      var n := |tools| - 1;
      assert ConvertibleIndices(tools) == ConvertibleIndices(init) + (if Converts(tools[n]) then {n} else {}) by {
        assert forall i :: 0 <= i < n ==> init[i] == tools[i];
      }
      assert n !in ConvertibleIndices(init);
    }
  }

  /** Every specification has a name and a description. */
  lemma {:induction false} KiroToolsNamed<S>(tools: seq<OpenAITool<S>>, ensureSchema: S -> S)
    ensures forall k :: 0 <= k < |KiroTools(tools, ensureSchema)| ==>
      KiroTools(tools, ensureSchema)[k].name != "" && KiroTools(tools, ensureSchema)[k].description != ""
  {
    if tools != [] {
      var init := tools[..|tools| - 1];
      KiroToolsNamed(init, ensureSchema);
      var out := KiroTools(tools, ensureSchema);
      forall k | 0 <= k < |out| ensures out[k].name != "" && out[k].description != "" {
        if k < |KiroTools(init, ensureSchema)| {
          assert out[k] == KiroTools(init, ensureSchema)[k];
        }
      }
    }
  }

  /** `ConvertOpenAIToolsToKiroFormat`. */
  method ConvertOpenAIToolsToKiroFormat<S>(tools: seq<OpenAITool<S>>, ensureSchema: S -> S)
    returns (kiroTools: seq<KiroTool<S>>)
    ensures kiroTools == KiroTools(tools, ensureSchema)
  {
    kiroTools := [];
    var i := 0;
    while i < |tools|
      invariant 0 <= i <= |tools|
      invariant kiroTools == KiroTools(tools[..i], ensureSchema)
    {
      assert tools[..i + 1][..i] == tools[..i];
      var tool := tools[i];
      i := i + 1;
      if tool.toolType != "function" {
        continue;
      }
      if tool.decl.None? {
        continue;
      }
      var fn := tool.decl.value;
      var name := fn.name;
      var description := fn.description;
      var parameters := ensureSchema(fn.parameters);
      if name == "" {
        continue;
      }
      if description == "" {
        description := ToolDescriptionPrefix + name;
      }
      kiroTools := kiroTools + [KiroTool(name, description, parameters)];
    }
    assert tools[..i] == tools;
  }
}
