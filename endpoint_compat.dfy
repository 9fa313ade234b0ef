/** The endpoint fallback of the OpenAI-compatible handlers: a model that serves only
    one of `/chat/completions` and `/responses` has requests for the other redirected. */
module EndpointCompat {
  import opened Wrappers

  const ChatEndpoint := "/chat/completions"
  const ResponsesEndpoint := "/responses"

  /** `endpointListContains`: a scan for an item equal to `value`. */
  function EndpointListContains(items: seq<string>, value: string): (r: bool)
    ensures r <==> value in items
    decreases |items|
  {
    if |items| == 0 then false
    else if items[0] == value then true
    else
      assert items == [items[0]] + items[1..];
      EndpointListContains(items[1..], value)
  }

  /** `resolveEndpointOverride`. `info` is what the model registry holds for `modelName`:
      its supported endpoints, or `None` when the model is unknown. The result is the
      endpoint to use instead, and whether there is one. */
  function ResolveEndpointOverride(modelName: string, requested: string, info: Option<seq<string>>)
    : (r: (string, bool))
    ensures modelName == "" ==> r == ("", false)
    ensures info.None? || info == Some([]) ==> r == ("", false)
    ensures info.Some? && requested in info.value ==> r == ("", false)
    ensures r.1 <==> modelName != "" && info.Some? && requested !in info.value
                     && ((requested == ChatEndpoint && ResponsesEndpoint in info.value)
                         || (requested == ResponsesEndpoint && ChatEndpoint in info.value))
    ensures r.1 && requested == ChatEndpoint ==> r.0 == ResponsesEndpoint
    ensures r.1 && requested == ResponsesEndpoint ==> r.0 == ChatEndpoint
    ensures !r.1 ==> r.0 == ""
  {
    if modelName == "" then ("", false)
    else if info.None? || |info.value| == 0 then ("", false)
    else if EndpointListContains(info.value, requested) then ("", false)
    else if requested == ChatEndpoint && EndpointListContains(info.value, ResponsesEndpoint) then (ResponsesEndpoint, true)
    else if requested == ResponsesEndpoint && EndpointListContains(info.value, ChatEndpoint) then (ChatEndpoint, true)
    else ("", false)
  }

  /** An override always names a supported endpoint other than the one requested, and
      requesting that endpoint needs no further override. */
  lemma OverrideIsSupported(modelName: string, requested: string, info: Option<seq<string>>)
    requires ResolveEndpointOverride(modelName, requested, info).1
    ensures var target := ResolveEndpointOverride(modelName, requested, info).0;
      info.Some? && target in info.value && target != requested
      && ResolveEndpointOverride(modelName, target, info) == ("", false)
  {
  }
}
