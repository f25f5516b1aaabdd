/** getPlayableUrl: validates a content item's url and returns it trimmed. */
module PlayerUtils {
  import opened Wrappers
  import Text

  /** The `url` property as JavaScript sees it: a string or some other value (missing included). */
  datatype UrlField = UrlString(s: string) | NotAString

  /** The `item` argument: a falsy or non-object value, or an object with a url property. */
  datatype ItemArg = NotAnObject | Object(url: UrlField)

  /**
   * Throws (Err) for a non-object item, and for a url that is not a string or
   * is blank once trimmed; otherwise the trimmed url. The proxy base argument
   * is accepted and ignored.
   */
  function GetPlayableUrl(item: ItemArg, proxyBaseUrl: Option<string>): (r: Result<string>)
    ensures item.NotAnObject? ==> r == Err("Se requiere un objeto item válido")
    ensures item.Object? && (item.url.NotAString? || Text.AllSpace(item.url.s)) ==> r == Err("URL inválida o vacía")
    ensures r.Ok? <==> item.Object? && item.url.UrlString? && !Text.AllSpace(item.url.s)
    ensures r.Ok? ==> r.value != [] && !Text.IsSpace(r.value[0]) && !Text.IsSpace(r.value[|r.value| - 1])
    ensures r.Ok? ==> Text.SliceOf(r.value, item.url.s)
    ensures r.Ok? ==> r.value == Text.Trim(item.url.s)
  {
    match item
    case NotAnObject => Err("Se requiere un objeto item válido")
    case Object(url) =>
      if url.NotAString? then Err("URL inválida o vacía") else TrimmedUrl(url.s)
  }

  /** A string url: blank once trimmed is an error, otherwise the trimmed text. */
  function TrimmedUrl(s: string): (r: Result<string>)
    ensures r.Err? <==> Text.AllSpace(s)
    ensures r.Err? ==> r == Err("URL inválida o vacía")
    ensures r.Ok? ==> r.value != [] && !Text.IsSpace(r.value[0]) && !Text.IsSpace(r.value[|r.value| - 1])
    ensures r.Ok? ==> Text.SliceOf(r.value, s)
    ensures r.Ok? ==> r.value == Text.Trim(s)
  {
    var t := Text.Trim(s);
    Text.BlankIffAllSpace(s);
    Text.TrimIsSlice(s);
    Text.TrimEnds(s);
    if t == "" then Err("URL inválida o vacía") else Ok(t)
  }

  /** The proxy base url never changes the result. */
  lemma ProxyIgnored(item: ItemArg, a: Option<string>, b: Option<string>)
    ensures GetPlayableUrl(item, a) == GetPlayableUrl(item, b)
  {
  }

  /** Feeding a returned url back in returns it unchanged. */
  lemma PlayableUrlIdempotent(item: ItemArg, proxyBaseUrl: Option<string>)
    requires GetPlayableUrl(item, proxyBaseUrl).Ok?
    ensures GetPlayableUrl(Object(UrlString(GetPlayableUrl(item, proxyBaseUrl).value)), proxyBaseUrl)
      == GetPlayableUrl(item, proxyBaseUrl)
  {
    var u := GetPlayableUrl(item, proxyBaseUrl).value;
    Text.TrimIdempotent(item.url.s);
    Text.BlankIffAllSpace(u);
  }
}
