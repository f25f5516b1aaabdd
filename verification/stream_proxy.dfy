/**
 * Stream URLs routed through the backend proxy: the decision whether a URL
 * needs the proxy, and the proxied URL, which carries the original as
 * base64 (the browser's btoa) in its query string.
 */
module StreamProxy {
  import opened Wrappers
  import Text
  import opened Base64

  const ProxyPrefix: string := "/api/channels/proxy/stream?url="

  /** The lower-cased URL names a host or format that needs the proxy. */
  predicate HasProxyMarker(lower: string) {
    || Text.Contains(lower, "dropbox") || Text.Contains(lower, "live-evg") || Text.Contains(lower, "tv360")
    || Text.Contains(lower, ".m3u8") || Text.Contains(lower, ".m3u") || Text.Contains(lower, "https://")
    || Text.Contains(lower, "origin-")
  }

  /** shouldUseProxy: a falsy URL never; otherwise when its lower-cased form contains one of the markers. */
  predicate ShouldUseProxy(url: Option<string>) {
    Truthy(url) && HasProxyMarker(Text.Lower(url.value))
  }

  // ------------------------------------------------------------- proxy

  /** Whether the proxy is used: the explicit flag, or ShouldUseProxy when the flag is null. */
  predicate ProxyOn(url: string, useProxy: Option<bool>) {
    if useProxy.Some? then useProxy.value else ShouldUseProxy(Some(url))
  }

  /**
   * getProxiedStreamUrl: '' for a falsy URL; the URL unchanged when the proxy
   * is off (explicitly, or by ShouldUseProxy when `useProxy` is null); else the
   * proxy endpoint with the base64 URL, falling back to the URL itself when
   * btoa throws.
   */
  function ProxiedStreamUrl(streamUrl: Option<string>, useProxy: Option<bool>): (r: string)
    ensures !Truthy(streamUrl) ==> r == ""
    ensures Truthy(streamUrl) && useProxy == Some(false) ==> r == streamUrl.value
    ensures Truthy(streamUrl) && !ProxyOn(streamUrl.value, useProxy) ==> r == streamUrl.value
    ensures Truthy(streamUrl) && ProxyOn(streamUrl.value, useProxy) ==>
      if exists i :: 0 <= i < |streamUrl.value| && streamUrl.value[i] as int >= 256 then r == streamUrl.value
      else |ProxyPrefix| <= |r| && r[..|ProxyPrefix|] == ProxyPrefix
  {
    if !Truthy(streamUrl) then ""
    else
      if !ProxyOn(streamUrl.value, useProxy) then streamUrl.value
      else match Btoa(streamUrl.value)
        case Some(encoded) => ProxyPrefix + encoded
        case None => streamUrl.value
  }

  /** With the proxy on and a Latin-1 URL, the result is the endpoint followed by btoa of the URL. */
  lemma ProxiedIsEncoded(streamUrl: string, useProxy: Option<bool>)
    requires streamUrl != []
    requires ProxyOn(streamUrl, useProxy)
    requires forall i :: 0 <= i < |streamUrl| ==> streamUrl[i] as int < 256
    ensures Btoa(streamUrl).Some? && ProxiedStreamUrl(Some(streamUrl), useProxy) == ProxyPrefix + Btoa(streamUrl).value
  {
  }

  /** A proxied URL carries the original: decoding its query value gives back the URL's code points. */
  lemma ProxiedUrlRoundTrip(streamUrl: string, useProxy: Option<bool>)
    requires streamUrl != []
    requires ProxyOn(streamUrl, useProxy)
    requires forall i :: 0 <= i < |streamUrl| ==> streamUrl[i] as int < 256
    ensures var r := ProxiedStreamUrl(Some(streamUrl), useProxy);
      && |ProxyPrefix| <= |r| && r[..|ProxyPrefix|] == ProxyPrefix
      && Decode(r[|ProxyPrefix|..]) == Latin1(streamUrl)
  {
    ProxiedIsEncoded(streamUrl, useProxy);
    BtoaDecode(streamUrl);
    var e := Btoa(streamUrl).value;
    assert (ProxyPrefix + e)[|ProxyPrefix|..] == e;
  }

  /** Every HTTPS stream goes through the proxy. */
  lemma HttpsUsesProxy(url: string)
    requires |url| >= 8 && Text.Lower(url)[..8] == "https://"
    ensures ShouldUseProxy(Some(url))
  {
    assert Text.OccursAt(Text.Lower(url), "https://", 0);
  }
}
