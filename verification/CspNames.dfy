/** The names a report may keep (app/services/csp_report.py:28-71). */
module CspNames {
  import opened Common

  datatype Names = Names(
    keywords: set<string>, directives: set<string>, localHosts: set<string>, knownHosts: set<string>,
    sinks: set<string>, policies: set<string>, schemes: set<string>, schemeNames: set<string>, netSchemes: set<string>)

  const KEYWORDS: seq<string> := [
    "inline", "eval", "trusted-types-policy", "trusted-types-policy-violation", "trusted-types-sink", "wasm-eval",
    "self"]

  const DIRECTIVES: seq<string> := [
    "script-src", "script-src-elem", "script-src-attr", "style-src", "style-src-elem", "style-src-attr",
    "img-src", "connect-src", "font-src", "frame-src", "child-src", "worker-src", "object-src", "media-src",
    "manifest-src", "prefetch-src", "default-src", "base-uri", "form-action", "frame-ancestors", "navigate-to",
    "require-trusted-types-for", "trusted-types", "upgrade-insecure-requests", "sandbox", "report-to", "report-uri"]

  const LOCAL_HOSTS: seq<string> := ["localhost", "127.0.0.1"]

  const KNOWN_HOSTS: seq<string> := [
    "vercel.live", "va.vercel-scripts.com", "maps.googleapis.com", "maps.gstatic.com", "www.gstatic.com",
    "fonts.googleapis.com", "fonts.gstatic.com", "openlibrary.org", "covers.openlibrary.org", "books.google.com",
    "books.googleusercontent.com"]

  const SINKS: seq<string> := [
    "Element innerHTML", "Element outerHTML", "Element insertAdjacentHTML", "Element setAttribute", "Document write",
    "Document writeln", "HTMLScriptElement text", "HTMLScriptElement src", "HTMLScriptElement textContent",
    "HTMLScriptElement innerText", "HTMLIFrameElement srcdoc", "Function", "eval", "Worker", "SharedWorker",
    "ServiceWorkerContainer register", "DOMParser parseFromString", "Range createContextualFragment"]

  const POLICIES: seq<string> := [
    "default", "nextjs#bundler", "dompurify-internal", "@googlemaps/js-api-loader", "google-maps-api-loader",
    "google-maps-api#html", "lit-html", "ng-icons", "angular"]

  const SCHEMES: seq<string> := ["data", "blob", "filesystem", "about", "chrome-extension"]

  const SCHEME_NAMES: seq<string> := ["data", "blob", "filesystem"]

  const NET_SCHEMES: seq<string> := ["http", "https", "ws", "wss"]

  const SHIPPED: Names := Names(
    Elements(KEYWORDS), Elements(DIRECTIVES), Elements(LOCAL_HOSTS), Elements(KNOWN_HOSTS), Elements(SINKS),
    Elements(POLICIES), Elements(SCHEMES), Elements(SCHEME_NAMES), Elements(NET_SCHEMES))

  lemma ShippedSizes()
    ensures |SHIPPED.keywords| <= 7 && |SHIPPED.schemeNames| <= 3 && |SHIPPED.policies| <= 9
    ensures |SHIPPED.directives| <= 27 && |SHIPPED.knownHosts| <= 11 && |SHIPPED.sinks| <= 18
    ensures "self" in SHIPPED.keywords
  {
    ElementsSize(KEYWORDS);
    ElementsSize(DIRECTIVES);
    ElementsSize(KNOWN_HOSTS);
    ElementsSize(SINKS);
    ElementsSize(POLICIES);
    ElementsSize(SCHEME_NAMES);
    assert KEYWORDS[6] == "self";
  }
}
