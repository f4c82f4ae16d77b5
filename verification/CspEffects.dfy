/** Which browser reports are accepted, what is kept of one, and which items of a request count. */
module CspEffects {
  import opened Common
  import opened CspRoute
  import opened CspNames
  import opened CspReports

  // ----- texts of a report -----

  ghost predicate HoldsText(fields: map<string, Json>, name: string, text: string) {
    Lookup(fields, name) == Some(Str(text))
  }

  ghost predicate HasText(fields: map<string, Json>, name: string) {
    name in fields && fields[name].Str?
  }

  /** `text` is what the first name with a text holds, or "" when none has one. */
  ghost predicate Says(fields: map<string, Json>, names: seq<string>, text: string) {
    if forall i :: 0 <= i < |names| ==> !HasText(fields, names[i]) then text == ""
    else exists i :: 0 <= i < |names| && HoldsText(fields, names[i], text)
           && forall j :: 0 <= j < i ==> !HasText(fields, names[j])
  }

  lemma {:induction false} FirstSays(fields: map<string, Json>, names: seq<string>)
    ensures Says(fields, names, First(fields, names))
  {
    if names != [] && !HasText(fields, names[0]) {
      var rest := names[1..];
      FirstSays(fields, rest);
      if i :| 0 <= i < |names| && HasText(fields, names[i]) {
        assert rest[i - 1] == names[i] && HasText(fields, rest[i - 1]);
        var k :| 0 <= k < |rest| && HoldsText(fields, rest[k], First(fields, rest))
          && forall j :: 0 <= j < k ==> !HasText(fields, rest[j]);
        assert HoldsText(fields, names[k + 1], First(fields, names));
        assert forall j :: 0 <= j < k + 1 ==> !HasText(fields, names[j]) by {
          assert forall j :: 0 < j < k + 1 ==> names[j] == rest[j - 1];
        }
      } else {
        assert forall i :: 0 <= i < |rest| ==> rest[i] == names[i + 1];
      }
    }
  }

  lemma SaysOne(fields: map<string, Json>, names: seq<string>, a: string, b: string)
    requires Says(fields, names, a) && Says(fields, names, b)
    ensures a == b
  {
  }

  // ----- acceptance -----

  /** The report's body: the legacy one before the envelope's. */
  ghost predicate HasBody(raw: Json, body: map<string, Json>) {
    raw.Object? &&
    if "csp-report" in raw.fields && raw.fields["csp-report"].Object? then raw.fields["csp-report"] == Object(body)
    else "body" in raw.fields && raw.fields["body"] == Object(body)
  }

  /** The reported page's URL: the body's, or the envelope's when the body has none. */
  ghost predicate ReportsPage(raw: Json, body: map<string, Json>, doc: string) {
    raw.Object? &&
    if Says(body, ["documentURL", "document-uri", "documentUri"], "") then Says(raw.fields, ["url"], doc)
    else Says(body, ["documentURL", "document-uri", "documentUri"], doc)
  }

  ghost predicate Directs(body: map<string, Json>, effective: string) {
    Says(body, ["effectiveDirective", "effective-directive", "violatedDirective", "violated-directive"], effective)
  }

  ghost predicate Allows(host: string, lib: Library, cfg: Settings) {
    exists o :: o in cfg.origins && lib.urlsplit(o).host == host
  }

  /** The kind of page a host is: a local one counts only outside production. */
  ghost predicate ServedAs(host: string, env: string, lib: Library, cfg: Settings) {
    var local := host in lib.names.localHosts;
    || (env == "dev" && local && Allows(host, lib, cfg) && !cfg.production)
    || (env == "prod" && !local && Allows(host, lib, cfg))
    || (env == "preview" && !local && !Allows(host, lib, cfg) && cfg.preview("https://" + host))
  }

  /** A report of a page of ours: an object with a body, a web URL with a host we serve, and a directive. */
  ghost predicate Acceptable(raw: Json, body: map<string, Json>, url: Url, env: string, effective: string, lib: Library, cfg: Settings) {
    && HasBody(raw, body)
    && (exists doc :: ReportsPage(raw, body, doc) && lib.urlsplit(doc) == url)
    && (url.scheme == "http" || url.scheme == "https") && url.host != ""
    && ServedAs(url.host, env, lib, cfg)
    && Directs(body, effective) && effective != ""
  }

  lemma DocumentNamed(raw: Json, body: map<string, Json>)
    requires raw.Object?
    ensures ReportsPage(raw, body, DocumentOf(raw.fields, body))
    ensures forall doc :: ReportsPage(raw, body, doc) ==> doc == DocumentOf(raw.fields, body)
  {
    var names := ["documentURL", "document-uri", "documentUri"];
    FirstSays(body, names);
    FirstSays(raw.fields, ["url"]);
    if Says(body, names, "") { SaysOne(body, names, "", First(body, names)); }
    forall doc | ReportsPage(raw, body, doc) ensures doc == DocumentOf(raw.fields, body) {
      if Says(body, names, "") { SaysOne(raw.fields, ["url"], doc, First(raw.fields, ["url"])); }
      else { SaysOne(body, names, doc, First(body, names)); }
    }
  }

  lemma HostServed(host: string, env: string, lib: Library, cfg: Settings)
    ensures ServedAs(host, env, lib, cfg) <==> ClassifyHost(host, lib, cfg) == Some(env)
  {
    assert host in AllowedHosts(lib, cfg) <==> Allows(host, lib, cfg);
  }

  lemma DirectiveSaid(body: map<string, Json>)
    ensures var names := ["effectiveDirective", "effective-directive", "violatedDirective", "violated-directive"];
      forall e :: Directs(body, e) <==> e == First(body, names)
  {
    var names := ["effectiveDirective", "effective-directive", "violatedDirective", "violated-directive"];
    FirstSays(body, names);
    forall e | Directs(body, e) ensures e == First(body, names) { SaysOne(body, names, e, First(body, names)); }
  }

  /** A report is accepted exactly when it is acceptable. */
  lemma AcceptedExactly(raw: Json, lib: Library, cfg: Settings)
    ensures Normalise(raw, lib, cfg).Some?
      <==> exists body, url, env, effective :: Acceptable(raw, body, url, env, effective, lib, cfg)
  {
    if Normalise(raw, lib, cfg).Some? {
      var body := BodyOf(raw.fields).value;
      var doc := DocumentOf(raw.fields, body);
      var url := lib.urlsplit(doc);
      DocumentNamed(raw, body);
      HostServed(url.host, ClassifyHost(url.host, lib, cfg).value, lib, cfg);
      DirectiveSaid(body);
      var effective := First(body, ["effectiveDirective", "effective-directive", "violatedDirective", "violated-directive"]);
      assert Directs(body, effective) && ReportsPage(raw, body, doc);
      assert Acceptable(raw, body, url, ClassifyHost(url.host, lib, cfg).value, effective, lib, cfg);
    }
    if body, url, env, effective :| Acceptable(raw, body, url, env, effective, lib, cfg) {
      AcceptedParts(raw, body, url, env, effective, lib, cfg);
    }
  }

  lemma AcceptedParts(raw: Json, body: map<string, Json>, url: Url, env: string, effective: string, lib: Library, cfg: Settings)
    requires Acceptable(raw, body, url, env, effective, lib, cfg)
    ensures Normalise(raw, lib, cfg)
         == Some(Report(FieldsOf(url, env, effective, body, lib, cfg), lib.scrub(First(body, ["sample", "script-sample"]))))
  {
    assert BodyOf(raw.fields) == Some(body);
    DocumentNamed(raw, body);
    HostServed(url.host, env, lib, cfg);
    DirectiveSaid(body);
    var doc :| ReportsPage(raw, body, doc) && lib.urlsplit(doc) == url;
    assert doc == DocumentOf(raw.fields, body);
  }

  // ----- what is kept -----

  /** A name from a closed set is kept, another only as "other", and none as "". */
  ghost predicate KeptAs(name: string, known: set<string>, kept: string) {
    || (name == "" && kept == "")
    || (name != "" && name in known && kept == name)
    || (name != "" && name !in known && kept == "other")
  }

  /** What comes before the first space. */
  ghost predicate FirstWord(text: string, word: string) {
    word <= text && ' ' !in word && (word != text ==> text[|word|] == ' ')
  }

  /** The first word of the directive, lower-cased, if it is a known directive. */
  ghost predicate KeptDirective(effective: string, directive: string, lib: Library) {
    exists word :: FirstWord(effective, word)
      && directive == (if lib.lower(word) in lib.names.directives then lib.lower(word) else "other")
  }

  lemma DirectiveKept(effective: string, lib: Library)
    ensures var lowered := lib.lower(Before(effective, ' '));
      KeptDirective(effective, if lowered in lib.names.directives then lowered else "other", lib)
  {
    assert FirstWord(effective, Before(effective, ' '));
  }

  /** What is kept of an accepted report: page, directive, whether it was enforced, the sink for the one directive that
      has sinks, and the policy; its sample scrubbed. */
  lemma KeptExactly(raw: Json, body: map<string, Json>, url: Url, env: string, effective: string, sample: string,
                    lib: Library, cfg: Settings)
    requires Acceptable(raw, body, url, env, effective, lib, cfg)
    requires Says(body, ["sample", "script-sample"], sample)
    ensures Normalise(raw, lib, cfg).Some?
    ensures var r := Normalise(raw, lib, cfg).value;
      var f := r.fields;
      && f.env == env && f.route == Route(url.path, lib.wide) && r.sample == lib.scrub(sample)
      && KeptDirective(effective, f.directive, lib)
      && (Says(body, ["disposition"], "enforce") ==> f.disposition == "enforce")
      && (!Says(body, ["disposition"], "enforce") ==> f.disposition == "report")
      && (f.directive == "require-trusted-types-for" ==> KeptAs(lib.sinkName(sample), lib.names.sinks, f.sink))
      && (f.directive != "require-trusted-types-for" ==> f.sink == "")
      && KeptAs(lib.policyName(sample), lib.names.policies, f.policy)
  {
    AcceptedParts(raw, body, url, env, effective, lib, cfg);
    DirectiveKept(effective, lib);
    FirstSays(body, ["sample", "script-sample"]);
    SaysOne(body, ["sample", "script-sample"], sample, First(body, ["sample", "script-sample"]));
    FirstSays(body, ["disposition"]);
    if Says(body, ["disposition"], "enforce") { SaysOne(body, ["disposition"], "enforce", First(body, ["disposition"])); }
  }

  /** What is kept of the blocked URL: a keyword, a scheme, "self" for the page's own host, a known host, or no more
      than that there was one. */
  lemma BlockedExactly(text: string, docHost: string, lib: Library, cfg: Settings)
    ensures var raw, kept := lib.strip(text), Blocked(text, docHost, lib, cfg);
      var url, scheme := lib.urlsplit(raw), lib.lower(Before(raw, ':'));
      var own := url.host == lib.urlsplit(cfg.supabaseUrl).host || url.host == lib.urlsplit(cfg.backendUrl).host;
      if raw in lib.names.keywords then kept == raw
      else if scheme in lib.names.schemes then kept == (if scheme in lib.names.schemeNames then scheme else "other")
      else if url.scheme in lib.names.netSchemes && url.host != "" then
        && (url.host == docHost ==> kept == "self")
        && (url.host != docHost && (url.host in lib.names.knownHosts || own) ==> kept == url.host)
        && (url.host != docHost && !(url.host in lib.names.knownHosts || own) ==> kept == "other")
      else kept == ""
  {
  }

  // ----- one request -----

  /** What one item adds. */
  ghost function Added(x: Json, lib: Library, cfg: Settings): seq<Report> {
    match Normalise(x, lib, cfg)
    case None => []
    case Some(r) => [r]
  }

  ghost function Listed(items: seq<Json>, lib: Library, cfg: Settings): seq<Report> {
    Parse(Some(List(items)), lib, cfg)
  }

  /** Of a list the first ten items count, each that is accepted, in order. */
  lemma ParsedExactly(items: seq<Json>, x: Json, lib: Library, cfg: Settings)
    ensures Listed([], lib, cfg) == []
    ensures Listed(items + [x], lib, cfg) == Listed(items, lib, cfg) + if |items| < 10 then Added(x, lib, cfg) else []
  {
    if |items| < 10 {
      assert (items + [x])[..|items|] == items;
    } else {
      assert (items + [x])[..10] == items[..10];
      assert |items| == 10 ==> items[..10] == items;
    }
  }

  /** What is not JSON counts for nothing, and what is no list for one item. */
  lemma ParsedSingle(x: Json, lib: Library, cfg: Settings)
    ensures Parse(None, lib, cfg) == []
    ensures !x.List? ==> Parse(Some(x), lib, cfg) == Added(x, lib, cfg)
  {
    assert [x][..0] == [];
  }
}
