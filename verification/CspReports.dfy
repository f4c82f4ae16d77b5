/** Browser violation reports: what is kept of one, and the table they are counted in
    (app/services/csp_report.py). URL splitting, the regular expressions over samples and Python's string
    functions are arbitrary functions. */
module CspReports {
  import opened Common
  import opened CspRoute
  import opened CspNames

  // ----- one report -----

  datatype Json =
    | Scalar
    | Str(text: string)
    | List(items: seq<Json>)
    | Object(fields: map<string, Json>)

  /** `host` is "" when the URL has none. */
  datatype Url = Url(scheme: string, host: string, path: string)

  datatype Library = Library(
    urlsplit: string -> Url, strip: string -> string, lower: string -> string,
    policyName: string -> string, sinkName: string -> string, scrub: string -> string, wide: set<char>,
    names: Names)

  datatype Settings = Settings(
    origins: set<string>, production: bool, preview: string -> bool, supabaseUrl: string, backendUrl: string)

  datatype Fields = Fields(
    env: string, route: string, directive: string, disposition: string,
    sink: string, blocked: string, policy: string)

  datatype Report = Report(fields: Fields, sample: string)

  /** The text before the first `c`. */
  function Before(s: string, c: char): (r: string)
    ensures |r| <= |s| && r == s[..|r|] && c !in r && (|r| < |s| ==> s[|r|] == c)
  {
    if s == "" || s[0] == c then "" else [s[0]] + Before(s[1..], c)
  }

  function TextOf(fields: map<string, Json>, name: string): Option<string> {
    if name in fields && fields[name].Str? then Some(fields[name].text) else None
  }

  /** The first of the names that holds a text. */
  function First(fields: map<string, Json>, names: seq<string>): string {
    if names == [] then ""
    else if TextOf(fields, names[0]).Some? then TextOf(fields, names[0]).value
    else First(fields, names[1..])
  }

  function ClassifyHost(host: string, lib: Library, cfg: Settings): Option<string> {
    var allowed := AllowedHosts(lib, cfg);
    if host in lib.names.localHosts then
      if !cfg.production && host in allowed then Some("dev") else None
    else if host in allowed then Some("prod")
    else if cfg.preview("https://" + host) then Some("preview")
    else None
  }

  function OwnHosts(lib: Library, cfg: Settings): set<string> {
    {lib.urlsplit(cfg.supabaseUrl).host, lib.urlsplit(cfg.backendUrl).host}
  }

  function Blocked(text: string, docHost: string, lib: Library, cfg: Settings): string {
    var raw := lib.strip(text);
    if raw in lib.names.keywords then raw
    else
      var parts := lib.urlsplit(raw);
      var scheme := lib.lower(Before(raw, ':'));
      if scheme in lib.names.schemes then (if scheme in lib.names.schemeNames then scheme else "other")
      else if parts.scheme !in lib.names.netSchemes || parts.host == "" then ""
      else if parts.host == docHost then "self"
      else if parts.host in lib.names.knownHosts + OwnHosts(lib, cfg) then parts.host
      else "other"
  }

  function Closed(name: string, known: set<string>): string {
    if name == "" then "" else if name in known then name else "other"
  }

  function BodyOf(fields: map<string, Json>): Option<map<string, Json>> {
    if "csp-report" in fields && fields["csp-report"].Object? then Some(fields["csp-report"].fields)
    else if "body" in fields && fields["body"].Object? then Some(fields["body"].fields)
    else None
  }

  function DocumentOf(fields: map<string, Json>, body: map<string, Json>): string {
    var doc := First(body, ["documentURL", "document-uri", "documentUri"]);
    if doc != "" then doc else First(fields, ["url"])
  }

  function FieldsOf(url: Url, env: string, effective: string, body: map<string, Json>, lib: Library, cfg: Settings): Fields {
    var lowered := lib.lower(Before(effective, ' '));
    var directive := if lowered in lib.names.directives then lowered else "other";
    var sample := First(body, ["sample", "script-sample"]);
    Fields(env, Route(url.path, lib.wide), directive,
           if First(body, ["disposition"]) == "enforce" then "enforce" else "report",
           if directive == "require-trusted-types-for" then Closed(lib.sinkName(sample), lib.names.sinks) else "",
           Blocked(First(body, ["blockedURL", "blocked-uri", "blockedUri"]), url.host, lib, cfg),
           Closed(lib.policyName(sample), lib.names.policies))
  }

  function Normalise(raw: Json, lib: Library, cfg: Settings): Option<Report> {
    if !raw.Object? || BodyOf(raw.fields).None? then None
    else
      var body := BodyOf(raw.fields).value;
      var url := lib.urlsplit(DocumentOf(raw.fields, body));
      if url.scheme !in {"http", "https"} || url.host == "" then None
      else
        var env := ClassifyHost(url.host, lib, cfg);
        var effective := First(body, ["effectiveDirective", "effective-directive", "violatedDirective", "violated-directive"]);
        if env.None? || effective == "" then None
        else Some(Report(FieldsOf(url, env.value, effective, body, lib, cfg),
                         lib.scrub(First(body, ["sample", "script-sample"]))))
  }

  // ----- the closed sets -----

  function BlockedNames(lib: Library, cfg: Settings): set<string> {
    lib.names.keywords + lib.names.schemeNames + {"self", "other", ""} + lib.names.knownHosts + OwnHosts(lib, cfg)
  }

  const ENVS: set<string> := {"prod", "preview", "dev"}

  ghost predicate InClosedSets(f: Fields, lib: Library, cfg: Settings) {
    && f.env in ENVS
    && f.route in RouteSet()
    && f.directive in lib.names.directives + {"other"}
    && f.disposition in {"enforce", "report"}
    && f.sink in lib.names.sinks + {"other", ""}
    && f.blocked in BlockedNames(lib, cfg)
    && f.policy in lib.names.policies + {"other", ""}
  }

  lemma FieldsAreClosed(url: Url, env: string, effective: string, body: map<string, Json>, lib: Library, cfg: Settings)
    requires env in ENVS
    ensures InClosedSets(FieldsOf(url, env, effective, body, lib, cfg), lib, cfg)
  {
    RouteIsRoute(url.path, lib.wide);
    RoutesAreFinite(Route(url.path, lib.wide));
    BlockedIsClosed(First(body, ["blockedURL", "blocked-uri", "blockedUri"]), url.host, lib, cfg);
  }

  lemma HostIsClosed(host: string, lib: Library, cfg: Settings)
    ensures var env := ClassifyHost(host, lib, cfg);
      env.Some? ==>
        && env.value in ENVS
        && (env.value == "dev" <==> host in lib.names.localHosts)
        && (env.value == "dev" ==> !cfg.production)
        && (env.value == "preview" <==> host !in AllowedHosts(lib, cfg))
        && (env.value == "preview" ==> cfg.preview("https://" + host))
  {
  }

  /** Whatever a browser sends, the key of an accepted report lies in sets fixed by the constants and settings. */
  lemma AcceptedIsInClosedSets(raw: Json, lib: Library, cfg: Settings)
    ensures Normalise(raw, lib, cfg).Some? ==> InClosedSets(Normalise(raw, lib, cfg).value.fields, lib, cfg)
  {
    if Normalise(raw, lib, cfg).Some? {
      var body := BodyOf(raw.fields).value;
      var url := lib.urlsplit(DocumentOf(raw.fields, body));
      var effective := First(body, ["effectiveDirective", "effective-directive", "violatedDirective", "violated-directive"]);
      HostIsClosed(url.host, lib, cfg);
      FieldsAreClosed(url, ClassifyHost(url.host, lib, cfg).value, effective, body, lib, cfg);
    }
  }

  function AllowedHosts(lib: Library, cfg: Settings): set<string> {
    set o | o in cfg.origins :: lib.urlsplit(o).host
  }

  function Host(raw: Json, lib: Library): string
    requires raw.Object? && BodyOf(raw.fields).Some?
  {
    lib.urlsplit(DocumentOf(raw.fields, BodyOf(raw.fields).value)).host
  }

  /** The environment tells where an accepted report comes from; reports of foreign hosts, and of local ones in
      production, are dropped. A sink is only kept for the directive that has one. */
  lemma AcceptedOrigin(raw: Json, lib: Library, cfg: Settings)
    ensures Normalise(raw, lib, cfg).Some? ==>
      && raw.Object? && BodyOf(raw.fields).Some?
      && var host := Host(raw, lib); var f := Normalise(raw, lib, cfg).value.fields;
      && host != ""
      && (f.env == "dev" <==> host in lib.names.localHosts)
      && (f.env == "dev" ==> !cfg.production)
      && (f.env == "preview" <==> host !in AllowedHosts(lib, cfg))
      && (f.env == "preview" ==> cfg.preview("https://" + host))
      && (f.sink != "" ==> f.directive == "require-trusted-types-for")
  {
    if Normalise(raw, lib, cfg).Some? {
      HostIsClosed(Host(raw, lib), lib, cfg);
    }
  }

  lemma BlockedIsClosed(text: string, docHost: string, lib: Library, cfg: Settings)
    ensures Blocked(text, docHost, lib, cfg) in BlockedNames(lib, cfg)
  {
  }

  type Nested = ((((((string, string), string), string), string), string), string)

  function Nest(f: Fields): Nested {
    ((((((f.env, f.route), f.directive), f.disposition), f.sink), f.blocked), f.policy)
  }

  function Unnest(n: Nested): Fields {
    Fields(n.0.0.0.0.0.0, n.0.0.0.0.0.1, n.0.0.0.0.1, n.0.0.0.1, n.0.0.1, n.0.1, n.1)
  }

  lemma SizedPairs<A, B>(a: set<A>, b: set<B>, n: nat, m: nat)
    requires |a| <= n && |b| <= m
    ensures |Pairs(a, b)| <= n * m
  {
    PairsSize(a, b);
    assert |a| * |b| <= n * |b| <= n * m;
  }

  lemma ClosedSizes(lib: Library, cfg: Settings)
    requires lib.names == SHIPPED
    ensures |lib.names.directives + {"other"}| <= 28 && |lib.names.sinks + {"other", ""}| <= 20
    ensures |lib.names.policies + {"other", ""}| <= 11 && |BlockedNames(lib, cfg)| <= 25
  {
    ShippedSizes();
    BlockedSize(lib.names.keywords, lib.names.schemeNames, lib.names.knownHosts, OwnHosts(lib, cfg));
  }

  lemma BlockedSize(keywords: set<string>, schemes: set<string>, known: set<string>, own: set<string>)
    requires |keywords| <= 7 && |schemes| <= 3 && |known| <= 11 && |own| <= 2 && "self" in keywords
    ensures |keywords + schemes + {"self", "other", ""} + known + own| <= 25
  {
    assert keywords + schemes + {"self", "other", ""} == keywords + schemes + {"other", ""};
  }

  const MAX_KEYS: nat := 3 * 242 * 28 * 2 * 20 * 25 * 11

  ghost function ClosedTuples(lib: Library, cfg: Settings): set<Nested> {
    Pairs(Pairs(Pairs(Pairs(Pairs(Pairs(ENVS, RouteSet()), lib.names.directives + {"other"}), {"enforce", "report"}),
                      lib.names.sinks + {"other", ""}),
                BlockedNames(lib, cfg)),
          lib.names.policies + {"other", ""})
  }

  lemma ClosedTuplesSize(lib: Library, cfg: Settings)
    requires lib.names == SHIPPED
    ensures |ClosedTuples(lib, cfg)| <= MAX_KEYS
  {
    RouteSetSize();
    ClosedSizes(lib, cfg);
    SevenFactors(ENVS, RouteSet(), lib.names.directives + {"other"}, {"enforce", "report"}, lib.names.sinks + {"other", ""},
               BlockedNames(lib, cfg), lib.names.policies + {"other", ""});
  }

  lemma SevenFactors(a: set<string>, b: set<string>, c: set<string>, d: set<string>, e: set<string>, f: set<string>, g: set<string>)
    requires |a| <= 3 && |b| <= 242 && |c| <= 28 && |d| <= 2 && |e| <= 20 && |f| <= 25 && |g| <= 11
    ensures |Pairs(Pairs(Pairs(Pairs(Pairs(Pairs(a, b), c), d), e), f), g)| <= MAX_KEYS
  {
    SizedPairs(a, b, 3, 242);
    SizedPairs(Pairs(a, b), c, 3 * 242, 28);
    SizedPairs(Pairs(Pairs(a, b), c), d, 3 * 242 * 28, 2);
    SizedPairs(Pairs(Pairs(Pairs(a, b), c), d), e, 3 * 242 * 28 * 2, 20);
    SizedPairs(Pairs(Pairs(Pairs(Pairs(a, b), c), d), e), f, 3 * 242 * 28 * 2 * 20, 25);
    SizedPairs(Pairs(Pairs(Pairs(Pairs(Pairs(a, b), c), d), e), f), g, 3 * 242 * 28 * 2 * 20 * 25, 11);
  }

  /** Keys in the closed sets are at most the product of the sizes of these sets. */
  lemma ClosedKeysAreFew(keys: set<Fields>, lib: Library, cfg: Settings)
    requires lib.names == SHIPPED && forall f :: f in keys ==> InClosedSets(f, lib, cfg)
    ensures |keys| <= MAX_KEYS
  {
    var tuples := ClosedTuples(lib, cfg);
    ClosedTuplesSize(lib, cfg);
    ImageSize(tuples, Unnest);
    forall f | f in keys ensures f in Image(tuples, Unnest) {
      assert Unnest(Nest(f)) == f;
    }
    SubsetSize(keys, Image(tuples, Unnest));
  }

  // ----- the table -----

  datatype Key = Key(day: int, fields: Fields)
  datatype Row = Row(count: nat, sample: string)
  type Table = map<Key, Row>

  /** insert ... on conflict do update: only the count of a row that is there changes. */
  function Upsert(t: Table, k: Key, sample: string): Table {
    if k in t then t[k := t[k].(count := t[k].count + 1)] else t[k := Row(1, sample)]
  }

  function StoreAll(t: Table, day: int, reports: seq<Report>): Table {
    var n := |reports|;
    if n == 0 then t
    else Upsert(StoreAll(t, day, reports[..n - 1]), Key(day, reports[n - 1].fields), reports[n - 1].sample)
  }

  function CountOf(t: Table, k: Key): nat {
    if k in t then t[k].count else 0
  }

  function KeysOf(day: int, reports: seq<Report>): seq<Key> {
    var n := |reports|;
    if n == 0 then [] else KeysOf(day, reports[..n - 1]) + [Key(day, reports[n - 1].fields)]
  }

  /** Each key is counted once for each report that has it, and rows appear for exactly the reported keys. */
  lemma {:induction false} CountIsMultiplicity(t: Table, day: int, reports: seq<Report>, k: Key)
    ensures var after := StoreAll(t, day, reports);
      && CountOf(after, k) == CountOf(t, k) + multiset(KeysOf(day, reports))[k]
      && (k in after <==> k in t || k in KeysOf(day, reports))
  {
    if reports != [] {
      CountIsMultiplicity(t, day, reports[..|reports| - 1], k);
    }
  }

  /** Reports of a day stored in any order give the same keys with the same counts. */
  lemma OrderDoesNotMatter(t: Table, day: int, first: seq<Report>, second: seq<Report>)
    requires multiset(KeysOf(day, first)) == multiset(KeysOf(day, second))
    ensures var a, b := StoreAll(t, day, first), StoreAll(t, day, second);
      a.Keys == b.Keys && forall k :: k in a ==> a[k].count == b[k].count
  {
    var a, b := StoreAll(t, day, first), StoreAll(t, day, second);
    forall k ensures CountOf(a, k) == CountOf(b, k) && (k in a <==> k in b) {
      CountIsMultiplicity(t, day, first, k);
      CountIsMultiplicity(t, day, second, k);
      assert k in KeysOf(day, first) <==> k in multiset(KeysOf(day, first));
      assert k in KeysOf(day, second) <==> k in multiset(KeysOf(day, second));
    }
    forall k | k in a ensures a[k].count == b[k].count {
      assert CountOf(a, k) == CountOf(b, k);
    }
  }

  /** The sample of a row is the one it was created with. */
  lemma {:induction false} FirstSampleIsKept(t: Table, day: int, reports: seq<Report>, i: nat)
    requires i < |reports| && forall j :: 0 <= j < i ==> reports[j].fields != reports[i].fields
    ensures var k := Key(day, reports[i].fields); var after := StoreAll(t, day, reports);
      k in after && after[k].sample == if k in t then t[k].sample else reports[i].sample
  {
    var n := |reports| - 1;
    var k := Key(day, reports[i].fields);
    if i < n {
      FirstSampleIsKept(t, day, reports[..n], i);
    } else {
      NotStored(t, day, reports[..n], k);
    }
  }

  lemma {:induction false} NotStored(t: Table, day: int, reports: seq<Report>, k: Key)
    requires forall j :: 0 <= j < |reports| ==> Key(day, reports[j].fields) != k
    ensures Lookup(StoreAll(t, day, reports), k) == Lookup(t, k)
  {
    if reports != [] {
      NotStored(t, day, reports[..|reports| - 1], k);
    }
  }

  ghost function Total(t: Table): nat {
    if t == map[] then 0 else
      var k :| k in t;
      t[k].count + Total(t - {k})
  }

  lemma {:induction false} TotalWithout(t: Table, k: Key)
    requires k in t
    ensures Total(t) == t[k].count + Total(t - {k})
    decreases |t|
  {
    var p :| p in t && Total(t) == t[p].count + Total(t - {p});
    if p != k {
      TotalWithout(t - {p}, k);
      TotalWithout(t - {k}, p);
      assert t - {p} - {k} == t - {k} - {p};
    }
  }

  lemma UpsertTotal(t: Table, k: Key, sample: string)
    ensures Total(Upsert(t, k, sample)) == Total(t) + 1
  {
    var after := Upsert(t, k, sample);
    TotalWithout(after, k);
    if k in t {
      TotalWithout(t, k);
      assert after - {k} == t - {k};
    } else {
      assert after - {k} == t;
    }
  }

  /** The counts of the table grow by exactly the number of reports stored. */
  lemma {:induction false} StoreAllTotal(t: Table, day: int, reports: seq<Report>)
    ensures Total(StoreAll(t, day, reports)) == Total(t) + |reports|
  {
    if reports != [] {
      var n := |reports| - 1;
      StoreAllTotal(t, day, reports[..n]);
      UpsertTotal(StoreAll(t, day, reports[..n]), Key(day, reports[n].fields), reports[n].sample);
    }
  }

  // ----- the hourly budget -----

  const HOURLY_UPSERT_CAP: nat := 500
  const MAX_REPORTS: nat := 10

  /** The hour it is for, and the upserts taken from it. */
  datatype Budget = Budget(hour: int, used: nat)

  function Hour(now: real): int {
    (now / 3600.0).Floor
  }

  function TakeBudget(b: Budget, n: nat, now: real): (Budget, bool) {
    var current := if b.hour != Hour(now) then Budget(Hour(now), 0) else b;
    if current.used + n > HOURLY_UPSERT_CAP then (current, false)
    else (current.(used := current.used + n), true)
  }

  function Parse(payload: Option<Json>, lib: Library, cfg: Settings): seq<Report> {
    if payload.None? then []
    else
      var items := if payload.value.List? then payload.value.items else [payload.value];
      NormaliseAll(if |items| > MAX_REPORTS then items[..MAX_REPORTS] else items, lib, cfg)
  }

  function NormaliseAll(items: seq<Json>, lib: Library, cfg: Settings): (r: seq<Report>)
    ensures |r| <= |items|
  {
    var n := |items|;
    if n == 0 then []
    else
      var front := NormaliseAll(items[..n - 1], lib, cfg);
      match Normalise(items[n - 1], lib, cfg)
      case None => front
      case Some(report) => front + [report]
  }

  /** One request body; `payload` is None when it is not JSON, `commits` is false when the database fails. */
  datatype Post = Post(payload: Option<Json>, day: int, now: real, commits: bool)

  datatype State = State(budget: Budget, table: Table)

  const START: State := State(Budget(0, 0), map[])

  function Store(s: State, reports: seq<Report>, p: Post): State {
    if reports == [] then s
    else
      var (budget, taken) := TakeBudget(s.budget, |reports|, p.now);
      State(budget, if taken && p.commits then StoreAll(s.table, p.day, reports) else s.table)
  }

  function Receive(s: State, p: Post, lib: Library, cfg: Settings): State {
    Store(s, Parse(p.payload, lib, cfg), p)
  }

  function After(posts: seq<Post>, lib: Library, cfg: Settings): State {
    var n := |posts|;
    if n == 0 then START else Receive(After(posts[..n - 1], lib, cfg), posts[n - 1], lib, cfg)
  }

  // ----- what the budget lets through -----

  /** The upserts a post is granted after the posts before it. */
  function Granted(before: seq<Post>, p: Post, lib: Library, cfg: Settings): nat {
    var n := |Parse(p.payload, lib, cfg)|;
    if n > 0 && TakeBudget(After(before, lib, cfg).budget, n, p.now).1 then n else 0
  }

  function GrantedInHour(posts: seq<Post>, hour: int, lib: Library, cfg: Settings): nat {
    var n := |posts|;
    if n == 0 then 0
    else
      GrantedInHour(posts[..n - 1], hour, lib, cfg)
      + if Hour(posts[n - 1].now) == hour then Granted(posts[..n - 1], posts[n - 1], lib, cfg) else 0
  }

  /** What is granted from `start` to 3600 seconds later, both included. */
  function GrantedFrom(posts: seq<Post>, start: real, lib: Library, cfg: Settings): nat {
    var n := |posts|;
    if n == 0 then 0
    else
      GrantedFrom(posts[..n - 1], start, lib, cfg)
      + if start <= posts[n - 1].now <= start + 3600.0 then Granted(posts[..n - 1], posts[n - 1], lib, cfg) else 0
  }

  function GrantedAndStored(posts: seq<Post>, lib: Library, cfg: Settings): nat {
    var n := |posts|;
    if n == 0 then 0
    else
      GrantedAndStored(posts[..n - 1], lib, cfg)
      + if posts[n - 1].commits then Granted(posts[..n - 1], posts[n - 1], lib, cfg) else 0
  }

  /** Once left, a clock hour does not come back. */
  ghost predicate HoursPass(posts: seq<Post>) {
    forall i, j, k :: 0 <= i < j < k < |posts| && Hour(posts[i].now) == Hour(posts[k].now) ==>
      Hour(posts[j].now) == Hour(posts[i].now)
  }

  /** So it is, in particular, while the clock does not step back. */
  lemma ForwardClockPasses(posts: seq<Post>)
    requires forall i, j :: 0 <= i < j < |posts| ==> posts[i].now <= posts[j].now
    ensures HoursPass(posts)
  {
    forall i, j, k | 0 <= i < j < k < |posts| && Hour(posts[i].now) == Hour(posts[k].now)
      ensures Hour(posts[j].now) == Hour(posts[i].now)
    {
    }
  }

  /** Hour `hour` has passed: some post came in it, and a later one in another. */
  ghost predicate Passed(posts: seq<Post>, hour: int) {
    exists i, j :: 0 <= i < j < |posts| && Hour(posts[i].now) == hour && Hour(posts[j].now) != hour
  }

  ghost predicate Agrees(b: Budget, posts: seq<Post>, lib: Library, cfg: Settings) {
    && b.used == GrantedInHour(posts, b.hour, lib, cfg) <= HOURLY_UPSERT_CAP
    && (b.used > 0 ==> Came(posts, b.hour))
  }

  /** No hour was granted more than the cap, and hours other than the budget's were granted nothing or passed. */
  ghost predicate WithinCap(b: Budget, posts: seq<Post>, lib: Library, cfg: Settings, hour: int) {
    && GrantedInHour(posts, hour, lib, cfg) <= HOURLY_UPSERT_CAP
    && (hour != b.hour && GrantedInHour(posts, hour, lib, cfg) > 0 ==> Passed(posts, hour))
  }

  lemma PassedStays(posts: seq<Post>, last: Post, hour: int)
    requires Passed(posts, hour)
    ensures Passed(posts + [last], hour)
  {
    var i, j :| 0 <= i < j < |posts| && Hour(posts[i].now) == hour && Hour(posts[j].now) != hour;
    assert (posts + [last])[i] == posts[i] && (posts + [last])[j] == posts[j];
  }

  lemma LeftNow(posts: seq<Post>, last: Post, i: nat)
    requires i < |posts| && Hour(posts[i].now) != Hour(last.now)
    ensures Passed(posts + [last], Hour(posts[i].now))
  {
    var all := posts + [last];
    assert all[i] == posts[i] && all[|posts|] == last;
  }

  /** A passed hour does not come back. */
  lemma NoReturn(posts: seq<Post>, last: Post)
    requires HoursPass(posts + [last])
    ensures !Passed(posts, Hour(last.now))
  {
    var all := posts + [last];
    assert all[|posts|] == last && forall i :: 0 <= i < |posts| ==> all[i] == posts[i];
  }

  ghost predicate Came(posts: seq<Post>, hour: int) {
    exists i :: 0 <= i < |posts| && Hour(posts[i].now) == hour
  }

  lemma CameBefore(posts: seq<Post>, last: Post, hour: int)
    ensures Came(posts, hour) ==> Came(posts + [last], hour) && (hour != Hour(last.now) ==> Passed(posts + [last], hour))
    ensures Came(posts + [last], Hour(last.now))
  {
    var all := posts + [last];
    assert all[|posts|] == last;
    if i :| 0 <= i < |posts| && Hour(posts[i].now) == hour {
      assert all[i] == posts[i];
      if hour != Hour(last.now) { LeftNow(posts, last, i); }
    }
  }

  lemma EmptyStep(front: seq<Post>, last: Post, b: Budget, lib: Library, cfg: Settings, hour: int)
    requires b == After(front, lib, cfg).budget && Agrees(b, front, lib, cfg) && WithinCap(b, front, lib, cfg, hour)
    requires Parse(last.payload, lib, cfg) == []
    ensures After(front + [last], lib, cfg).budget == b
    ensures Agrees(b, front + [last], lib, cfg) && WithinCap(b, front + [last], lib, cfg, hour)
  {
    CameBefore(front, last, b.hour);
    if Passed(front, hour) { PassedStays(front, last, hour); }
  }

  /** What a post with reports does to the counts. */
  lemma GrantedCounts(front: seq<Post>, last: Post, b: Budget, lib: Library, cfg: Settings, hour: int)
    requires b == After(front, lib, cfg).budget && Agrees(b, front, lib, cfg) && HoursPass(front + [last])
    requires WithinCap(b, front, lib, cfg, hour) && WithinCap(b, front, lib, cfg, Hour(last.now))
    requires Parse(last.payload, lib, cfg) != []
    ensures var all := front + [last];
      var after := After(all, lib, cfg).budget;
      && after.hour == Hour(last.now) && after.used == GrantedInHour(all, after.hour, lib, cfg) <= HOURLY_UPSERT_CAP
      && GrantedInHour(all, hour, lib, cfg) <= HOURLY_UPSERT_CAP
      && (hour != after.hour ==> GrantedInHour(all, hour, lib, cfg) == GrantedInHour(front, hour, lib, cfg))
  {
    var n := |Parse(last.payload, lib, cfg)|;
    NoReturn(front, last);
  }

  lemma GrantStep(front: seq<Post>, last: Post, b: Budget, lib: Library, cfg: Settings, hour: int)
    requires b == After(front, lib, cfg).budget && Agrees(b, front, lib, cfg) && HoursPass(front + [last])
    requires WithinCap(b, front, lib, cfg, hour) && WithinCap(b, front, lib, cfg, Hour(last.now))
    requires Parse(last.payload, lib, cfg) != []
    ensures Agrees(After(front + [last], lib, cfg).budget, front + [last], lib, cfg)
    ensures WithinCap(After(front + [last], lib, cfg).budget, front + [last], lib, cfg, hour)
  {
    GrantedCounts(front, last, b, lib, cfg, hour);
    CameBefore(front, last, b.hour);
    if Passed(front, hour) { PassedStays(front, last, hour); }
  }

  lemma FrontPasses(posts: seq<Post>, last: Post)
    requires HoursPass(posts + [last])
    ensures HoursPass(posts)
  {
    var all := posts + [last];
    assert forall i :: 0 <= i < |posts| ==> all[i] == posts[i];
  }

  /** The budget holds what was granted in its hour, hours that were granted something are this one or have passed,
      and no hour was granted more than the cap. */
  lemma {:induction false} BudgetIsGranted(posts: seq<Post>, lib: Library, cfg: Settings, hour: int)
    requires HoursPass(posts)
    ensures var b := After(posts, lib, cfg).budget; Agrees(b, posts, lib, cfg) && WithinCap(b, posts, lib, cfg, hour)
    decreases |posts|
  {
    if posts != [] {
      var n := |posts| - 1;
      var front, last := posts[..n], posts[n];
      var b := After(front, lib, cfg).budget;
      assert posts == front + [last];
      FrontPasses(front, last);
      BudgetIsGranted(front, lib, cfg, hour);
      BudgetIsGranted(front, lib, cfg, Hour(last.now));
      if Parse(last.payload, lib, cfg) == [] {
        EmptyStep(front, last, b, lib, cfg, hour);
      } else {
        GrantStep(front, last, b, lib, cfg, hour);
      }
    }
  }

  /** A post with reports is refused exactly when they and what its hour was granted before exceed the cap. */
  lemma RefusedExactly(posts: seq<Post>, p: Post, lib: Library, cfg: Settings)
    requires HoursPass(posts + [p])
    ensures var n := |Parse(p.payload, lib, cfg)|;
      n > 0 ==>
        (Granted(posts, p, lib, cfg) == 0 <==> GrantedInHour(posts, Hour(p.now), lib, cfg) + n > 500)
  {
    FrontPasses(posts, p);
    BudgetIsGranted(posts, lib, cfg, Hour(p.now));
    NoReturn(posts, p);
  }

  /** An hour is 3600 seconds long. */
  lemma HourIs(now: real)
    ensures Hour(now) as real * 3600.0 <= now < (Hour(now) + 1) as real * 3600.0
  {
    var q := now / 3600.0;
    assert q.Floor as real <= q < q.Floor as real + 1.0;
  }

  lemma TwoHours(start: real, now: real)
    requires start <= now <= start + 3600.0
    ensures Hour(now) == Hour(start) || Hour(now) == Hour(start) + 1
  {
    assert (start + 3600.0) / 3600.0 == start / 3600.0 + 1.0;
  }

  lemma {:induction false} FromIsTwoHours(posts: seq<Post>, start: real, lib: Library, cfg: Settings)
    ensures GrantedFrom(posts, start, lib, cfg)
         <= GrantedInHour(posts, Hour(start), lib, cfg) + GrantedInHour(posts, Hour(start) + 1, lib, cfg)
  {
    if posts != [] {
      var n := |posts| - 1;
      FromIsTwoHours(posts[..n], start, lib, cfg);
      if start <= posts[n].now <= start + 3600.0 {
        TwoHours(start, posts[n].now);
      }
    }
  }

  /** While hours do not come back: at most 500 upserts in a clock hour and 1000 in any 3600 seconds, whatever is
      posted. */
  lemma UpsertsAreBounded(posts: seq<Post>, hour: int, start: real, lib: Library, cfg: Settings)
    requires HoursPass(posts)
    ensures GrantedInHour(posts, hour, lib, cfg) <= 500
    ensures GrantedFrom(posts, start, lib, cfg) <= 1000
  {
    BudgetIsGranted(posts, lib, cfg, hour);
    BudgetIsGranted(posts, lib, cfg, Hour(start));
    BudgetIsGranted(posts, lib, cfg, Hour(start) + 1);
    FromIsTwoHours(posts, start, lib, cfg);
  }

  /** A call in between refills a used-up budget exactly when it is dated into another hour. */
  lemma SteppingClockRefills(b: Budget, n: nat, m: nat, elsewhere: real, now: real)
    requires b.hour == Hour(now) && b.used + n > HOURLY_UPSERT_CAP && n <= HOURLY_UPSERT_CAP
    ensures !TakeBudget(b, n, now).1
    ensures TakeBudget(TakeBudget(b, m, elsewhere).0, n, now).1 <==> Hour(elsewhere) != Hour(now)
  {
  }

  // ----- the table over runs -----

  ghost predicate KeysAreClosed(t: Table, lib: Library, cfg: Settings) {
    forall k :: k in t ==> InClosedSets(k.fields, lib, cfg)
  }

  lemma {:induction false} ReportsAreClosed(items: seq<Json>, lib: Library, cfg: Settings)
    ensures forall r :: r in NormaliseAll(items, lib, cfg) ==> InClosedSets(r.fields, lib, cfg)
  {
    if items != [] {
      var n := |items| - 1;
      ReportsAreClosed(items[..n], lib, cfg);
      AcceptedIsInClosedSets(items[n], lib, cfg);
    }
  }

  lemma ParsedAreClosed(payload: Option<Json>, lib: Library, cfg: Settings)
    ensures forall r :: r in Parse(payload, lib, cfg) ==> InClosedSets(r.fields, lib, cfg)
  {
    if payload.Some? {
      var items := if payload.value.List? then payload.value.items else [payload.value];
      ReportsAreClosed(if |items| > MAX_REPORTS then items[..MAX_REPORTS] else items, lib, cfg);
    }
  }

  lemma {:induction false} StoreKeepsClosed(t: Table, day: int, reports: seq<Report>, lib: Library, cfg: Settings)
    requires KeysAreClosed(t, lib, cfg) && forall r :: r in reports ==> InClosedSets(r.fields, lib, cfg)
    ensures KeysAreClosed(StoreAll(t, day, reports), lib, cfg)
  {
    if reports != [] {
      StoreKeepsClosed(t, day, reports[..|reports| - 1], lib, cfg);
    }
  }

  lemma {:induction false} TableIsClosed(posts: seq<Post>, lib: Library, cfg: Settings)
    ensures KeysAreClosed(After(posts, lib, cfg).table, lib, cfg)
  {
    if posts != [] {
      var n := |posts| - 1;
      TableIsClosed(posts[..n], lib, cfg);
      var p := posts[n];
      ParsedAreClosed(p.payload, lib, cfg);
      StoreKeepsClosed(After(posts[..n], lib, cfg).table, p.day, Parse(p.payload, lib, cfg), lib, cfg);
    }
  }

  function KeyOn(day: int): Fields -> Key {
    f => Key(day, f)
  }

  /** Whatever is posted, a day has at most MAX_KEYS rows. */
  lemma DayIsBounded(posts: seq<Post>, day: int, lib: Library, cfg: Settings)
    requires lib.names == SHIPPED
    ensures |set k | k in After(posts, lib, cfg).table && k.day == day| <= MAX_KEYS
  {
    var t := After(posts, lib, cfg).table;
    TableIsClosed(posts, lib, cfg);
    DayRows(t, day, lib, cfg);
  }

  lemma DayRows(t: Table, day: int, lib: Library, cfg: Settings)
    requires KeysAreClosed(t, lib, cfg) && lib.names == SHIPPED
    ensures |set k | k in t && k.day == day| <= MAX_KEYS
  {
    var rows := set k | k in t && k.day == day;
    var keys := set k | k in rows :: k.fields;
    ClosedKeysAreFew(keys, lib, cfg);
    ImageSize(keys, KeyOn(day));
    forall k | k in rows ensures k in Image(keys, KeyOn(day)) {
      assert k.fields in keys && KeyOn(day)(k.fields) == k;
    }
    SubsetSize(rows, Image(keys, KeyOn(day)));
  }

  /** The counts of the table add up to the reports stored. */
  lemma {:induction false} CountsAddUp(posts: seq<Post>, lib: Library, cfg: Settings)
    ensures Total(After(posts, lib, cfg).table) == GrantedAndStored(posts, lib, cfg)
  {
    if posts != [] {
      var n := |posts| - 1;
      CountsAddUp(posts[..n], lib, cfg);
      StoreAllTotal(After(posts[..n], lib, cfg).table, posts[n].day, Parse(posts[n].payload, lib, cfg));
    }
  }
}
