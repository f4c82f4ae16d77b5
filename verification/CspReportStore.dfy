/** The process-wide budget and the report table as they are updated (app/services/csp_report.py:76-90, 186-205). */
module CspReportStore {
  import opened Common
  import opened CspReports

  lemma OneMore(items: seq<Json>, i: nat, lib: Library, cfg: Settings)
    requires i < |items|
    ensures NormaliseAll(items[..i + 1], lib, cfg)
         == NormaliseAll(items[..i], lib, cfg)
            + match Normalise(items[i], lib, cfg) case None => [] case Some(report) => [report]
  {
    assert items[..i + 1][..i] == items[..i];
  }

  method NormaliseItems(items: seq<Json>, lib: Library, cfg: Settings) returns (reports: seq<Report>)
    ensures reports == NormaliseAll(items, lib, cfg)
  {
    reports := [];
    for i := 0 to |items|
      invariant reports == NormaliseAll(items[..i], lib, cfg)
    {
      OneMore(items, i, lib, cfg);
      var normalised := Normalise(items[i], lib, cfg);
      match normalised
      case None =>
      case Some(report) => reports := reports + [report];
    }
    assert items[..|items|] == items;
  }

  method ParsePayload(payload: Option<Json>, lib: Library, cfg: Settings) returns (reports: seq<Report>)
    ensures reports == Parse(payload, lib, cfg)
    ensures |reports| <= 10
  {
    if payload.None? {
      return [];
    }
    var items := if payload.value.List? then payload.value.items else [payload.value];
    if |items| > MAX_REPORTS {
      items := items[..MAX_REPORTS];
    }
    reports := NormaliseItems(items, lib, cfg);
  }

  class ReportStore {
    var hour: int
    var used: nat
    var table: Table

    ghost function Now(): State
      reads this
    {
      State(Budget(hour, used), table)
    }

    constructor ()
      ensures Now() == START
    {
      hour, used, table := 0, 0, map[];
    }

    method Take(n: nat, now: real) returns (taken: bool)
      modifies this`hour, this`used
      ensures (Now().budget, taken) == TakeBudget(old(Now().budget), n, now)
      ensures taken ==> used <= 500
    {
      if hour != Hour(now) {
        hour, used := Hour(now), 0;
      }
      if used + n > HOURLY_UPSERT_CAP {
        return false;
      }
      used := used + n;
      return true;
    }

    /** The upserts of a request are one transaction: when the database fails the table is as before, and the
        budget stays spent. */
    method StoreReports(reports: seq<Report>, p: Post)
      modifies this
      ensures Now() == CspReports.Store(old(Now()), reports, p)
      ensures Total(table) == Total(old(table))
        + if reports != [] && p.commits && TakeBudget(old(Now().budget), |reports|, p.now).1 then |reports| else 0
    {
      StoreAllTotal(table, p.day, reports);
      if reports == [] {
        return;
      }
      var taken := Take(|reports|, p.now);
      if !taken {
        return;
      }
      var pending := table;
      for i := 0 to |reports|
        invariant pending == StoreAll(table, p.day, reports[..i])
      {
        assert reports[..i + 1][..i] == reports[..i];
        pending := Upsert(pending, Key(p.day, reports[i].fields), reports[i].sample);
      }
      assert reports[..|reports|] == reports;
      if p.commits {
        table := pending;
      }
    }

    method ReceivePost(p: Post, lib: Library, cfg: Settings)
      modifies this
      ensures Now() == CspReports.Receive(old(Now()), p, lib, cfg)
      ensures old(KeysAreClosed(table, lib, cfg)) ==> KeysAreClosed(table, lib, cfg)
    {
      var reports := ParsePayload(p.payload, lib, cfg);
      ReceiveKeepsClosed(Now(), p, lib, cfg);
      StoreReports(reports, p);
    }
  }

  lemma ReceiveKeepsClosed(s: State, p: Post, lib: Library, cfg: Settings)
    ensures KeysAreClosed(s.table, lib, cfg) ==> KeysAreClosed(CspReports.Receive(s, p, lib, cfg).table, lib, cfg)
  {
    var reports := Parse(p.payload, lib, cfg);
    ParsedAreClosed(p.payload, lib, cfg);
    if KeysAreClosed(s.table, lib, cfg) {
      StoreKeepsClosed(s.table, p.day, reports, lib, cfg);
    }
  }
}
