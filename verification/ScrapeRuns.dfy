/** Scrapes at any moment of the poller's life. */
module ScrapeRuns {
  import opened Collections
  import opened VMStatsTypes
  import opened Polls
  import opened PollRuns
  import opened StatsCaches
  import opened Collectors
  import opened EmittedSamples
  import opened VMIReports

  ghost function Entry(r: Report): CachedStats {
    CachedStats(r.vmi, r.stats)
  }

  /** The sample is of the report's entry, carries its VMI's identity and node, and one of the polls supplied
      VMI and statistics together. */
  ghost predicate Accounted(log: seq<PollInput>, x: Sample, r: Report) {
    && EntrySample(r, x)
    && Identified(r, x) && r.vmi.node != ""
    && exists p :: 0 <= p < |log| && Supplied(log[p], r.vmi.namespace + "/" + r.vmi.name, Entry(r))
  }

  lemma SampleAccounted(max: nat, w: World, entries: seq<CachedStats>, keys: seq<string>, reports: seq<Report>, x: Sample)
    requires Reachable(max, w) && ListedBy(Shared(w), entries, keys) && ReportsOf(entries, reports)
    requires x in Scrape(reports)
    ensures exists r :: r in reports && Accounted(w.log, x, r)
  {
    var xss := seq(|reports|, i requires 0 <= i < |reports| => EntrySamples(reports[i]));
    InFlatten(xss, x);
    var i :| 0 <= i < |xss| && x in xss[i];
    var r, k := reports[i], keys[i];
    assert k in Shared(w) && Shared(w)[k] == Entry(r);
    Provenance(max, w, k);
    ReachableWellKeyed(max, w);
    EntryCarriesIdentity(r, x);
    EntryExact(r, x);
    assert r in reports && Accounted(w.log, x, r);
  }

  /** Between any two steps of any run, listing the cache in any order and reporting each entry with its
      runtime labels built in any order, a scrape emits no series twice exactly when no two devices of a cached
      VMI clash, and each sample is labelled with a VMI, and the node of that VMI, that some poll supplied the
      statistics for. */
  lemma ScrapeAtAnyMoment(max: nat, w: World, entries: seq<CachedStats>, keys: seq<string>, reports: seq<Report>)
    requires Reachable(max, w) && ListedBy(Shared(w), entries, keys) && ReportsOf(entries, reports)
    ensures NoDuplicates(Scrape(reports)) <==> NoneClashIn(Shared(w))
    ensures forall x :: x in Scrape(reports) ==> exists r :: r in reports && Accounted(w.log, x, r)
  {
    ReachableWellKeyed(max, w);
    ListedApart(Shared(w), entries, keys, reports);
    forall x | x in Scrape(reports) ensures exists r :: r in reports && Accounted(w.log, x, r) {
      SampleAccounted(max, w, entries, keys, reports, x);
    }
  }
}
