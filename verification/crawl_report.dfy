/**
 * `processDomains` of index.js, the crawl-only pipeline: scan the domains one
 * after another, append each domain's broken links to one list, and hand the
 * list to the report writer only when it is non-empty.
 */
module CrawlReport {
  import opened Wrappers
  import opened Links

  /** A domain of the list together with what its crawl does. */
  datatype Scan = Scan(domain: string, crawl: CrawlOutcome)

  /** What a scan adds to the accumulator: nothing when the crawl throws. */
  function Found(s: Scan): seq<BrokenLink> {
    match s.crawl
    case CrawlThrew => []
    case Crawled(events) => BrokenLinksOf(s.domain, events)
  }

  /** `allBrokenLinks` after the loop has processed `scans`. */
  function AllBrokenLinks(scans: seq<Scan>): seq<BrokenLink> {
    if scans == [] then [] else AllBrokenLinks(scans[..|scans| - 1]) + Found(scans[|scans| - 1])
  }

  /**
   * `processDomains`: `allBrokenLinks` is the accumulated list and `report` the
   * list passed to the CSV writer, `None` when the writer is not called.
   */
  method ProcessDomains(scans: seq<Scan>) returns (allBrokenLinks: seq<BrokenLink>, report: Option<seq<BrokenLink>>)
    ensures allBrokenLinks == AllBrokenLinks(scans)
    ensures report.Some? <==> |allBrokenLinks| > 0
    ensures report.Some? ==> report.value == allBrokenLinks
  {
    allBrokenLinks := [];
    for i := 0 to |scans|
      invariant allBrokenLinks == AllBrokenLinks(scans[..i])
    {
      assert scans[..i + 1][..i] == scans[..i];
      var brokenLinks := CheckDomain(scans[i].domain, scans[i].crawl);
      if brokenLinks.Some? {
        if |brokenLinks.value| > 0 {
          allBrokenLinks := allBrokenLinks + brokenLinks.value;
        }
      }
    }
    assert scans[..|scans|] == scans;
    if |allBrokenLinks| > 0 {
      report := Some(allBrokenLinks);
    } else {
      report := None;
    }
  }

  /** The accumulated list is the concatenation, in domain-list order, of the per-domain lists. */
  lemma {:induction false} AllBrokenLinksAppend(a: seq<Scan>, b: seq<Scan>)
    ensures AllBrokenLinks(a + b) == AllBrokenLinks(a) + AllBrokenLinks(b)
    decreases |b|
  {
    if b == [] {
      assert a + b == a;
    } else {
      var b' := b[..|b| - 1];
      assert (a + b)[..|a + b| - 1] == a + b';
      assert (a + b)[|a + b| - 1] == b[|b| - 1];
      AllBrokenLinksAppend(a, b');
    }
  }

  /** A domain whose scan throws adds nothing, and the domains after it are still scanned. */
  lemma ThrowingScanAddsNothing(before: seq<Scan>, failed: Scan, after: seq<Scan>)
    requires failed.crawl.CrawlThrew?
    ensures AllBrokenLinks(before + [failed] + after) == AllBrokenLinks(before) + AllBrokenLinks(after)
  {
    var pre := before + [failed];
    assert pre[..|pre| - 1] == before;
    assert AllBrokenLinks(pre) == AllBrokenLinks(before) + Found(failed);
    assert AllBrokenLinks(pre) == AllBrokenLinks(before);
    AllBrokenLinksAppend(pre, after);
  }

  /**
   * Every accumulated record comes from a BROKEN event of a domain whose scan
   * completed, and carries that domain as its source.
   */
  lemma {:induction false} AllBrokenLinksOrigin(scans: seq<Scan>, r: BrokenLink)
    requires r in AllBrokenLinks(scans)
    ensures exists i :: 0 <= i < |scans| && scans[i].crawl.Crawled? && r.source == scans[i].domain &&
               exists e :: e in scans[i].crawl.events && e.state == BROKEN && r == ToRecord(scans[i].domain, e)
    decreases |scans|
  {
    var n := |scans| - 1;
    var init := scans[..n];
    if r in AllBrokenLinks(init) {
      AllBrokenLinksOrigin(init, r);
      var i :| 0 <= i < |init| && init[i].crawl.Crawled? && r.source == init[i].domain &&
        exists e :: e in init[i].crawl.events && e.state == BROKEN && r == ToRecord(init[i].domain, e);
      assert scans[i] == init[i];
    } else {
      assert r in Found(scans[n]);
      BrokenLinksOfMembers(scans[n].domain, scans[n].crawl.events, r);
    }
  }

  /**
   * Nothing is written exactly when no domain contributed a record: every scan
   * threw or reported no BROKEN event.
   */
  lemma {:induction false} NothingWrittenIff(scans: seq<Scan>)
    ensures AllBrokenLinks(scans) == [] <==> forall i :: 0 <= i < |scans| ==> Found(scans[i]) == []
    decreases |scans|
  {
    if scans != [] {
      var n := |scans| - 1;
      var init := scans[..n];
      NothingWrittenIff(init);
      assert AllBrokenLinks(scans) == AllBrokenLinks(init) + Found(scans[n]);
      assert forall i :: 0 <= i < n ==> init[i] == scans[i];
      if AllBrokenLinks(scans) == [] {
        assert |AllBrokenLinks(init)| + |Found(scans[n])| == 0;
      }
    }
  }
}
