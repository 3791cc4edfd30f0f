/**
 * `processDomains` of index.mjs, the combined pipeline: for each domain in turn,
 * crawl, re-probe the status-0 links, run Lighthouse for desktop and for
 * mobile, and append one row per retried link carrying both results; a domain
 * whose crawl throws is skipped. The rows go to the report writer only when
 * there is at least one.
 */
module CombinedReport {
  import opened Wrappers
  import opened Links
  import opened Coordinator
  import opened Lighthouse
  import CrawlReport

  /** A domain of the list together with what the external tools do for it. */
  datatype Site = Site(domain: string, crawl: CrawlOutcome, reprobe: Reprobe, desktop: AuditOutcome, mobile: AuditOutcome)

  /** One row of the combined report. */
  datatype Row = Row(
    source: string, page: string, error: int, assetType: string,
    desktopPerformanceScore: PerfScore, desktopIssues: string,
    mobilePerformanceScore: PerfScore, mobileIssues: string)

  /** The row pushed for one retried link of `domain`. */
  function MergeRow(domain: string, link: BrokenLink, desktop: PerformanceResult, mobile: PerformanceResult): Row {
    Row(domain, link.page, link.error, link.assetType,
        desktop.performanceScore, desktop.issues, mobile.performanceScore, mobile.issues)
  }

  /** The rows the `forEach` over the retried links pushes, one per link and in order. */
  function MergeRows(domain: string, links: seq<BrokenLink>, desktop: PerformanceResult, mobile: PerformanceResult): (rows: seq<Row>)
    ensures |rows| == |links|
    ensures forall j :: 0 <= j < |links| ==> rows[j] == MergeRow(domain, links[j], desktop, mobile)
  {
    if links == [] then []
    else MergeRows(domain, links[..|links| - 1], desktop, mobile) + [MergeRow(domain, links[|links| - 1], desktop, mobile)]
  }

  /** What one domain adds to `allResults`. */
  function SiteRows(site: Site, fmt: real -> string): seq<Row> {
    match site.crawl
    case CrawlThrew => []
    case Crawled(events) =>
      MergeRows(site.domain, RetryAll(BrokenLinksOf(site.domain, events), site.reprobe),
                PerformanceOf(Desktop, site.desktop, fmt), PerformanceOf(Mobile, site.mobile, fmt))
  }

  /** `allResults` after the loop has processed `sites`. */
  function AllRows(sites: seq<Site>, fmt: real -> string): seq<Row> {
    if sites == [] then [] else AllRows(sites[..|sites| - 1], fmt) + SiteRows(sites[|sites| - 1], fmt)
  }

  /** Number of domains whose crawl completed, each of which runs Lighthouse twice. */
  function CrawledCount(sites: seq<Site>): nat {
    if sites == [] then 0 else CrawledCount(sites[..|sites| - 1]) + (if sites[|sites| - 1].crawl.Crawled? then 1 else 0)
  }

  /**
   * One pass of the domain loop: the `try` block, which pushes the domain's rows
   * onto `allResults`, and its `catch`, which leaves it as it was when the crawl
   * throws. `audited` says whether the two Lighthouse runs were started.
   */
  method ProcessDomain(site: Site, fmt: real -> string, allResults: seq<Row>) returns (updated: seq<Row>, audited: bool)
    ensures audited <==> site.crawl.Crawled?
    ensures updated == allResults + SiteRows(site, fmt)
  {
    updated, audited := allResults, false;
    var brokenLinks := CheckDomain(site.domain, site.crawl);
    if brokenLinks.Some? {
      var retriedLinks, _ := RetryBrokenLinks(brokenLinks.value, site.reprobe);
      var desktop := RunLighthouse(Desktop, site.desktop, fmt);
      var mobile := RunLighthouse(Mobile, site.mobile, fmt);
      audited := true;
      for j := 0 to |retriedLinks|
        invariant updated == allResults + MergeRows(site.domain, retriedLinks[..j], desktop, mobile)
      {
        assert retriedLinks[..j + 1][..j] == retriedLinks[..j];
        updated := updated + [MergeRow(site.domain, retriedLinks[j], desktop, mobile)];
      }
      assert retriedLinks[..|retriedLinks|] == retriedLinks;
      SameRetriedRows(site, fmt, brokenLinks.value, retriedLinks);
    }
  }

  /**
   * `processDomains`: `allResults` is the accumulated list, `report` the list
   * passed to the CSV writer (`None` when it is not called) and `lighthouseRuns`
   * the number of Lighthouse runs started.
   */
  method ProcessDomains(sites: seq<Site>, fmt: real -> string)
    returns (allResults: seq<Row>, report: Option<seq<Row>>, lighthouseRuns: nat)
    ensures allResults == AllRows(sites, fmt)
    ensures report.Some? <==> |allResults| > 0
    ensures report.Some? ==> report.value == allResults
    ensures lighthouseRuns == 2 * CrawledCount(sites)
  {
    allResults, lighthouseRuns := [], 0;
    for i := 0 to |sites|
      invariant allResults == AllRows(sites[..i], fmt)
      invariant lighthouseRuns == 2 * CrawledCount(sites[..i])
    {
      assert sites[..i + 1][..i] == sites[..i];
      var audited;
      allResults, audited := ProcessDomain(sites[i], fmt, allResults);
      if audited {
        lighthouseRuns := lighthouseRuns + 2;
      }
    }
    assert sites[..|sites|] == sites;
    if |allResults| > 0 {
      report := Some(allResults);
    } else {
      report := None;
    }
  }

  /** The rows pushed for a completed crawl are the domain's `SiteRows`. */
  lemma SameRetriedRows(site: Site, fmt: real -> string, brokenLinks: seq<BrokenLink>, retriedLinks: seq<BrokenLink>)
    requires site.crawl.Crawled? && brokenLinks == BrokenLinksOf(site.domain, site.crawl.events)
    requires |retriedLinks| == |brokenLinks|
    requires forall k :: 0 <= k < |brokenLinks| ==> retriedLinks[k] == RetryOne(brokenLinks[k], ReprobeAction(site.reprobe, k))
    ensures SiteRows(site, fmt) ==
      MergeRows(site.domain, retriedLinks, PerformanceOf(Desktop, site.desktop, fmt), PerformanceOf(Mobile, site.mobile, fmt))
  {
    assert retriedLinks == RetryAll(brokenLinks, site.reprobe);
  }

  /** Rows are appended in domain-list order. */
  lemma {:induction false} AllRowsAppend(a: seq<Site>, b: seq<Site>, fmt: real -> string)
    ensures AllRows(a + b, fmt) == AllRows(a, fmt) + AllRows(b, fmt)
    decreases |b|
  {
    if b == [] {
      assert a + b == a;
    } else {
      var b' := b[..|b| - 1];
      assert (a + b)[..|a + b| - 1] == a + b';
      assert (a + b)[|a + b| - 1] == b[|b| - 1];
      AllRowsAppend(a, b', fmt);
    }
  }

  /** A domain whose crawl throws adds no rows, and the domains after it are still processed. */
  lemma ThrowingSiteAddsNothing(before: seq<Site>, failed: Site, after: seq<Site>, fmt: real -> string)
    requires failed.crawl.CrawlThrew?
    ensures AllRows(before + [failed] + after, fmt) == AllRows(before, fmt) + AllRows(after, fmt)
  {
    var pre := before + [failed];
    assert pre[..|pre| - 1] == before;
    assert AllRows(pre, fmt) == AllRows(before, fmt) + SiteRows(failed, fmt);
    AllRowsAppend(pre, after, fmt);
  }

  /**
   * Every row belongs to a domain whose crawl completed: it names that domain and
   * carries that domain's desktop and mobile results ('N/A' and the failure text
   * for a profile whose Lighthouse run failed).
   */
  lemma {:induction false} RowOrigin(sites: seq<Site>, fmt: real -> string, r: Row)
    requires r in AllRows(sites, fmt)
    ensures exists i :: 0 <= i < |sites| && sites[i].crawl.Crawled? && r.source == sites[i].domain &&
               r.desktopPerformanceScore == PerformanceOf(Desktop, sites[i].desktop, fmt).performanceScore &&
               r.desktopIssues == PerformanceOf(Desktop, sites[i].desktop, fmt).issues &&
               r.mobilePerformanceScore == PerformanceOf(Mobile, sites[i].mobile, fmt).performanceScore &&
               r.mobileIssues == PerformanceOf(Mobile, sites[i].mobile, fmt).issues
    decreases |sites|
  {
    var n := |sites| - 1;
    var init := sites[..n];
    assert AllRows(sites, fmt) == AllRows(init, fmt) + SiteRows(sites[n], fmt);
    if r in AllRows(init, fmt) {
      RowOrigin(init, fmt, r);
      var i :| 0 <= i < |init| && init[i].crawl.Crawled? && r.source == init[i].domain &&
               r.desktopPerformanceScore == PerformanceOf(Desktop, init[i].desktop, fmt).performanceScore &&
               r.desktopIssues == PerformanceOf(Desktop, init[i].desktop, fmt).issues &&
               r.mobilePerformanceScore == PerformanceOf(Mobile, init[i].mobile, fmt).performanceScore &&
               r.mobileIssues == PerformanceOf(Mobile, init[i].mobile, fmt).issues;
      assert init[i] == sites[i];
    } else {
      var rows := SiteRows(sites[n], fmt);
      assert r in rows;
      var j :| 0 <= j < |rows| && rows[j] == r;
      assert sites[n].crawl.Crawled?;
    }
  }

  /** The crawl-only view of the same domains: each domain with its crawl. */
  function ScansOf(sites: seq<Site>): seq<CrawlReport.Scan> {
    seq(|sites|, i requires 0 <= i < |sites| => CrawlReport.Scan(sites[i].domain, sites[i].crawl))
  }

  /**
   * A row list matches a broken-link list position by position: same source,
   * page and asset type, and the same error code wherever that code was not 0.
   */
  ghost predicate Matches(rows: seq<Row>, links: seq<BrokenLink>) {
    |rows| == |links| &&
    forall j :: 0 <= j < |rows| ==>
      rows[j].source == links[j].source && rows[j].page == links[j].page &&
      rows[j].assetType == links[j].assetType && (links[j].error != 0 ==> rows[j].error == links[j].error)
  }

  lemma MatchesAppend(rows1: seq<Row>, links1: seq<BrokenLink>, rows2: seq<Row>, links2: seq<BrokenLink>)
    requires Matches(rows1, links1) && Matches(rows2, links2)
    ensures Matches(rows1 + rows2, links1 + links2)
  {
    var rows, links := rows1 + rows2, links1 + links2;
    forall j | 0 <= j < |rows|
      ensures rows[j].source == links[j].source && rows[j].page == links[j].page &&
              rows[j].assetType == links[j].assetType && (links[j].error != 0 ==> rows[j].error == links[j].error)
    {
      if j < |rows1| {
        assert rows[j] == rows1[j] && links[j] == links1[j];
      } else {
        assert rows[j] == rows2[j - |rows1|] && links[j] == links2[j - |rows1|];
      }
    }
  }

  lemma SiteRowsMatch(site: Site, fmt: real -> string)
    ensures Matches(SiteRows(site, fmt), CrawlReport.Found(CrawlReport.Scan(site.domain, site.crawl)))
  {
    if site.crawl.Crawled? {
      var links := BrokenLinksOf(site.domain, site.crawl.events);
      var rows := SiteRows(site, fmt);
      forall j | 0 <= j < |links| ensures links[j].source == site.domain {
        BrokenLinksOfMembers(site.domain, site.crawl.events, links[j]);
      }
    }
  }

  /**
   * The combined report has exactly one row per record the crawl-only pipeline
   * would accumulate for the same domains and crawls, in the same order, with the
   * same source, page and asset type; only a status-0 record's error can differ.
   */
  lemma {:induction false} CombinedMatchesCrawlOnly(sites: seq<Site>, fmt: real -> string)
    ensures Matches(AllRows(sites, fmt), CrawlReport.AllBrokenLinks(ScansOf(sites)))
    decreases |sites|
  {
    if sites != [] {
      var n := |sites| - 1;
      var init := sites[..n];
      var scans := ScansOf(sites);
      assert scans[..n] == ScansOf(init);
      assert scans[n] == CrawlReport.Scan(sites[n].domain, sites[n].crawl);
      CombinedMatchesCrawlOnly(init, fmt);
      SiteRowsMatch(sites[n], fmt);
      MatchesAppend(AllRows(init, fmt), CrawlReport.AllBrokenLinks(ScansOf(init)),
                    SiteRows(sites[n], fmt), CrawlReport.Found(scans[n]));
    }
  }
}
