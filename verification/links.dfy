/**
 * The link-event filter of `checkDomain` (identical in index.js and index.mjs):
 * the crawler reports one event per link, and the callback keeps the BROKEN ones
 * as broken-link records, in the order the events arrive.
 */
module Links {
  import opened Wrappers

  /** The crawler's classification of a link. */
  datatype LinkState = OK | BROKEN | SKIPPED

  /** One `link` event of the crawler; `contentType` is `None` when the crawler gives none. */
  datatype LinkEvent = LinkEvent(url: string, state: LinkState, status: int, contentType: Option<string>)

  /** The record pushed for a broken link: `{source, page, error, assetType}`. */
  datatype BrokenLink = BrokenLink(source: string, page: string, error: int, assetType: string)

  /** What one crawl of a domain does: it throws, or it completes after emitting its events. */
  datatype CrawlOutcome = CrawlThrew | Crawled(events: seq<LinkEvent>)

  const Unknown: string := "unknown"

  /** JavaScript truthiness of an optional string: absent and empty are falsy. */
  predicate Truthy(s: Option<string>) {
    s.Some? && s.value != ""
  }

  /** `contentType || 'unknown'`. */
  function AssetType(contentType: Option<string>): (t: string)
    ensures t != ""
    ensures Truthy(contentType) ==> t == contentType.value
    ensures !Truthy(contentType) ==> t == Unknown
  {
    if Truthy(contentType) then contentType.value else Unknown
  }

  /** The record the callback pushes for a broken event seen while scanning `domain`. */
  function ToRecord(domain: string, e: LinkEvent): BrokenLink {
    BrokenLink(domain, e.url, e.status, AssetType(e.contentType))
  }

  /** The broken-link list after the callback has seen `events`, in arrival order. */
  function BrokenLinksOf(domain: string, events: seq<LinkEvent>): seq<BrokenLink> {
    if events == [] then []
    else
      var last := events[|events| - 1];
      BrokenLinksOf(domain, events[..|events| - 1]) + (if last.state == BROKEN then [ToRecord(domain, last)] else [])
  }

  /** Number of BROKEN events. */
  function BrokenCount(events: seq<LinkEvent>): nat {
    if events == [] then 0
    else BrokenCount(events[..|events| - 1]) + (if events[|events| - 1].state == BROKEN then 1 else 0)
  }

  /**
   * `checkDomain`: registers the link callback, runs the crawl, and returns the
   * collected list; `None` when the crawl throws (the exception propagates and
   * whatever was collected is lost).
   */
  method CheckDomain(domain: string, crawl: CrawlOutcome) returns (result: Option<seq<BrokenLink>>)
    ensures result.None? <==> crawl.CrawlThrew?
    ensures crawl.Crawled? ==> result == Some(BrokenLinksOf(domain, crawl.events))
  {
    match crawl {
      case CrawlThrew =>
        result := None;
      case Crawled(events) =>
        var brokenLinks: seq<BrokenLink> := [];
        for k := 0 to |events|
          invariant brokenLinks == BrokenLinksOf(domain, events[..k])
        {
          var link := events[k];
          assert events[..k + 1][..k] == events[..k];
          if link.state == BROKEN {
            brokenLinks := brokenLinks + [ToRecord(domain, link)];
          }
        }
        assert events[..|events|] == events;
        result := Some(brokenLinks);
    }
  }

  /** Order: the records of a later batch of events follow those of an earlier batch. */
  lemma {:induction false} BrokenLinksOfAppend(domain: string, a: seq<LinkEvent>, b: seq<LinkEvent>)
    ensures BrokenLinksOf(domain, a + b) == BrokenLinksOf(domain, a) + BrokenLinksOf(domain, b)
    decreases |b|
  {
    if b == [] {
      assert a + b == a;
    } else {
      var b' := b[..|b| - 1];
      assert (a + b)[..|a + b| - 1] == a + b';
      assert (a + b)[|a + b| - 1] == b[|b| - 1];
      BrokenLinksOfAppend(domain, a, b');
    }
  }

  /** A single event yields its record exactly when it is BROKEN. */
  lemma BrokenLinksOfSingle(domain: string, e: LinkEvent)
    ensures BrokenLinksOf(domain, [e]) == (if e.state == BROKEN then [ToRecord(domain, e)] else [])
  {
    assert [e][..0] == [];
  }

  /**
   * Exactly the BROKEN events are recorded: a record is in the list iff some
   * BROKEN event produced it, and every record names the scanned domain.
   */
  lemma {:induction false} BrokenLinksOfMembers(domain: string, events: seq<LinkEvent>, r: BrokenLink)
    ensures r in BrokenLinksOf(domain, events) <==> exists e :: e in events && e.state == BROKEN && r == ToRecord(domain, e)
    ensures r in BrokenLinksOf(domain, events) ==> r.source == domain
    decreases |events|
  {
    if events != [] {
      var init := events[..|events| - 1];
      var last := events[|events| - 1];
      assert events == init + [last];
      BrokenLinksOfMembers(domain, init, r);
      if r in BrokenLinksOf(domain, events) && r !in BrokenLinksOf(domain, init) {
        assert last.state == BROKEN && r == ToRecord(domain, last);
      }
      if exists e :: e in events && e.state == BROKEN && r == ToRecord(domain, e) {
        var e :| e in events && e.state == BROKEN && r == ToRecord(domain, e);
        if e != last {
          assert e in init;
        }
      }
    }
  }

  /** One record per BROKEN event: the list is never longer than the event stream. */
  lemma {:induction false} BrokenLinksOfLength(domain: string, events: seq<LinkEvent>)
    ensures |BrokenLinksOf(domain, events)| == BrokenCount(events) <= |events|
    decreases |events|
  {
    if events != [] {
      BrokenLinksOfLength(domain, events[..|events| - 1]);
    }
  }
}
