/**
 * `retryBrokenLinks`: walks the broken links in order; a link whose error is 0
 * is re-probed through `retryWithDelay` and takes the re-probe's status when
 * that status is not null; every other link is copied through unchanged.
 */
module Coordinator {
  import opened Wrappers
  import opened Links
  import opened Retry

  /** What one re-probe crawl of a single page does: it throws, or completes after emitting its events. */
  datatype ProbeOutcome = ProbeThrew | ProbeCompleted(events: seq<LinkEvent>)

  /**
   * The re-probe environment: `reprobe(k, i)` is what the i-th re-probe attempt
   * for the k-th link of the list does.
   */
  type Reprobe = (nat, nat) -> ProbeOutcome

  /** `retryStatus` once the callback has seen `events`: null before any event, then the latest event's status. */
  function LastStatus(events: seq<LinkEvent>): Option<int> {
    if events == [] then None else Some(events[|events| - 1].status)
  }

  /**
   * The re-probe's `link` callback, run over the events of one completed
   * re-probe. Both of its branches store the event's status (the BROKEN/0 branch
   * stores the literal 0, which is that status), so the value left behind is the
   * status of the last event reported, whatever its URL or state.
   */
  method OnReprobeEvents(events: seq<LinkEvent>) returns (retryStatus: Option<int>)
    ensures retryStatus.None? <==> events == []
    ensures events != [] ==> retryStatus == Some(events[|events| - 1].status)
  {
    retryStatus := None;
    for k := 0 to |events|
      invariant retryStatus == LastStatus(events[..k])
    {
      var result := events[k];
      if result.state == BROKEN && result.status == 0 {
        retryStatus := Some(0);
      } else {
        retryStatus := Some(result.status);
      }
    }
    assert events[..|events|] == events;
  }

  /** One invocation of the re-probe action: a throwing crawl throws, a completed one returns `retryStatus`. */
  function ReprobeAttempt(o: ProbeOutcome): Attempt<Option<int>> {
    match o
    case ProbeThrew => Threw
    case ProbeCompleted(events) => Returned(LastStatus(events))
  }

  /** The action handed to `retryWithDelay` for the k-th link. */
  function ReprobeAction(reprobe: Reprobe, k: nat): nat -> Attempt<Option<int>> {
    (i: nat) => ReprobeAttempt(reprobe(k, i))
  }

  /** The record `retryBrokenLinks` emits for one link, given its re-probe action. */
  function RetryOne(link: BrokenLink, action: nat -> Attempt<Option<int>>): (r: BrokenLink)
    ensures r.source == link.source && r.page == link.page && r.assetType == link.assetType
    ensures link.error != 0 ==> r == link
  {
    if link.error != 0 then link
    else
      var result: RetryResult<Option<int>> := RetryValue(action, MaxRetries);
      if result.Value? && result.value.Some? then link.(error := result.value.value) else link
  }

  /** The list `retryBrokenLinks` returns: one record per input link, at the same position. */
  function RetryAll(links: seq<BrokenLink>, reprobe: Reprobe): seq<BrokenLink> {
    seq(|links|, k requires 0 <= k < |links| => RetryOne(links[k], ReprobeAction(reprobe, k)))
  }

  /**
   * `retryBrokenLinks`. `probes[k]` counts the re-probe crawls started for the
   * k-th link: between one and `MaxRetries` for a status-0 link, every one but
   * the last having thrown; none for any other link.
   */
  method RetryBrokenLinks(brokenLinks: seq<BrokenLink>, reprobe: Reprobe) returns (retryResults: seq<BrokenLink>, probes: seq<nat>)
    ensures |retryResults| == |brokenLinks| == |probes|
    ensures forall k :: 0 <= k < |brokenLinks| ==> retryResults[k] == RetryOne(brokenLinks[k], ReprobeAction(reprobe, k))
    ensures forall k :: 0 <= k < |brokenLinks| && brokenLinks[k].error == 0 ==> 1 <= probes[k] <= MaxRetries
    ensures forall k :: 0 <= k < |brokenLinks| && brokenLinks[k].error != 0 ==> probes[k] == 0
    ensures forall k, j :: 0 <= k < |brokenLinks| && 0 <= j && j + 1 < probes[k] ==> reprobe(k, j).ProbeThrew?
  {
    retryResults, probes := [], [];
    for k := 0 to |brokenLinks|
      invariant |retryResults| == k == |probes|
      invariant forall j :: 0 <= j < k ==> retryResults[j] == RetryOne(brokenLinks[j], ReprobeAction(reprobe, j))
      invariant forall j :: 0 <= j < k && brokenLinks[j].error == 0 ==> 1 <= probes[j] <= MaxRetries
      invariant forall j :: 0 <= j < k && brokenLinks[j].error != 0 ==> probes[j] == 0
      invariant forall j, i :: 0 <= j < k && 0 <= i && i + 1 < probes[j] ==> reprobe(j, i).ProbeThrew?
    {
      var link := brokenLinks[k];
      if link.error == 0 {
        var retryResult, calls, _ := RetryWithDelay(ReprobeAction(reprobe, k), MaxRetries, DelayMs);
        forall i | 0 <= i < calls - 1 ensures reprobe(k, i).ProbeThrew? {
          assert ReprobeAction(reprobe, k)(i) == ReprobeAttempt(reprobe(k, i));
        }
        probes := probes + [calls];
        match retryResult {
          case Value(Some(status)) =>
            retryResults := retryResults + [link.(error := status)];
          case Value(None) =>
            retryResults := retryResults + [link];
          case Exhausted =>
            retryResults := retryResults + [link];
          case FellThrough =>
            assert false;
        }
      } else {
        probes := probes + [0];
        retryResults := retryResults + [link];
      }
    }
  }

  /**
   * Only the error code of a status-0 link can change, and only to a status some
   * re-probe attempt within the budget reported, all earlier attempts having thrown.
   */
  lemma {:induction false} RetryOneChangesOnlyError(link: BrokenLink, action: nat -> Attempt<Option<int>>)
    ensures var r := RetryOne(link, action);
      r != link ==>
        && link.error == 0
        && r == link.(error := r.error)
        && exists k :: 0 <= k < MaxRetries && action(k) == Returned(Some(r.error)) &&
             forall j :: 0 <= j < k ==> action(j).Threw?
  {
    var r := RetryOne(link, action);
    if r != link {
      RetryValueWitness(action, MaxRetries);
    }
  }

  /** A status-0 link whose every re-probe attempt throws keeps error 0. */
  lemma {:induction false} RetryOneAllThrewKeepsLink(link: BrokenLink, action: nat -> Attempt<Option<int>>)
    requires forall j :: 0 <= j < MaxRetries ==> action(j).Threw?
    ensures RetryOne(link, action) == link
  {
    RetryExhaustedIff(action, MaxRetries);
  }

  /**
   * A status-0 link whose attempts 0..k-1 throw and whose attempt k completes
   * takes the status that attempt reported, or stays as it is when that attempt
   * reported no event (null).
   */
  lemma {:induction false} RetryOneTakesFirstCompletedProbe(link: BrokenLink, reprobe: Reprobe, n: nat, k: nat)
    requires link.error == 0 && k < MaxRetries
    requires forall j :: 0 <= j < k ==> reprobe(n, j).ProbeThrew?
    requires reprobe(n, k).ProbeCompleted?
    ensures var events := reprobe(n, k).events;
      RetryOne(link, ReprobeAction(reprobe, n)) ==
        if events == [] then link else link.(error := events[|events| - 1].status)
  {
    var action := ReprobeAction(reprobe, n);
    forall j | 0 <= j < k ensures action(j).Threw? {
      assert action(j) == ReprobeAttempt(reprobe(n, j));
    }
    assert action(k) == ReprobeAttempt(reprobe(n, k));
    RetryReturnsFirstValue(action, MaxRetries, k);
  }

  /**
   * A re-probe that completes and reports status 0 again does not throw: retrying
   * stops at once and the record keeps error 0.
   */
  lemma {:induction false} ReprobeReportingZeroStops(link: BrokenLink, reprobe: Reprobe, n: nat)
    requires link.error == 0
    requires reprobe(n, 0).ProbeCompleted? && reprobe(n, 0).events != []
    requires reprobe(n, 0).events[|reprobe(n, 0).events| - 1].status == 0
    ensures RetryOne(link, ReprobeAction(reprobe, n)) == link
    ensures RetryValue(ReprobeAction(reprobe, n), MaxRetries) == Value(Some(0))
  {
    var action := ReprobeAction(reprobe, n);
    assert action(0) == ReprobeAttempt(reprobe(n, 0));
    RetryReturnsFirstValue(action, MaxRetries, 0);
  }
}
