/**
 * The Lighthouse side of index.mjs: `parseLighthouseIssues`, which turns the
 * audit map into an issue summary, and the catch-fallbacks of
 * `runLighthouseDesktop` / `runLighthouseMobile`. The auditor's run and the
 * JSON parsing are the input `AuditOutcome`; turning a number into text is the
 * parameter `fmt`.
 */
module Lighthouse {
  import opened Wrappers

  /** One entry of the fixed checklist: audit id, description and suggestion. */
  datatype KeyAudit = KeyAudit(id: string, description: string, suggestion: string)

  /** The five key audits, in checklist order. */
  const KeyAudits: seq<KeyAudit> := [
    KeyAudit("first-contentful-paint", FcpDescription, "Consider optimizing images and using lazy loading."),
    KeyAudit("speed-index", SpeedIndexDescription,
      "Reduce unused CSS, minimize render-blocking resources, and defer non-critical JS."),
    KeyAudit("largest-contentful-paint", LcpDescription, "Optimize images, use a CDN, and reduce server response times."),
    KeyAudit("total-blocking-time", TbtDescription,
      "Minimize JavaScript execution time, avoid long tasks, and split large tasks into smaller ones."),
    KeyAudit("cumulative-layout-shift", ClsDescription,
      "Ensure images have explicit width and height, avoid injecting ads above existing content.")
  ]

  const FcpDescription: string := "First Contentful Paint (FCP): Aim to load critical content as quickly as possible."
  const SpeedIndexDescription: string := "Speed Index: Measures how quickly content is visually displayed."
  const LcpDescription: string :=
    "Largest Contentful Paint (LCP): Measures the time it takes for the largest content element to load."
  const TbtDescription: string :=
    "Total Blocking Time (TBT): Measures the time during which the main thread is blocked and unable to respond to user input."
  const ClsDescription: string := "Cumulative Layout Shift (CLS): Measures unexpected layout shifts during page load."

  const NoIssues: string := "No significant issues detected."
  const Separator: string := "; "

  /** One audit of the report; its score is in [0, 1] or null (`None`). */
  datatype AuditEntry = AuditEntry(score: Option<real>)

  /**
   * What one Lighthouse run yields: it failed (the subprocess, `JSON.parse` or a
   * field access threw), or it produced the category score (null is `None`) and
   * the audit map.
   */
  datatype AuditOutcome = AuditFailed | AuditRan(performance: Option<real>, audits: map<string, AuditEntry>)

  /** An entry pushed onto `actionableItems`. */
  datatype ActionableItem = ActionableItem(description: string, score: real, suggestion: string)

  /** `audit && audit.score !== null && audit.score < 1`. */
  predicate NeedsAction(audits: map<string, AuditEntry>, id: string) {
    id in audits && audits[id].score.Some? && audits[id].score.value < 1.0
  }

  /** The item pushed for a checklist entry that needs action; its score is rescaled to 0-100. */
  function ItemFor(audits: map<string, AuditEntry>, check: KeyAudit): ActionableItem
    requires NeedsAction(audits, check.id)
  {
    ActionableItem(check.description, audits[check.id].score.value * 100.0, check.suggestion)
  }

  /** `actionableItems` after the `forEach` has visited `checks`. */
  function Actionable(audits: map<string, AuditEntry>, checks: seq<KeyAudit>): seq<ActionableItem> {
    if checks == [] then []
    else
      var last := checks[|checks| - 1];
      Actionable(audits, checks[..|checks| - 1]) + (if NeedsAction(audits, last.id) then [ItemFor(audits, last)] else [])
  }

  /** `${description} (Score: ${score}): ${suggestion}`, with `fmt` rendering the number. */
  function Render(item: ActionableItem, fmt: real -> string): string {
    item.description + " (Score: " + fmt(item.score) + "): " + item.suggestion
  }

  function RenderAll(items: seq<ActionableItem>, fmt: real -> string): seq<string> {
    seq(|items|, j requires 0 <= j < |items| => Render(items[j], fmt))
  }

  /** `Array.prototype.join`. */
  function Join(parts: seq<string>, sep: string): string {
    if |parts| == 0 then ""
    else if |parts| == 1 then parts[0]
    else parts[0] + sep + Join(parts[1..], sep)
  }

  /** The string `parseLighthouseIssues` returns. */
  function IssuesSummary(audits: map<string, AuditEntry>, fmt: real -> string): string {
    var items := Actionable(audits, KeyAudits);
    if items == [] then NoIssues else Join(RenderAll(items, fmt), Separator)
  }

  /** `parseLighthouseIssues`: the `forEach` over the checklist, then the `map`/`join`. */
  method ParseLighthouseIssues(audits: map<string, AuditEntry>, fmt: real -> string) returns (summary: string)
    ensures summary == IssuesSummary(audits, fmt)
  {
    var actionableItems: seq<ActionableItem> := [];
    for k := 0 to |KeyAudits|
      invariant actionableItems == Actionable(audits, KeyAudits[..k])
    {
      var check := KeyAudits[k];
      assert KeyAudits[..k + 1][..k] == KeyAudits[..k];
      if check.id in audits && audits[check.id].score.Some? && audits[check.id].score.value < 1.0 {
        actionableItems := actionableItems + [ActionableItem(check.description, audits[check.id].score.value * 100.0, check.suggestion)];
      }
    }
    assert KeyAudits[..|KeyAudits|] == KeyAudits;
    if |actionableItems| == 0 {
      return NoIssues;
    }
    summary := Join(RenderAll(actionableItems, fmt), Separator);
  }

  /** Order: the items of a later part of the checklist follow those of an earlier part. */
  lemma {:induction false} ActionableAppend(audits: map<string, AuditEntry>, a: seq<KeyAudit>, b: seq<KeyAudit>)
    ensures Actionable(audits, a + b) == Actionable(audits, a) + Actionable(audits, b)
    decreases |b|
  {
    if b == [] {
      assert a + b == a;
    } else {
      var b' := b[..|b| - 1];
      assert (a + b)[..|a + b| - 1] == a + b';
      assert (a + b)[|a + b| - 1] == b[|b| - 1];
      ActionableAppend(audits, a, b');
    }
  }

  /** Number of checklist entries that need action. */
  function FlaggedCount(audits: map<string, AuditEntry>, checks: seq<KeyAudit>): nat {
    if checks == [] then 0
    else FlaggedCount(audits, checks[..|checks| - 1]) + (if NeedsAction(audits, checks[|checks| - 1].id) then 1 else 0)
  }

  /**
   * An item is collected exactly for each checklist entry that is present with a
   * non-null score below 1, and there is exactly one item per such entry.
   */
  lemma {:induction false} ActionableMembers(audits: map<string, AuditEntry>, checks: seq<KeyAudit>, item: ActionableItem)
    ensures item in Actionable(audits, checks) <==>
      exists c :: c in checks && NeedsAction(audits, c.id) && item == ItemFor(audits, c)
    ensures |Actionable(audits, checks)| == FlaggedCount(audits, checks) <= |checks|
    decreases |checks|
  {
    if checks != [] {
      var init := checks[..|checks| - 1];
      var last := checks[|checks| - 1];
      assert checks == init + [last];
      ActionableMembers(audits, init, item);
      if exists c :: c in checks && NeedsAction(audits, c.id) && item == ItemFor(audits, c) {
        var c :| c in checks && NeedsAction(audits, c.id) && item == ItemFor(audits, c);
        if c != last {
          assert c in init;
        }
      }
    }
  }

  /** A joined string is at least as long as its first part. */
  lemma JoinCoversHead(parts: seq<string>, sep: string)
    requires |parts| > 0
    ensures |Join(parts, sep)| >= |parts[0]|
  {
  }

  /** Every checklist description is longer than the "no issues" text and the failure texts. */
  lemma KeyDescriptionsLonger(c: KeyAudit)
    requires c in KeyAudits
    ensures |c.description| > |NoIssues|
    ensures |c.description| > |FailureText(Desktop)| && |c.description| > |FailureText(Mobile)|
  {
    assert c == KeyAudits[0] || c == KeyAudits[1] || c == KeyAudits[2] || c == KeyAudits[3] || c == KeyAudits[4];
  }

  /**
   * The summary is the "no issues" text exactly when none of the five key audits
   * is present with a non-null score below 1.
   */
  lemma {:induction false} NoIssuesIff(audits: map<string, AuditEntry>, fmt: real -> string)
    ensures IssuesSummary(audits, fmt) == NoIssues <==>
      forall c :: c in KeyAudits ==> !NeedsAction(audits, c.id)
  {
    var items := Actionable(audits, KeyAudits);
    if items != [] {
      var item := items[0];
      ActionableMembers(audits, KeyAudits, item);
      var c :| c in KeyAudits && NeedsAction(audits, c.id) && item == ItemFor(audits, c);
      KeyDescriptionsLonger(c);
      var parts := RenderAll(items, fmt);
      assert parts[0] == Render(item, fmt);
      JoinCoversHead(parts, Separator);
    } else {
      forall c | c in KeyAudits ensures !NeedsAction(audits, c.id) {
        if NeedsAction(audits, c.id) {
          ActionableMembers(audits, KeyAudits, ItemFor(audits, c));
        }
      }
    }
  }

  /**
   * When some key audit (`flagged`) needs action, the summary joins, with "; ",
   * one rendered entry per flagged key audit in checklist order, so it has
   * between one and five entries.
   */
  lemma {:induction false} IssuesSummaryEntries(audits: map<string, AuditEntry>, fmt: real -> string, flagged: KeyAudit)
    requires flagged in KeyAudits && NeedsAction(audits, flagged.id)
    ensures var items := Actionable(audits, KeyAudits);
      && 1 <= |items| == FlaggedCount(audits, KeyAudits) <= 5
      && IssuesSummary(audits, fmt) == Join(RenderAll(items, fmt), Separator)
  {
    ActionableMembers(audits, KeyAudits, ItemFor(audits, flagged));
  }

  /** The two Lighthouse profiles. */
  datatype Profile = Desktop | Mobile

  /** A performance score: a number on 0-100, or the string 'N/A'. */
  datatype PerfScore = NA | Score(value: real)

  /** `{performanceScore, issues}`. */
  datatype PerformanceResult = PerformanceResult(performanceScore: PerfScore, issues: string)

  function FailureText(profile: Profile): string {
    match profile
    case Desktop => "Failed to run Lighthouse (Desktop)"
    case Mobile => "Failed to run Lighthouse (Mobile)"
  }

  /** `categories.performance.score * 100`; JavaScript turns `null * 100` into 0. */
  function ScaledScore(score: Option<real>): real {
    if score.Some? then score.value * 100.0 else 0.0
  }

  /** What `runLighthouseDesktop` / `runLighthouseMobile` return for a given run outcome. */
  function PerformanceOf(profile: Profile, outcome: AuditOutcome, fmt: real -> string): PerformanceResult {
    match outcome
    case AuditFailed => PerformanceResult(NA, FailureText(profile))
    case AuditRan(performance, audits) => PerformanceResult(Score(ScaledScore(performance)), IssuesSummary(audits, fmt))
  }

  /** `runLighthouseDesktop` / `runLighthouseMobile`: never throws; a failed run becomes 'N/A'. */
  method RunLighthouse(profile: Profile, outcome: AuditOutcome, fmt: real -> string) returns (result: PerformanceResult)
    ensures result == PerformanceOf(profile, outcome, fmt)
    ensures result.performanceScore.NA? <==> outcome.AuditFailed?
    ensures outcome.AuditFailed? ==> result.issues == FailureText(profile)
    ensures outcome.AuditRan? ==> result.issues == IssuesSummary(outcome.audits, fmt)
  {
    match outcome {
      case AuditFailed =>
        result := PerformanceResult(NA, FailureText(profile));
      case AuditRan(performance, audits) =>
        var performanceScore := ScaledScore(performance);
        var issues := ParseLighthouseIssues(audits, fmt);
        result := PerformanceResult(Score(performanceScore), issues);
    }
  }

  /**
   * The issue text of a failed run never equals the summary of a run that
   * completed, for either profile: the issues column alone tells failed runs
   * apart, as the 'N/A' score does.
   */
  lemma {:induction false} FailureTextNeverASummary(profile: Profile, audits: map<string, AuditEntry>, fmt: real -> string)
    ensures IssuesSummary(audits, fmt) != FailureText(profile)
  {
    var items := Actionable(audits, KeyAudits);
    if items != [] {
      var item := items[0];
      ActionableMembers(audits, KeyAudits, item);
      var c :| c in KeyAudits && NeedsAction(audits, c.id) && item == ItemFor(audits, c);
      KeyDescriptionsLonger(c);
      var parts := RenderAll(items, fmt);
      assert parts[0] == Render(item, fmt);
      JoinCoversHead(parts, Separator);
    }
  }
}
