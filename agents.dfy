/**
 * The three language-model agents and the two context sources the orchestrator
 * drives. Their answers are not computed here: each agent is given as a reply
 * function of its call number and arguments (so a scripted test double and a
 * real model are both instances), and it logs every call it receives.
 */
module Agents {
  import opened Wrappers

  /** The researcher's findings (a JSON object); only its identity matters to the workflow. */
  datatype Findings = Findings(legalProvisions: seq<string>, summary: string)

  /** The reviewer's verdict: `is_approved` and `feedback` (absent feedback reads as ""). */
  datatype Review = Review(isApproved: bool, feedback: string)

  datatype ResearchCall = ResearchCall(grievance: string, context: string)
  datatype DraftCall = DraftCall(grievance: string, research: Findings, feedback: string)
  datatype ReviewCall = ReviewCall(draft: string, research: Findings)

  class ResearcherAgent {
    const reply: (nat, string, string) -> Findings
    var calls: seq<ResearchCall>

    constructor (reply: (nat, string, string) -> Findings)
      ensures this.reply == reply && calls == []
    {
      this.reply := reply;
      calls := [];
    }

    /** `analyze(grievance, rag_context)`: the n-th call answers `reply(n, grievance, context)`. */
    method Analyze(grievance: string, context: string) returns (findings: Findings)
      modifies this
      ensures calls == old(calls) + [ResearchCall(grievance, context)]
      ensures findings == reply(|old(calls)|, grievance, context)
    {
      findings := reply(|calls|, grievance, context);
      calls := calls + [ResearchCall(grievance, context)];
    }
  }

  class DrafterAgent {
    const reply: (nat, string, Findings, string) -> string
    var calls: seq<DraftCall>

    constructor (reply: (nat, string, Findings, string) -> string)
      ensures this.reply == reply && calls == []
    {
      this.reply := reply;
      calls := [];
    }

    /** `draft(grievance, research_findings, feedback)`. */
    method Draft(grievance: string, research: Findings, feedback: string) returns (draft: string)
      modifies this
      ensures calls == old(calls) + [DraftCall(grievance, research, feedback)]
      ensures draft == reply(|old(calls)|, grievance, research, feedback)
    {
      draft := reply(|calls|, grievance, research, feedback);
      calls := calls + [DraftCall(grievance, research, feedback)];
    }
  }

  class ExpertReviewerAgent {
    const reply: (nat, string, Findings) -> Review
    var calls: seq<ReviewCall>

    constructor (reply: (nat, string, Findings) -> Review)
      ensures this.reply == reply && calls == []
    {
      this.reply := reply;
      calls := [];
    }

    /** `review(draft, research_findings)`. */
    method Review(draft: string, research: Findings) returns (verdict: Review)
      modifies this
      ensures calls == old(calls) + [ReviewCall(draft, research)]
      ensures verdict == reply(|old(calls)|, draft, research)
    {
      verdict := reply(|calls|, draft, research);
      calls := calls + [ReviewCall(draft, research)];
    }
  }

  /** One web search hit; a hit without a `title` or `content` key makes the formatting raise. */
  datatype WebSource = WebSource(title: Option<string>, content: Option<string>)

  /** The web tool's answer; `sources` may be missing (read as the empty list). */
  datatype WebResults = WebResults(sources: Option<seq<WebSource>>)

  /**
   * The two optional context sources, each enabled or not by the domain configuration.
   * A search that raises answers `None`.
   */
  datatype Sources = Sources(
    ragEnabled: bool, ragSearch: string -> Option<string>,
    webEnabled: bool, webSearch: string -> Option<WebResults>)
}
