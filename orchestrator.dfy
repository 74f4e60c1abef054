/**
 * The legal-aid orchestrator: the human-in-the-loop workflow (research, human
 * approval, drafting, human-driven refinement, finalisation with PII
 * restoration) over the session table, and the automatic draft-review loop.
 */
module Orchestration {
  import opened Wrappers
  import opened Text
  import opened AgentTraces
  import opened Agents
  import opened PiiRedactor
  import opened Workflow
  import opened ContextGathering
  import opened ReviewLoop

  /** The `ValueError` and `KeyError` the workflow methods raise. */
  datatype WorkflowError =
    | SessionNotFound
    | InvalidStage(stage: Stage)
    | MaxIterationsReached
    | MissingKey(key: string)

  datatype Outcome<T> = Ok(value: T) | Raised(error: WorkflowError)

  datatype ResearchResponse = ResearchResponse(
    sessionId: string, stage: Stage, researchFindings: Findings,
    agentTraces: seq<TraceEntry>, piiRedacted: bool)

  datatype DraftResponse = DraftResponse(
    sessionId: string, stage: Stage, draft: string, researchFindings: Findings,
    agentTraces: seq<TraceEntry>, iteration: int, maxIterations: int,
    remainingIterations: int, isApproved: Option<bool>)

  datatype FinalResponse = FinalResponse(
    finalDocument: string, researchFindings: Findings, reviewResult: Review,
    agentTraces: seq<TraceEntry>, iterations: int, status: string,
    isApproved: bool, timestamp: string)

  datatype AidResponse = AidResponse(
    finalDocument: string, researchFindings: Findings, reviewResult: Review,
    agentTraces: seq<TraceEntry>, iterations: nat, status: string, timestamp: string)

  /** The trace a session carries so far (`session.get("agent_traces", [])`). */
  function TracesOf(s: Session): seq<TraceEntry> {
    s.agentTraces.GetOr([])
  }

  /** The grievance the agents are shown (`session.get("redacted_grievance", grievance)`). */
  function PromptGrievance(s: Session): string {
    s.redactedGrievance.GetOr(s.grievance)
  }

  /**
   * What a record holds at each stage the workflow leaves it in: the keys the
   * later steps read with `session[...]` are present, and the iteration count
   * stays within the limit.
   */
  predicate WellFormed(s: Session) {
    && (s.stage == AwaitingResearchApproval ==>
          s.redactedGrievance.Some? && s.redactionMap.Some? && s.agentTraces.Some?)
    && (s.stage == AwaitingDraftReview ==>
          && s.approvedResearch.Some? && s.currentDraft.Some? && s.agentTraces.Some?
          && s.iteration.Some? && 1 <= s.iteration.value <= MaxIterations)
  }

  /** Every record is filed under its own id and well formed. */
  predicate TableInvariant(m: map<string, Session>) {
    forall id :: id in m ==> m[id].sessionId == id && WellFormed(m[id])
  }

  /** Storing a well-formed record under its own id keeps the table invariant. */
  lemma InvariantKeptByStore(m: map<string, Session>, id: string, s: Session)
    requires TableInvariant(m) && s.sessionId == id && WellFormed(s)
    ensures TableInvariant(m[id := s])
  {
  }

  /** Removing a record keeps the table invariant. */
  lemma InvariantKeptByDelete(m: map<string, Session>, id: string)
    requires TableInvariant(m)
    ensures TableInvariant(m - {id})
  {
  }

  /** The entries `continue_with_draft` appends. */
  function FirstDraftEntries(now: string): seq<TraceEntry> {
    [Logged("human", "research_approved", now),
     Logged("drafter", "creating_initial_draft", now),
     Logged("drafter", "draft_complete", now)]
  }

  /** The entries a successful `refine_draft` towards iteration `n` appends. */
  function RefineEntries(n: int, now: string): seq<TraceEntry> {
    [Logged("human", "feedback_provided", now),
     Logged("drafter", "refining_draft_iteration_" + IntString(n), now),
     Logged("drafter", "draft_refined", now)]
  }

  /** The entries `finalize_workflow` appends before saving. */
  function FinalEntries(now: string): seq<TraceEntry> {
    [Logged("human", "draft_approved", now), Logged("orchestrator", "workflow_complete", now)]
  }

  /** The trace `finalize_workflow` returns: the saved one, plus the restoration entry when a map was kept. */
  function FinalTraces(s: Session, now: string): seq<TraceEntry> {
    TracesOf(s) + FinalEntries(now)
    + (if s.redactionMap.GetOr([]) != [] then [Logged("pii_redactor", "restoration_complete", now)] else [])
  }

  class LegalAidOrchestrator {
    const sources: Sources
    const redactor: Redactor
    const store: WorkflowState
    const researcher: ResearcherAgent
    const drafter: DrafterAgent
    const reviewer: ExpertReviewerAgent

    constructor (sources: Sources, redactor: Redactor, store: WorkflowState,
                 researcher: ResearcherAgent, drafter: DrafterAgent, reviewer: ExpertReviewerAgent)
      ensures this.sources == sources && this.redactor == redactor && this.store == store
      ensures this.researcher == researcher && this.drafter == drafter && this.reviewer == reviewer
    {
      this.sources := sources;
      this.redactor := redactor;
      this.store := store;
      this.researcher := researcher;
      this.drafter := drafter;
      this.reviewer := reviewer;
    }

    /** `_gather_context`: the context text for `query`, logging each step on `trace`. */
    method GatherContext(query: string, trace: AgentTrace, now: string) returns (combined: string)
      modifies trace
      ensures combined == Context(sources, query)
      ensures trace.traces == old(trace.traces) + GatherEntries(sources, query, now)
    {
      ghost var before := trace.traces;
      ghost var localPart, webPart := LocalEntries(sources, query, now), WebEntries(sources, query, now);
      ghost var readyPart := [Logged("orchestrator", "context_ready", now)];
      var local := SearchLocal(query, trace, now);
      var web := SearchWeb(query, trace, now);
      var contexts := local + web;
      combined := if contexts != [] then Join(contexts, SectionSeparator) else NoContext;
      trace.Add("orchestrator", "context_ready", None, now);
      AppendAssoc(before, localPart, webPart);
      AppendAssoc(before, localPart + webPart, readyPart);
    }

    /** The local-document step of `_gather_context`: its section, if enabled, and its trace entries. */
    method SearchLocal(query: string, trace: AgentTrace, now: string) returns (sections: seq<string>)
      modifies trace
      ensures sections == LocalSections(sources, query)
      ensures trace.traces == old(trace.traces) + LocalEntries(sources, query, now)
    {
      sections := [];
      if sources.ragEnabled {
        trace.Add("orchestrator", "gathering_rag_context", None, now);
        var summary := sources.ragSearch(query);
        if summary.Some? {
          sections := [LocalHeader + summary.value];
          trace.Add("rag_search", "local_search_complete", None, now);
        } else {
          sections := [NoLocalDocuments];
        }
      }
    }

    /** The online-resources step of `_gather_context`: its section, if enabled, and its trace entries. */
    method SearchWeb(query: string, trace: AgentTrace, now: string) returns (sections: seq<string>)
      modifies trace
      ensures sections == WebSections(sources, query)
      ensures trace.traces == old(trace.traces) + WebEntries(sources, query, now)
    {
      sections := [];
      if sources.webEnabled {
        trace.Add("orchestrator", "gathering_web_context", None, now);
        var text := WebText(sources.webSearch(query));
        if text.Some? {
          sections := [WebHeader + text.value];
          trace.Add("tavily_search", "web_search_complete", None, now);
        } else {
          sections := [NoOnlineResources];
        }
      }
    }

    /**
     * The research phase `start_research` and `generate_legal_aid` share: gather
     * the context for `query`, then have the researcher analyse `query` with it.
     */
    method Research(query: string, trace: AgentTrace, now: string) returns (context: string, findings: Findings)
      modifies trace, researcher
      ensures context == Context(sources, query)
      ensures researcher.calls == old(researcher.calls) + [ResearchCall(query, context)]
      ensures findings == researcher.reply(|old(researcher.calls)|, query, context)
      ensures trace.traces == old(trace.traces) + ResearchEntries(sources, query, now)
    {
      ghost var before := trace.traces;
      context := GatherContext(query, trace, now);
      ghost var gathered := trace.traces;
      trace.Add("researcher", "analyzing_grievance", None, now);
      findings := researcher.Analyze(query, context);
      trace.Add("researcher", "research_complete", None, now);
      assert trace.traces == gathered + [Logged("researcher", "analyzing_grievance", now), Logged("researcher", "research_complete", now)];
    }

    /** The part of `start_research` after the redaction: a new trace, then the research phase on the redacted text. */
    method ResearchRedacted(redacted: string, now: string) returns (context: string, findings: Findings, traces: seq<TraceEntry>)
      modifies researcher
      ensures context == Context(sources, redacted)
      ensures researcher.calls == old(researcher.calls) + [ResearchCall(redacted, context)]
      ensures findings == researcher.reply(|old(researcher.calls)|, redacted, context)
      ensures traces == [Logged("pii_redactor", "redaction_complete", now)] + ResearchEntries(sources, redacted, now)
    {
      var trace := new AgentTrace();
      trace.Add("pii_redactor", "redaction_complete", None, now);
      context, findings := Research(redacted, trace, now);
      traces := trace.ToDict();
    }

    /**
     * `start_research`: redact the grievance, open a session for the original
     * text, and have the researcher analyse only the redacted text; the session
     * then waits for the human to approve the findings.
     */
    method StartResearch(grievance: string, now: string) returns (res: ResearchResponse)
      modifies redactor, store, researcher
      ensures var red := Redacted(grievance, redactor.matchers);
              var ctx := Context(sources, red.text);
              && res.sessionId !in old(store.sessions)
              && res.stage == AwaitingResearchApproval
              && researcher.calls == old(researcher.calls) + [ResearchCall(red.text, ctx)]
              && res.researchFindings == researcher.reply(|old(researcher.calls)|, red.text, ctx)
              && res.agentTraces == [Logged("pii_redactor", "redaction_complete", now)] + ResearchEntries(sources, red.text, now)
              && (res.piiRedacted <==> red.entries != [])
              && store.sessions == old(store.sessions)[res.sessionId :=
                   Apply(NewSession(res.sessionId, grievance, now),
                         Patch(Some(AwaitingResearchApproval), Some(res.researchFindings), Some(ctx),
                               Some(res.agentTraces), Some(red.entries), Some(red.text), None, None, None)
                   ).(updatedAt := now)]
      ensures redactor.redactionMap == Redacted(grievance, redactor.matchers).entries
      ensures TableInvariant(old(store.sessions)) ==> TableInvariant(store.sessions)
    {
      var redacted, redactionMap := redactor.Redact(grievance);
      ghost var before := store.sessions;
      var sessionId := store.CreateSession(grievance, now);
      var ragContext, findings, traces := ResearchRedacted(redacted, now);
      store.UpdateSession(sessionId,
        Patch(Some(AwaitingResearchApproval), Some(findings), Some(ragContext), Some(traces),
              Some(redactionMap), Some(redacted), None, None, None),
        now);
      ghost var record := Apply(NewSession(sessionId, grievance, now),
        Patch(Some(AwaitingResearchApproval), Some(findings), Some(ragContext), Some(traces),
              Some(redactionMap), Some(redacted), None, None, None)).(updatedAt := now);
      OverwriteTwice(before, sessionId, NewSession(sessionId, grievance, now), record);
      if TableInvariant(before) {
        InvariantKeptByStore(before, sessionId, record);
      }
      res := ResearchResponse(sessionId, AwaitingResearchApproval, findings, traces, |redactionMap| > 0);
    }

    /**
     * The lookup every human-in-the-loop step starts with: the stored record,
     * `SessionNotFound` for an unknown id, `InvalidStage` when it is at another stage.
     */
    function Checked(id: string, expected: Stage): (r: Outcome<Session>)
      reads store
      ensures r.Ok? <==> id in store.sessions && store.sessions[id].stage == expected
      ensures r.Ok? ==> r.value == store.sessions[id]
      ensures id !in store.sessions ==> r == Raised(SessionNotFound)
      ensures id in store.sessions && store.sessions[id].stage != expected ==> r == Raised(InvalidStage(store.sessions[id].stage))
    {
      match store.GetSession(id)
      case None => Raised(SessionNotFound)
      case Some(s) => if s.stage != expected then Raised(InvalidStage(s.stage)) else Ok(s)
    }

    /**
     * `continue_with_draft`: with the research the human approved, the drafter
     * writes the first draft (with no feedback) and the session waits for the
     * human's review of iteration 1.
     */
    method ContinueWithDraft(id: string, approved: Findings, now: string) returns (out: Outcome<DraftResponse>)
      modifies store, drafter
      ensures old(Checked(id, AwaitingResearchApproval)).Raised? ==>
                && out == Raised(old(Checked(id, AwaitingResearchApproval)).error)
                && store.sessions == old(store.sessions) && drafter.calls == old(drafter.calls)
      ensures old(Checked(id, AwaitingResearchApproval)).Ok? ==>
                var s := old(store.sessions[id]);
                var draft := drafter.reply(|old(drafter.calls)|, PromptGrievance(s), approved, "");
                var traces := TracesOf(s) + FirstDraftEntries(now);
                && drafter.calls == old(drafter.calls) + [DraftCall(PromptGrievance(s), approved, "")]
                && store.sessions == old(store.sessions)[id := Apply(s, NoKeys.(
                     stage := Some(AwaitingDraftReview), approvedResearch := Some(approved),
                     currentDraft := Some(draft), agentTraces := Some(traces), iteration := Some(1))).(updatedAt := now)]
                && out == Ok(DraftResponse(id, AwaitingDraftReview, draft, approved, traces,
                                           1, MaxIterations, MaxIterations - 1, Some(true)))
      ensures TableInvariant(old(store.sessions)) ==> TableInvariant(store.sessions)
    {
      var session := store.GetSession(id);
      if session.None? {
        return Raised(SessionNotFound);
      }
      var s := session.value;
      if s.stage != AwaitingResearchApproval {
        return Raised(InvalidStage(s.stage));
      }
      var grievance := PromptGrievance(s);
      var trace := new AgentTrace();
      trace.traces := TracesOf(s);
      trace.Add("human", "research_approved", None, now);
      trace.Add("drafter", "creating_initial_draft", None, now);
      var draft := drafter.Draft(grievance, approved, "");
      trace.Add("drafter", "draft_complete", None, now);
      assert trace.traces == TracesOf(s) + FirstDraftEntries(now);
      ghost var before := store.sessions;
      store.UpdateSession(id, NoKeys.(stage := Some(AwaitingDraftReview), approvedResearch := Some(approved),
                                      currentDraft := Some(draft), agentTraces := Some(trace.ToDict()), iteration := Some(1)), now);
      if TableInvariant(before) {
        InvariantKeptByStore(before, id, store.sessions[id]);
      }
      out := Ok(DraftResponse(id, AwaitingDraftReview, draft, approved, trace.ToDict(),
                              1, MaxIterations, MaxIterations - 1, Some(true)));
    }

    /**
     * `refine_draft`: the drafter rewrites the draft to address the human's
     * feedback, one iteration further; past `MAX_ITERATIONS` the step is refused,
     * and only the refusal is logged.
     */
    method RefineDraft(id: string, humanFeedback: string, now: string) returns (out: Outcome<DraftResponse>)
      modifies store, drafter
      ensures old(Checked(id, AwaitingDraftReview)).Raised? ==>
                && out == Raised(old(Checked(id, AwaitingDraftReview)).error)
                && store.sessions == old(store.sessions) && drafter.calls == old(drafter.calls)
      ensures old(Checked(id, AwaitingDraftReview)).Ok? && old(store.sessions[id]).approvedResearch.None? ==>
                && out == Raised(MissingKey("approved_research"))
                && store.sessions == old(store.sessions) && drafter.calls == old(drafter.calls)
      ensures old(Checked(id, AwaitingDraftReview)).Ok? && old(store.sessions[id]).approvedResearch.Some?
              && old(store.sessions[id]).iteration.GetOr(1) + 1 > MaxIterations ==>
                var s := old(store.sessions[id]);
                && out == Raised(MaxIterationsReached)
                && drafter.calls == old(drafter.calls)
                && store.sessions == old(store.sessions)[id := Apply(s, NoKeys.(
                     agentTraces := Some(TracesOf(s) + [Logged("orchestrator", "max_iterations_reached", now)]))).(updatedAt := now)]
      ensures old(Checked(id, AwaitingDraftReview)).Ok? && old(store.sessions[id]).approvedResearch.Some?
              && old(store.sessions[id]).iteration.GetOr(1) + 1 <= MaxIterations ==>
                var s := old(store.sessions[id]);
                var n := s.iteration.GetOr(1) + 1;
                var approved := s.approvedResearch.value;
                var draft := drafter.reply(|old(drafter.calls)|, PromptGrievance(s), approved, humanFeedback);
                var traces := TracesOf(s) + RefineEntries(n, now);
                && drafter.calls == old(drafter.calls) + [DraftCall(PromptGrievance(s), approved, humanFeedback)]
                && store.sessions == old(store.sessions)[id := Apply(s, NoKeys.(
                     currentDraft := Some(draft), agentTraces := Some(traces), iteration := Some(n))).(updatedAt := now)]
                && out == Ok(DraftResponse(id, AwaitingDraftReview, draft, approved, traces,
                                           n, MaxIterations, MaxIterations - n, None))
      ensures TableInvariant(old(store.sessions)) ==> TableInvariant(store.sessions)
      ensures TableInvariant(old(store.sessions)) ==> !(out.Raised? && out.error.MissingKey?)
    {
      var session := store.GetSession(id);
      if session.None? {
        return Raised(SessionNotFound);
      }
      var s := session.value;
      if s.stage != AwaitingDraftReview {
        return Raised(InvalidStage(s.stage));
      }
      var grievance := PromptGrievance(s);
      if s.approvedResearch.None? {
        return Raised(MissingKey("approved_research"));
      }
      var approved := s.approvedResearch.value;
      var iteration := s.iteration.GetOr(1) + 1;
      ghost var before := store.sessions;
      if iteration > MaxIterations {
        LogRefusal(id, s, now);
        if TableInvariant(before) {
          InvariantKeptByStore(before, id, store.sessions[id]);
        }
        return Raised(MaxIterationsReached);
      }
      var draft, traces := Redraft(id, s, grievance, approved, iteration, humanFeedback, now);
      if TableInvariant(before) {
        InvariantKeptByStore(before, id, store.sessions[id]);
      }
      out := Ok(DraftResponse(id, AwaitingDraftReview, draft, approved, traces,
                              iteration, MaxIterations, MaxIterations - iteration, None));
    }

    /** The refusal branch of `refine_draft`: the refusal is the only thing saved. */
    method LogRefusal(id: string, s: Session, now: string)
      modifies store
      requires id in store.sessions && store.sessions[id] == s
      ensures store.sessions == old(store.sessions)[id := Apply(s, NoKeys.(
                agentTraces := Some(TracesOf(s) + [Logged("orchestrator", "max_iterations_reached", now)]))).(updatedAt := now)]
    {
      var trace := new AgentTrace();
      trace.traces := TracesOf(s);
      trace.Add("orchestrator", "max_iterations_reached", None, now);
      store.UpdateSession(id, NoKeys.(agentTraces := Some(trace.ToDict())), now);
    }

    /** The main branch of `refine_draft`: draft `n` addresses `feedback` and replaces the stored one. */
    method Redraft(id: string, s: Session, grievance: string, approved: Findings, n: int, feedback: string, now: string)
      returns (draft: string, traces: seq<TraceEntry>)
      modifies store, drafter
      requires id in store.sessions && store.sessions[id] == s
      ensures drafter.calls == old(drafter.calls) + [DraftCall(grievance, approved, feedback)]
      ensures draft == drafter.reply(|old(drafter.calls)|, grievance, approved, feedback)
      ensures traces == TracesOf(s) + RefineEntries(n, now)
      ensures store.sessions == old(store.sessions)[id := Apply(s, NoKeys.(
                currentDraft := Some(draft), agentTraces := Some(traces), iteration := Some(n))).(updatedAt := now)]
    {
      var trace := new AgentTrace();
      trace.traces := TracesOf(s);
      trace.Add("human", "feedback_provided", None, now);
      trace.Add("drafter", "refining_draft_iteration_" + IntString(n), None, now);
      draft := drafter.Draft(grievance, approved, feedback);
      trace.Add("drafter", "draft_refined", None, now);
      traces := trace.ToDict();
      assert traces == TracesOf(s) + RefineEntries(n, now);
      store.UpdateSession(id, NoKeys.(currentDraft := Some(draft), agentTraces := Some(traces), iteration := Some(n)), now);
    }

    /**
     * `finalize_workflow`: the human approves the current draft; the session is
     * marked complete, the draft gets its personal data back, and the session is
     * deleted once the result is assembled.
     */
    method FinalizeWorkflow(id: string, now: string) returns (out: Outcome<FinalResponse>)
      modifies store
      ensures old(Checked(id, AwaitingDraftReview)).Raised? ==>
                && out == Raised(old(Checked(id, AwaitingDraftReview)).error)
                && store.sessions == old(store.sessions)
      ensures old(Checked(id, AwaitingDraftReview)).Ok? && old(store.sessions[id]).currentDraft.None? ==>
                var s := old(store.sessions[id]);
                && out == Raised(MissingKey("current_draft"))
                && store.sessions == old(store.sessions)[id := Apply(s, NoKeys.(
                     stage := Some(Complete), agentTraces := Some(TracesOf(s) + FinalEntries(now)))).(updatedAt := now)]
      ensures old(Checked(id, AwaitingDraftReview)).Ok? && old(store.sessions[id]).currentDraft.Some?
              && old(store.sessions[id]).approvedResearch.None? ==>
                var s := old(store.sessions[id]);
                && out == Raised(MissingKey("approved_research"))
                && store.sessions == old(store.sessions)[id := Apply(s, NoKeys.(
                     stage := Some(Complete), agentTraces := Some(FinalTraces(s, now)))).(updatedAt := now)]
      ensures old(Checked(id, AwaitingDraftReview)).Ok? && old(store.sessions[id]).currentDraft.Some?
              && old(store.sessions[id]).approvedResearch.Some? ==>
                var s := old(store.sessions[id]);
                && out == Ok(FinalResponse(Restored(s.currentDraft.value, s.redactionMap.GetOr([])),
                                           s.approvedResearch.value, Review(true, ""), FinalTraces(s, now),
                                           s.iteration.GetOr(1), "approved_by_human", true, now))
                && store.sessions == old(store.sessions) - {id}
      ensures TableInvariant(old(store.sessions)) ==> TableInvariant(store.sessions)
      ensures TableInvariant(old(store.sessions)) ==> !(out.Raised? && out.error.MissingKey?)
    {
      var session := store.GetSession(id);
      if session.None? {
        return Raised(SessionNotFound);
      }
      var s := session.value;
      if s.stage != AwaitingDraftReview {
        return Raised(InvalidStage(s.stage));
      }
      ghost var before := store.sessions;
      var trace := MarkComplete(id, s, now);
      if TableInvariant(before) {
        InvariantKeptByStore(before, id, store.sessions[id]);
      }
      if s.currentDraft.None? {
        return Raised(MissingKey("current_draft"));
      }
      var finalDraft := RestoreDraft(s.currentDraft.value, s.redactionMap.GetOr([]), trace, now);
      if s.approvedResearch.None? {
        // The saved record holds the very list the restoration entry was appended to.
        ghost var saved := store.sessions;
        store.sessions := store.sessions[id := store.sessions[id].(agentTraces := Some(trace.ToDict()))];
        OverwriteTwice(before, id, saved[id], store.sessions[id]);
        return Raised(MissingKey("approved_research"));
      }
      out := Ok(FinalResponse(finalDraft, s.approvedResearch.value, Review(true, ""), trace.ToDict(),
                              s.iteration.GetOr(1), "approved_by_human", true, now));
      ghost var saved := store.sessions;
      store.DeleteSession(id);
      assert store.sessions == before - {id} by {
        assert saved == before[id := saved[id]];
      }
      if TableInvariant(before) {
        InvariantKeptByDelete(before, id);
      }
    }

    /** The first part of `finalize_workflow`: log the approval and save the session as complete. */
    method MarkComplete(id: string, s: Session, now: string) returns (trace: AgentTrace)
      modifies store
      requires id in store.sessions && store.sessions[id] == s
      ensures fresh(trace) && trace.traces == TracesOf(s) + FinalEntries(now)
      ensures store.sessions == old(store.sessions)[id := Apply(s, NoKeys.(
                stage := Some(Complete), agentTraces := Some(trace.traces))).(updatedAt := now)]
    {
      trace := new AgentTrace();
      trace.traces := TracesOf(s);
      trace.Add("human", "draft_approved", None, now);
      trace.Add("orchestrator", "workflow_complete", None, now);
      store.UpdateSession(id, NoKeys.(stage := Some(Complete), agentTraces := Some(trace.ToDict())), now);
    }

    /** The restoration step of `finalize_workflow`: only a non-empty map is applied and logged. */
    method RestoreDraft(draft: string, rmap: seq<Entry>, trace: AgentTrace, now: string) returns (restored: string)
      modifies trace
      ensures restored == Restored(draft, rmap)
      ensures trace.traces == old(trace.traces)
                + (if rmap != [] then [Logged("pii_redactor", "restoration_complete", now)] else [])
    {
      restored := draft;
      if rmap != [] {
        restored := redactor.Restore(draft, rmap);
        trace.Add("pii_redactor", "restoration_complete", None, now);
      } else {
        assert Restored(draft, rmap) == draft;
      }
    }

    /**
     * `generate_legal_aid`: the automatic workflow. Research on the grievance as
     * given, then draft and review until the reviewer approves or
     * `MAX_ITERATIONS` drafts were written.
     */
    method GenerateLegalAid(grievance: string, now: string) returns (res: AidResponse)
      modifies researcher, drafter, reviewer
      ensures var ctx := Context(sources, grievance);
              && researcher.calls == old(researcher.calls) + [ResearchCall(grievance, ctx)]
              && res.researchFindings == researcher.reply(|old(researcher.calls)|, grievance, ctx)
      ensures var run := Run(drafter.reply, reviewer.reply, |old(drafter.calls)|, |old(reviewer.calls)|,
                             grievance, res.researchFindings);
              && res.iterations == Iterations(run)
              && drafter.calls == old(drafter.calls) + DraftCalls(run, res.iterations)
              && reviewer.calls == old(reviewer.calls) + ReviewCalls(run, res.iterations)
              && res.finalDocument == DraftAt(run, res.iterations - 1)
              && res.reviewResult == ReviewAt(run, res.iterations - 1)
              && res.status == Status(run)
              && res.agentTraces == LoopTrace(run, ResearchEntries(sources, grievance, now), res.iterations, now)
                                    + [Logged("orchestrator", "workflow_complete", now)]
      ensures res.timestamp == now
    {
      var trace := new AgentTrace();
      var ragContext, findings := Research(grievance, trace, now);
      assert trace.traces == ResearchEntries(sources, grievance, now);
      res := DraftUntilApproved(grievance, findings, trace, now);
    }

    /**
     * The part of `generate_legal_aid` after the research: the loop, the status
     * read off the last verdict, and the closing entry.
     */
    method DraftUntilApproved(grievance: string, findings: Findings, trace: AgentTrace, now: string)
      returns (res: AidResponse)
      modifies drafter, reviewer, trace
      ensures var run := Run(drafter.reply, reviewer.reply, |old(drafter.calls)|, |old(reviewer.calls)|,
                             grievance, findings);
              && res.researchFindings == findings
              && res.iterations == Iterations(run)
              && drafter.calls == old(drafter.calls) + DraftCalls(run, res.iterations)
              && reviewer.calls == old(reviewer.calls) + ReviewCalls(run, res.iterations)
              && res.finalDocument == DraftAt(run, res.iterations - 1)
              && res.reviewResult == ReviewAt(run, res.iterations - 1)
              && res.status == Status(run)
              && res.agentTraces == LoopTrace(run, old(trace.traces), res.iterations, now)
                                    + [Logged("orchestrator", "workflow_complete", now)]
      ensures res.timestamp == now
    {
      var draft, review, iteration := DraftAndReview(grievance, findings, trace, now);
      var status := if review.isApproved then "approved" else "max_iterations_reached";
      trace.Add("orchestrator", "workflow_complete", None, now);
      res := AidResponse(draft, findings, review, trace.ToDict(), iteration, status, now);
    }

    /**
     * The loop of `generate_legal_aid`: round after round until an approval
     * ends it or `MAX_ITERATIONS` rounds ran.
     */
    method DraftAndReview(grievance: string, findings: Findings, trace: AgentTrace, now: string)
      returns (draft: string, review: Review, iteration: nat)
      modifies drafter, reviewer, trace
      ensures var run := Run(drafter.reply, reviewer.reply, |old(drafter.calls)|, |old(reviewer.calls)|, grievance, findings);
              && iteration == Iterations(run)
              && draft == DraftAt(run, iteration - 1)
              && review == ReviewAt(run, iteration - 1)
              && drafter.calls == old(drafter.calls) + DraftCalls(run, iteration)
              && reviewer.calls == old(reviewer.calls) + ReviewCalls(run, iteration)
              && trace.traces == LoopTrace(run, old(trace.traces), iteration, now)
    {
      ghost var run := Run(drafter.reply, reviewer.reply, |drafter.calls|, |reviewer.calls|, grievance, findings);
      ghost var drafts0, reviews0, trace0 := drafter.calls, reviewer.calls, trace.traces;
      draft, review, iteration := "", Review(false, ""), 0;
      var feedback := "";
      while iteration < MaxIterations
        invariant iteration <= MaxIterations
        invariant forall j :: 0 <= j < iteration ==> !ReviewAt(run, j).isApproved
        invariant feedback == FeedbackFor(run, iteration)
        invariant iteration > 0 ==> draft == DraftAt(run, iteration - 1) && review == ReviewAt(run, iteration - 1)
        invariant drafter.calls == drafts0 + DraftCalls(run, iteration)
        invariant reviewer.calls == reviews0 + ReviewCalls(run, iteration)
        invariant trace.traces == LoopTrace(run, trace0, iteration, now)
      {
        draft, review := Round(run, drafts0, reviews0, trace0, grievance, findings, iteration, feedback, trace, now);
        iteration := iteration + 1;
        if review.isApproved {
          break;
        }
        feedback := review.feedback;
      }
      RoundsFromExactly(run, 0, iteration);
    }

    /** Round `k` (from 0) of the loop: one draft, one verdict, and their entries. */
    method Round(ghost run: Run, ghost drafts0: seq<DraftCall>, ghost reviews0: seq<ReviewCall>,
                 ghost trace0: seq<TraceEntry>, grievance: string, findings: Findings,
                 k: nat, feedback: string, trace: AgentTrace, now: string)
      returns (draft: string, review: Review)
      modifies drafter, reviewer, trace
      requires run == Run(drafter.reply, reviewer.reply, |drafts0|, |reviews0|, grievance, findings)
      requires drafter.calls == drafts0 + DraftCalls(run, k)
      requires reviewer.calls == reviews0 + ReviewCalls(run, k)
      requires trace.traces == LoopTrace(run, trace0, k, now)
      requires feedback == FeedbackFor(run, k)
      ensures draft == DraftAt(run, k) && review == ReviewAt(run, k)
      ensures drafter.calls == drafts0 + DraftCalls(run, k + 1)
      ensures reviewer.calls == reviews0 + ReviewCalls(run, k + 1)
      ensures trace.traces == LoopTrace(run, trace0, k + 1, now)
      ensures FeedbackFor(run, k + 1) == review.feedback
    {
      draft := DraftStep(run, drafts0, grievance, findings, k, feedback, trace, now);
      review := ReviewStep(run, reviews0, findings, k, draft, trace, now);
      LoopTraceNext(run, trace0, k, now);
      FeedbackNext(run, k);
    }

    /**
     * The drafting half of round `k` (from 0): the draft addressing `feedback`,
     * which extends the drafter calls of the first `k` rounds to those of `k + 1`.
     */
    method DraftStep(ghost run: Run, ghost drafts0: seq<DraftCall>, grievance: string, findings: Findings,
                     k: nat, feedback: string, trace: AgentTrace, now: string)
      returns (draft: string)
      modifies drafter, trace
      requires run.drafter == drafter.reply && run.draftsBefore == |drafts0|
      requires run.grievance == grievance && run.research == findings
      requires drafter.calls == drafts0 + DraftCalls(run, k)
      requires feedback == FeedbackFor(run, k)
      ensures draft == DraftAt(run, k)
      ensures drafter.calls == drafts0 + DraftCalls(run, k + 1)
      ensures trace.traces == old(trace.traces) + DraftingEntries(k, now)
    {
      var iteration := k + 1;
      if iteration == 1 {
        trace.Add("drafter", "creating_initial_draft", None, now);
      } else {
        trace.Add("drafter", "refining_draft_iteration_" + IntString(iteration), None, now);
      }
      draft := drafter.Draft(grievance, findings, feedback);
      AppendAssoc(drafts0, DraftCalls(run, k), [DraftCall(grievance, findings, feedback)]);
      trace.Add("drafter", "draft_complete", None, now);
      trace.Add("expert_reviewer", "auditing_draft", None, now);
    }

    /**
     * The reviewing half of round `k`: the verdict on draft `k` and the entries
     * logged for it; the reviewer calls of the first `k` rounds become those of `k + 1`.
     */
    method ReviewStep(ghost run: Run, ghost reviews0: seq<ReviewCall>, findings: Findings,
                      k: nat, draft: string, trace: AgentTrace, now: string)
      returns (review: Review)
      modifies reviewer, trace
      requires run.reviewer == reviewer.reply && run.reviewsBefore == |reviews0| && run.research == findings
      requires reviewer.calls == reviews0 + ReviewCalls(run, k)
      requires draft == DraftAt(run, k)
      ensures review == ReviewAt(run, k)
      ensures reviewer.calls == reviews0 + ReviewCalls(run, k + 1)
      ensures trace.traces == old(trace.traces) + VerdictEntries(review.isApproved, k, now)
    {
      review := reviewer.Review(draft, findings);
      AppendAssoc(reviews0, ReviewCalls(run, k), [ReviewCall(draft, findings)]);
      if review.isApproved {
        trace.Add("expert_reviewer", "draft_approved", None, now);
      } else {
        trace.Add("expert_reviewer", "draft_rejected", None, now);
        if k + 1 >= MaxIterations {
          trace.Add("orchestrator", "max_iterations_reached", None, now);
        }
      }
    }
  }
}
