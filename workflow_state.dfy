/**
 * The in-memory session table of the human-in-the-loop workflow: session id to
 * session record, with create, read, merge-update and delete.
 */
module Workflow {
  import opened Wrappers
  import opened AgentTraces
  import opened Agents
  import opened PiiRedactor

  /** The `stage` values the workflow writes. */
  datatype Stage = Started | AwaitingResearchApproval | AwaitingDraftReview | Complete

  /**
   * A session record. The five keys written at creation are plain fields; every
   * key added later by an update is an `Option` (`None` = key absent).
   */
  datatype Session = Session(
    sessionId: string,
    grievance: string,
    stage: Stage,
    createdAt: string,
    updatedAt: string,
    researchFindings: Option<Findings>,
    ragContext: Option<string>,
    agentTraces: Option<seq<TraceEntry>>,
    redactionMap: Option<seq<Entry>>,
    redactedGrievance: Option<string>,
    approvedResearch: Option<Findings>,
    currentDraft: Option<string>,
    iteration: Option<int>)

  /** The `data` argument of an update: the keys it sets (`None` = key not given). */
  datatype Patch = Patch(
    stage: Option<Stage>,
    researchFindings: Option<Findings>,
    ragContext: Option<string>,
    agentTraces: Option<seq<TraceEntry>>,
    redactionMap: Option<seq<Entry>>,
    redactedGrievance: Option<string>,
    approvedResearch: Option<Findings>,
    currentDraft: Option<string>,
    iteration: Option<int>)

  const NoKeys: Patch := Patch(None, None, None, None, None, None, None, None, None)

  function Pick<T>(given: Option<T>, kept: T): T {
    if given.Some? then given.value else kept
  }

  function PickOpt<T>(given: Option<T>, kept: Option<T>): Option<T> {
    if given.Some? then given else kept
  }

  /** Python's `session.update(data)`: the keys in `data` overwrite, every other key stays. */
  function Apply(s: Session, p: Patch): Session {
    s.(stage := Pick(p.stage, s.stage),
       researchFindings := PickOpt(p.researchFindings, s.researchFindings),
       ragContext := PickOpt(p.ragContext, s.ragContext),
       agentTraces := PickOpt(p.agentTraces, s.agentTraces),
       redactionMap := PickOpt(p.redactionMap, s.redactionMap),
       redactedGrievance := PickOpt(p.redactedGrievance, s.redactedGrievance),
       approvedResearch := PickOpt(p.approvedResearch, s.approvedResearch),
       currentDraft := PickOpt(p.currentDraft, s.currentDraft),
       iteration := PickOpt(p.iteration, s.iteration))
  }

  /** `a.update(b)` as one dictionary: the keys of `b` win. */
  function Merge(a: Patch, b: Patch): Patch {
    Patch(PickOpt(b.stage, a.stage),
          PickOpt(b.researchFindings, a.researchFindings),
          PickOpt(b.ragContext, a.ragContext),
          PickOpt(b.agentTraces, a.agentTraces),
          PickOpt(b.redactionMap, a.redactionMap),
          PickOpt(b.redactedGrievance, a.redactedGrievance),
          PickOpt(b.approvedResearch, a.approvedResearch),
          PickOpt(b.currentDraft, a.currentDraft),
          PickOpt(b.iteration, a.iteration))
  }

  /** An update with no keys leaves the record as it was. */
  lemma ApplyNoKeys(s: Session)
    ensures Apply(s, NoKeys) == s
  {
  }

  /** Two updates in a row are one update with the merged data. */
  lemma ApplyMerge(s: Session, a: Patch, b: Patch)
    ensures Apply(Apply(s, a), b) == Apply(s, Merge(a, b))
  {
  }

  /** Repeating an update changes nothing more. */
  lemma ApplyIdempotent(s: Session, p: Patch)
    ensures Apply(Apply(s, p), p) == Apply(s, p)
  {
  }

  /** An update never touches the id, the grievance or the creation time. */
  lemma ApplyKeepsIdentity(s: Session, p: Patch)
    ensures Apply(s, p).sessionId == s.sessionId
    ensures Apply(s, p).grievance == s.grievance
    ensures Apply(s, p).createdAt == s.createdAt
  {
  }

  /** Writing a key twice leaves only the second write. */
  lemma OverwriteTwice(m: map<string, Session>, k: string, a: Session, b: Session)
    ensures m[k := a][k := b] == m[k := b]
  {
  }

  /** The record `create_session` stores. */
  function NewSession(id: string, grievance: string, now: string): (s: Session)
    ensures s.sessionId == id && s.grievance == grievance && s.stage == Started
    ensures s.createdAt == now && s.updatedAt == now
    ensures s.agentTraces.None? && s.iteration.None? && s.currentDraft.None?
    ensures s.researchFindings.None? && s.ragContext.None? && s.redactionMap.None?
    ensures s.redactedGrievance.None? && s.approvedResearch.None?
  {
    Session(id, grievance, Started, now, now, None, None, None, None, None, None, None, None)
  }

  /**
   * A string that is not a key yet (the model of `str(uuid4())`: a random id
   * that collides with no live session): one character longer than every key.
   */
  method FreshId(keys: set<string>) returns (id: string)
    ensures id !in keys
  {
    var rest := keys;
    var longest: nat := 0;
    while rest != {}
      invariant rest <= keys
      invariant forall k :: k in keys - rest ==> |k| <= longest
      decreases |rest|
    {
      var k :| k in rest;
      if |k| > longest {
        longest := |k|;
      }
      rest := rest - {k};
    }
    assert keys - rest == keys;
    id := seq(longest + 1, _ => 'x');
    assert |id| == longest + 1;
  }

  class WorkflowState {
    var sessions: map<string, Session>

    constructor ()
      ensures sessions == map[]
    {
      sessions := map[];
    }

    /** Stores a new record under a fresh id; no other session is touched. */
    method CreateSession(grievance: string, now: string) returns (id: string)
      modifies this
      ensures id !in old(sessions)
      ensures sessions == old(sessions)[id := NewSession(id, grievance, now)]
    {
      id := FreshId(sessions.Keys);
      sessions := sessions[id := NewSession(id, grievance, now)];
    }

    /** The record stored under `id`, or `None`. */
    function GetSession(id: string): (r: Option<Session>)
      reads this
      ensures r.Some? <==> id in sessions
      ensures r.Some? ==> r.value == sessions[id]
    {
      if id in sessions then Some(sessions[id]) else None
    }

    /**
     * Merges `data` into the record and refreshes `updated_at`; an unknown id
     * is ignored. No other session is touched.
     */
    method UpdateSession(id: string, data: Patch, now: string)
      modifies this
      ensures id in old(sessions) ==> sessions == old(sessions)[id := Apply(old(sessions)[id], data).(updatedAt := now)]
      ensures id !in old(sessions) ==> sessions == old(sessions)
    {
      if id in sessions {
        sessions := sessions[id := Apply(sessions[id], data).(updatedAt := now)];
      }
    }

    /** Removes `id` (an unknown id is ignored); every other session stays. */
    method DeleteSession(id: string)
      modifies this
      ensures sessions == old(sessions) - {id}
      ensures GetSession(id).None?
    {
      if id in sessions {
        sessions := sessions - {id};
      }
    }
  }
}
