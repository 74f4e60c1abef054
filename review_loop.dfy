/**
 * The automatic draft-review loop of `generate_legal_aid`, as functions of the
 * drafter's and the reviewer's replies: which draft and which verdict each
 * round produces, which feedback each draft is asked to address, and how many
 * rounds run before the loop stops.
 */
module ReviewLoop {
  import opened Text
  import opened AgentTraces
  import opened Agents
  import opened ContextGathering

  /** `MAX_ITERATIONS`: the most drafts one workflow asks for. */
  const MaxIterations: nat := 3

  /**
   * One run of the loop: the two agents' reply functions, how many calls each
   * had already answered, and the fixed grievance and findings every draft uses.
   */
  datatype Run = Run(
    drafter: (nat, string, Findings, string) -> string,
    reviewer: (nat, string, Findings) -> Review,
    draftsBefore: nat,
    reviewsBefore: nat,
    grievance: string,
    research: Findings)

  /** The feedback round `k` (from 0) passes to the drafter: none at first, then the last verdict's. */
  function FeedbackFor(run: Run, k: nat): string
    decreases k, 0
  {
    if k == 0 then "" else ReviewAt(run, k - 1).feedback
  }

  /** The draft of round `k`. */
  function DraftAt(run: Run, k: nat): string
    decreases k, 1
  {
    run.drafter(run.draftsBefore + k, run.grievance, run.research, FeedbackFor(run, k))
  }

  /** The verdict on the draft of round `k`. */
  function ReviewAt(run: Run, k: nat): Review
    decreases k, 2
  {
    run.reviewer(run.reviewsBefore + k, DraftAt(run, k), run.research)
  }

  /** How many rounds run once round `k` is reached: stop at an approval or at the last round. */
  function RoundsFrom(run: Run, k: nat): (n: nat)
    requires k < MaxIterations
    ensures k < n <= MaxIterations
    decreases MaxIterations - k
  {
    if ReviewAt(run, k).isApproved || k + 1 >= MaxIterations then k + 1 else RoundsFrom(run, k + 1)
  }

  /** The `iterations` the loop reports. */
  function Iterations(run: Run): nat {
    RoundsFrom(run, 0)
  }

  /** The `status` the loop reports, read off the last verdict. */
  function Status(run: Run): string {
    if ReviewAt(run, Iterations(run) - 1).isApproved then "approved" else "max_iterations_reached"
  }

  /** The drafter calls of the first `n` rounds. */
  function DraftCalls(run: Run, n: nat): (r: seq<DraftCall>)
    ensures |r| == n
  {
    if n == 0 then [] else DraftCalls(run, n - 1) + [DraftCall(run.grievance, run.research, FeedbackFor(run, n - 1))]
  }

  /** The reviewer calls of the first `n` rounds. */
  function ReviewCalls(run: Run, n: nat): (r: seq<ReviewCall>)
    ensures |r| == n
  {
    if n == 0 then [] else ReviewCalls(run, n - 1) + [ReviewCall(DraftAt(run, n - 1), run.research)]
  }

  /** Draft `k` is asked for the grievance and the findings, with the feedback of round `k`. */
  lemma {:induction false} DraftCallsAt(run: Run, n: nat, k: nat)
    requires k < n
    ensures DraftCalls(run, n)[k] == DraftCall(run.grievance, run.research, FeedbackFor(run, k))
  {
    if k < n - 1 {
      DraftCallsAt(run, n - 1, k);
    }
  }

  /** Review `k` is asked about draft `k` against the findings. */
  lemma {:induction false} ReviewCallsAt(run: Run, n: nat, k: nat)
    requires k < n
    ensures ReviewCalls(run, n)[k] == ReviewCall(DraftAt(run, k), run.research)
  {
    if k < n - 1 {
      ReviewCallsAt(run, n - 1, k);
    }
  }

  /** Python's `str(n)` for any integer. */
  function IntString(n: int): string {
    if n < 0 then "-" + DecimalString(-n) else DecimalString(n)
  }

  /** The drafter's action for round `k`: the first draft, or refinement number `k + 1`. */
  function DraftAction(k: nat): string {
    if k == 0 then "creating_initial_draft" else "refining_draft_iteration_" + IntString(k + 1)
  }

  /** The entries round `k` appends before the verdict. */
  function DraftingEntries(k: nat, now: string): seq<TraceEntry> {
    [Logged("drafter", DraftAction(k), now),
     Logged("drafter", "draft_complete", now),
     Logged("expert_reviewer", "auditing_draft", now)]
  }

  /** The entries round `k` appends for its verdict; the last round also logs that the limit was reached. */
  function VerdictEntries(approved: bool, k: nat, now: string): seq<TraceEntry> {
    if approved then [Logged("expert_reviewer", "draft_approved", now)]
    else [Logged("expert_reviewer", "draft_rejected", now)]
         + (if k + 1 >= MaxIterations then [Logged("orchestrator", "max_iterations_reached", now)] else [])
  }

  /** The trace `before` followed by the entries of the first `n` rounds, round by round. */
  function LoopTrace(run: Run, before: seq<TraceEntry>, n: nat, now: string): seq<TraceEntry> {
    if n == 0 then before
    else LoopTrace(run, before, n - 1, now) + DraftingEntries(n - 1, now)
         + VerdictEntries(ReviewAt(run, n - 1).isApproved, n - 1, now)
  }

  /** Round `k` adds its drafting entries and its verdict entries to the trace. */
  lemma LoopTraceNext(run: Run, before: seq<TraceEntry>, k: nat, now: string)
    ensures LoopTrace(run, before, k + 1, now)
         == LoopTrace(run, before, k, now) + DraftingEntries(k, now) + VerdictEntries(ReviewAt(run, k).isApproved, k, now)
  {
  }

  /** The draft after round `k` addresses round `k`'s verdict. */
  lemma FeedbackNext(run: Run, k: nat)
    ensures FeedbackFor(run, k + 1) == ReviewAt(run, k).feedback
  {
  }

  /** Between 1 and `MAX_ITERATIONS` rounds run. */
  lemma IterationsBounded(run: Run)
    ensures 1 <= Iterations(run) <= MaxIterations
  {
  }

  /** Every round before the last was rejected, from round `k` on. */
  lemma {:induction false} RejectedBeforeLastFrom(run: Run, k: nat)
    requires k < MaxIterations
    ensures forall j :: k <= j < RoundsFrom(run, k) - 1 ==> !ReviewAt(run, j).isApproved
    ensures ReviewAt(run, RoundsFrom(run, k) - 1).isApproved || RoundsFrom(run, k) == MaxIterations
    decreases MaxIterations - k
  {
    if !ReviewAt(run, k).isApproved && k + 1 < MaxIterations {
      RejectedBeforeLastFrom(run, k + 1);
    }
  }

  /**
   * The loop stops at the first approval: every earlier draft was rejected, and
   * it stops early only on an approval.
   */
  lemma StopsAtFirstApproval(run: Run)
    ensures forall j :: 0 <= j < Iterations(run) - 1 ==> !ReviewAt(run, j).isApproved
    ensures Iterations(run) < MaxIterations ==> ReviewAt(run, Iterations(run) - 1).isApproved
    ensures Status(run) == "approved" <==> ReviewAt(run, Iterations(run) - 1).isApproved
  {
    RejectedBeforeLastFrom(run, 0);
  }

  /** Conversely, the rounds counted from `k` are `n` when no round in `k..n-1` approved and round `n-1` ended the loop. */
  lemma {:induction false} RoundsFromExactly(run: Run, k: nat, n: nat)
    requires k < n <= MaxIterations
    requires forall j :: k <= j < n - 1 ==> !ReviewAt(run, j).isApproved
    requires ReviewAt(run, n - 1).isApproved || n == MaxIterations
    ensures RoundsFrom(run, k) == n
    decreases n - k
  {
    if k < n - 1 {
      RoundsFromExactly(run, k + 1, n);
    }
  }

  /** The first test scenario: a reviewer that approves every draft stops the loop after one round. */
  lemma ApprovedAtOnce(run: Run)
    requires forall i, d, f :: run.reviewer(i, d, f).isApproved
    ensures Iterations(run) == 1 && Status(run) == "approved"
    ensures DraftCalls(run, 1) == [DraftCall(run.grievance, run.research, "")]
  {
    assert ReviewAt(run, 0).isApproved;
  }

  /**
   * The second test scenario: a rejection followed by an approval takes two
   * rounds, and the second draft is asked to address the first verdict's feedback.
   */
  lemma RejectedThenApproved(run: Run)
    requires forall d, f :: !run.reviewer(run.reviewsBefore, d, f).isApproved
    requires forall i, d, f :: i == run.reviewsBefore + 1 ==> run.reviewer(i, d, f).isApproved
    ensures Iterations(run) == 2 && Status(run) == "approved"
    ensures DraftCalls(run, 2)[1].feedback == ReviewAt(run, 0).feedback
  {
    RoundsFromExactly(run, 0, 2);
    DraftCallsAt(run, 2, 1);
  }

  /** The third test scenario: a reviewer that never approves runs the loop to the limit. */
  lemma NeverApproved(run: Run)
    requires forall i, d, f :: !run.reviewer(i, d, f).isApproved
    ensures Iterations(run) == MaxIterations && Status(run) == "max_iterations_reached"
    ensures |DraftCalls(run, Iterations(run))| == 3 && |ReviewCalls(run, Iterations(run))| == 3
  {
    RoundsFromExactly(run, 0, MaxIterations);
  }
}
