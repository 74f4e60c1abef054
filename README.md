# nyaya-ams legal-aid workflow core, in Dafny

This project models the core of the nyaya-ams backend. The backend helps a citizen turn a
plain-text grievance into a formal legal petition, with research, drafting and expert
review done by language-model agents. Four pieces of it are modelled:

- **PII redaction** (`PiiRedactor`, `PiiRoundTrip`). `redact` runs six pattern categories in
  a fixed order: Aadhaar number, PAN, mobile number, e-mail, titled name, street address.
  Each match in the original text becomes a placeholder `[LABEL_n]`, and the map from
  placeholder to original is kept in insertion order. `restore` puts the originals back.
  The redactor is a class whose `redactionMap` field is rebuilt in place. The three
  fixed-width patterns are written out as scanners, each with a lemma saying exactly which
  strings it matches; the redaction proofs hold for any six matchers. `PiiExamples` states,
  for several of the redaction test suite's samples, the span each fixed-width pattern
  finds, and one complete redact-and-restore call.
- **The session table** (`Workflow`). A map from session id to a session record, with
  create, get, merge-update (Python's `dict.update` plus a fresh `updated_at`) and delete.
- **The orchestrator** (`AgentTraces`, `Agents`, `ContextGathering`, `ReviewLoop`,
  `Orchestration`). It covers:
  - the append-only agent trace;
  - context gathering from the local document search and the web search;
  - the human-in-the-loop workflow: `start_research`, `continue_with_draft`, `refine_draft`
    and `finalize_workflow`, each a read-check-update on the session table;
  - the automatic `generate_legal_aid` loop, which drafts and reviews until an approval or
    `MAX_ITERATIONS = 3` drafts.

  The agents and the two search sources are given as reply functions of their call number
  and arguments. Each agent logs the calls it receives, so the contracts say exactly which
  calls each workflow step makes.
- **The transcription state** (`Transcription`). The connected clients, a bounded queue of
  the 50 most recent transcriptions, and a set of processed audio chunks for
  de-duplication. The set is wiped once it grows past 1000 entries.

Python exceptions are modelled as values: `Outcome<T> = Ok(value) | Raised(error)`, with
`SessionNotFound`, `InvalidStage`, `MaxIterationsReached` and `MissingKey` (a `KeyError`).

The model follows the code as written. Behaviours of the code worth knowing:

- **Shared placeholder counter.** The number in a placeholder is the size of the whole map
  plus one, so one counter runs across all six categories. For example, a PAN found after
  two Aadhaar numbers is `[PAN_3]`, not `[PAN_1]`.
- **Refinement limit.** `continue_with_draft` stores iteration 1, so only two refinements
  succeed. The third `refine_draft` call is refused with `MaxIterationsReached`.
- **No redaction in the automatic mode.** `generate_legal_aid` hands the grievance to the
  agents as given. Only the human-in-the-loop `start_research` redacts.
- **Partial state on failure.** A failing step can leave partial state behind:
  - the refusal in `refine_draft` still saves the refusal trace entry;
  - `finalize_workflow` marks the session complete before it reads `current_draft` and
    `approved_research`, so a missing key leaves a completed, undeleted session.
- **No research-reject path.** `continue_with_draft` only approves. There is no step that
  rejects the research and re-runs it.

## Model

| member | source | states |
|---|---|---|
| PiiRedactor.StandardMatchers | backend/app/utils/pii_redactor.py:14-21 | the pattern table: Aadhaar, PAN and mobile are the three scanners below, e-mail, name and address are given; every pattern starts and ends at a word boundary, the given ones whenever they are anchored so |
| PiiRedactor.AadhaarAtIff | backend/app/utils/pii_redactor.py:15 | `\b\d{4}\s?\d{4}\s?\d{4}\b` matches from i to e exactly when the slice is three groups of four digits with at most one whitespace character between groups, with no word character just before or just after |
| PiiRedactor.PanAtIff | backend/app/utils/pii_redactor.py:16 | `\b[A-Z]{5}\d{4}[A-Z]\b` matches from i to e exactly when the slice is five capitals, four digits and a capital, standing alone |
| PiiRedactor.MobileAtIff | backend/app/utils/pii_redactor.py:17 | `\b[6-9]\d{9}\b` matches from i to e exactly when the slice is ten digits starting with 6 to 9, standing alone |
| PiiRedactor.WordStart | backend/app/utils/pii_redactor.py:15-17 | each of the three patterns can only start on a digit or capital with no word character before it |
| PiiRedactor.InsideWordNoMatch | backend/app/utils/pii_redactor.py:15-17 | none of the three patterns starts inside a run of word characters |
| PiiRedactor.AadhaarAfterLead | backend/app/utils/pii_redactor.py:15 | a standalone Aadhaar number after a digit-free lead not ending in a word character is the only Aadhaar match |
| PiiRedactor.PanAfterLead | backend/app/utils/pii_redactor.py:16 | a standalone PAN after a digit-free lead not ending in a word character is the only PAN match |
| PiiRedactor.MobileAfterLead | backend/app/utils/pii_redactor.py:17 | a standalone mobile number after a digit-free lead not ending in a word character is the only mobile match |
| PiiRedactor.NoWordCharNoMatch | backend/app/utils/pii_redactor.py:14-74 | text without word characters has no match in any anchored pattern, so it comes back unchanged with an empty map |
| PiiRedactor.Rank | backend/app/utils/pii_redactor.py:38-72 | each category has one position in the processing order aadhaar, pan, mobile, email, name, address |
| PiiRedactor.Scan | backend/app/utils/pii_redactor.py:38 | `re.finditer`: non-empty, in-bounds matches in text order that do not overlap |
| PiiRedactor.ScanSkip | backend/app/utils/pii_redactor.py:38 | `finditer` passes over positions where the pattern does not match |
| PiiRedactor.ScanHit | backend/app/utils/pii_redactor.py:38 | a match at the current position is reported and the search resumes at its end |
| PiiRedactor.CategoryMatches | backend/app/utils/pii_redactor.py:38-39 | every match of one category carries that category and non-empty text |
| PiiRedactor.Redactor.constructor | backend/app/utils/pii_redactor.py:23-24 | a new redactor has the standard patterns and an empty map |
| PiiRedactor.Redactor.Redact | backend/app/utils/pii_redactor.py:26-74 | the returned text and map are those of handling every match of the original text in category order; the map is rebuilt from empty and also kept in `redactionMap` |
| PiiRedactor.Redactor.RedactCategory | backend/app/utils/pii_redactor.py:38-42 | one category's loop extends the redaction from the earlier categories' matches to this category's matches too |
| PiiRedactor.Redactor.RedactMatches | backend/app/utils/pii_redactor.py:38-42 | the loop over one category's matches handles them in order after those already handled |
| PiiRedactor.Redactor.RedactMatch | backend/app/utils/pii_redactor.py:39-42 | one loop body: placeholder numbered map size + 1, map entry set, every occurrence of the original replaced |
| PiiRedactor.Redactor.Restore | backend/app/utils/pii_redactor.py:76-89 | every key is replaced by its value, in map order; an empty map returns the text unchanged |
| PiiRedactor.DictSetFresh | backend/app/utils/pii_redactor.py:40 | assigning a new key to an insertion-ordered dict appends it at the end |
| PiiRedactor.RedactMapEnumerates | backend/app/utils/pii_redactor.py:38-72 | each match adds exactly one entry: the i-th match handled is stored under its category's placeholder numbered i + 1, with the matched text as value |
| PiiRedactor.RedactedMapEnumerates | backend/app/utils/pii_redactor.py:36-74 | the map of `redact(t)` numbers all matches of `t` 1..k in handling order, from a fresh map |
| PiiRedactor.EnumerateFreshKey | backend/app/utils/pii_redactor.py:39-40 | the next placeholder is never already a key, so the assignment always adds an entry |
| PiiRedactor.EnumeratedKeysDistinct | backend/app/utils/pii_redactor.py:38-72 | the keys of the map are pairwise distinct |
| PiiRedactor.NumberedInjective | backend/app/utils/pii_redactor.py:39 | two `[TAG_n]` strings that are equal carry the same number, whatever their tags |
| PiiRedactor.PlaceholderNumberInjective | backend/app/utils/pii_redactor.py:39 | equal placeholders carry equal numbers, across categories |
| PiiRedactor.PlaceholderKeyForm | backend/app/utils/pii_redactor.py:39 | a placeholder opens with `[`, closes with `]` and has no bracket in between |
| PiiRedactor.MatchesAreSlices | backend/app/utils/pii_redactor.py:38-39 | every match is a non-empty substring of the original text |
| PiiRedactor.MapValuesFromOriginal | backend/app/utils/pii_redactor.py:38-41 | every map value is a non-empty substring of the original input |
| PiiRedactor.CategoryOrderRespected | backend/app/utils/pii_redactor.py:38-68 | matches are handled category by category in the fixed order, and only categories already reached occur |
| PiiRedactor.RankedAppend | backend/app/utils/pii_redactor.py:38-68 | a later category's matches appended after earlier ones keep the order |
| PiiRedactor.NoMatchesNoChange | backend/app/utils/pii_redactor.py:35-74 | text with no match in any category comes back unchanged with an empty map |
| PiiRedactor.EmptyTextUnchanged | backend/app/utils/pii_redactor.py:35-74 | the empty string comes back unchanged with an empty map |
| PiiRedactor.RestoreAbsentKeys | backend/app/utils/pii_redactor.py:86-89 | keys that do not occur in the text have no effect |
| PiiRedactor.RedactAllSnoc | backend/app/utils/pii_redactor.py:38-42 | one more loop iteration is one more step of the redaction |
| PiiRoundTrip.MatchesSeparated | backend/app/utils/pii_redactor.py:38-42 | for bracket-free text whose matches avoid the placeholders, the matched texts and the keys are separated: non-empty, bracket-free, no key inside a text, keys distinct |
| PiiRoundTrip.RedactedUnfold | backend/app/utils/pii_redactor.py:26-74 | the redacted text is the original with each match turned into a hole spelled as its placeholder, and the map pairs each placeholder with its match |
| PiiRoundTrip.ForwardStep | backend/app/utils/pii_redactor.py:42 | `str.replace(original, placeholder)` acts on the token view exactly as replacing each run that spells the original by a hole |
| PiiRoundTrip.BackwardStep | backend/app/utils/pii_redactor.py:88 | `str.replace(placeholder, original)` turns exactly that placeholder's holes back into the original |
| PiiRoundTrip.RoundTrip | backend/app/utils/pii_redactor.py:26-89 | `restore(redact(t))` is `t` when `t` has no square bracket and no match occurs inside a placeholder of the same call |
| PiiRoundTrip.OriginalsGone | backend/app/utils/pii_redactor.py:42 | under the same conditions no matched original occurs in the redacted text |
| PiiExamples.AadhaarWithSpaces | backend/app/tests/test_pii_redactor.py:10-17 | `1234 5678 9012` in "My Aadhaar is 1234 5678 9012" is found, spaces included |
| PiiExamples.AadhaarWithoutSpaces | backend/app/tests/test_pii_redactor.py:19-25 | `123456789012` in "Aadhaar: 123456789012" is found |
| PiiExamples.ValidPan | backend/app/tests/test_pii_redactor.py:40-47 | `ABCDE1234F` in "My PAN is ABCDE1234F" is found |
| PiiExamples.LowerCasePanIgnored | backend/app/utils/pii_redactor.py:16 | the PAN pattern is case-sensitive: `abcde1234f` has no PAN match |
| PiiExamples.ValidMobile | backend/app/tests/test_pii_redactor.py:61-67 | `9876543210` in "Call me at 9876543210" is found |
| PiiExamples.MobileFirstDigit | backend/app/tests/test_pii_redactor.py:69-75 | ten standalone digits are a mobile number exactly when the first is 6 to 9 |
| PiiExamples.NoMobileFromLowDigit | backend/app/utils/pii_redactor.py:17 | ten standalone digits starting with 0 to 5 hold no mobile match |
| PiiExamples.WhitespaceOnly | backend/app/tests/test_pii_redactor.py:235-239 | whitespace-only text comes back unchanged with an empty map |
| PiiExamples.PanNotDigits | backend/app/utils/pii_redactor.py:15-17 | a standalone PAN holds no Aadhaar or mobile match |
| PiiExamples.PanOnlyMatch | backend/app/tests/test_pii_redactor.py:40-47 | a standalone PAN after a digit-free lead not ending in a word character is the one match of all six categories when the free-form patterns find nothing |
| PiiExamples.OnlyPanMatches | backend/app/utils/pii_redactor.py:38-72 | one PAN span and nothing else gives exactly that one match |
| PiiExamples.SingleMatchRoundTrip | backend/app/utils/pii_redactor.py:26-89 | in text without square brackets, a call with one match longer than its placeholder stores one entry, removes the match and restores the text |
| PiiExamples.FirstPanPlaceholder | backend/app/utils/pii_redactor.py:39 | the first PAN placeholder is `[PAN_1]` |
| PiiExamples.PanRoundTrip | backend/app/tests/test_pii_redactor.py:146-152 | when the lead is bracket-free, has no digit and does not end in a word character, and the e-mail, name and address patterns find nothing in the whole text, `redact` then `restore` on a standalone PAN after the lead gives the map `{[PAN_1]: PAN}`, hides the PAN and gives the text back |
| PiiExamples.PanRedactedAndRestored | backend/app/tests/test_pii_redactor.py:40-47 | on "My PAN is ABCDE1234F" the map is `{"[PAN_1]": "ABCDE1234F"}`, the PAN is gone and `restore` gives the sample back |
| Text.ReplaceAbsent | backend/app/utils/pii_redactor.py:88 | `str.replace` of a non-empty string that does not occur leaves the text unchanged |
| Text.DecimalStringInjective | backend/app/utils/pii_redactor.py:39 | distinct numbers print differently |
| Workflow.NewSession | backend/app/services/workflow_state.py:20-26 | a new record has the id, the grievance, stage `started` and both times `now`, and nothing else |
| Workflow.FreshId | backend/app/services/workflow_state.py:19 | the new id is not the id of any stored session |
| Workflow.WorkflowState.constructor | backend/app/services/workflow_state.py:14 | the table starts empty |
| Workflow.WorkflowState.CreateSession | backend/app/services/workflow_state.py:17-28 | a new record is stored under a fresh id; no other session is touched |
| Workflow.WorkflowState.GetSession | backend/app/services/workflow_state.py:31-33 | the stored record exactly when the id is known, otherwise none |
| Workflow.WorkflowState.UpdateSession | backend/app/services/workflow_state.py:36-41 | a known record gets the given keys merged in and `updated_at` refreshed; an unknown id changes nothing |
| Workflow.WorkflowState.DeleteSession | backend/app/services/workflow_state.py:44-48 | the id is gone afterwards and every other session stays |
| Workflow.ApplyNoKeys | backend/app/services/workflow_state.py:39 | an update with no keys leaves the record as it was |
| Workflow.ApplyMerge | backend/app/services/workflow_state.py:39 | two updates in a row are one update with the merged data, later keys winning |
| Workflow.ApplyIdempotent | backend/app/services/workflow_state.py:39 | repeating an update changes nothing more |
| Workflow.ApplyKeepsIdentity | backend/app/services/workflow_state.py:39 | an update never changes the id, the grievance or the creation time |
| AgentTraces.Stamp | backend/app/services/orchestrator.py:46 | `timestamp or utcnow()`: a missing or empty timestamp is replaced by the clock reading |
| AgentTraces.AgentTrace.constructor | backend/app/services/orchestrator.py:29-30 | a new trace is empty |
| AgentTraces.AgentTrace.Add | backend/app/services/orchestrator.py:32-48 | one entry is appended at the end; earlier entries are kept |
| AgentTraces.AgentTrace.ToDict | backend/app/services/orchestrator.py:50-52 | the entries logged so far, in the order they were added |
| Agents.ResearcherAgent.Analyze | backend/app/services/orchestrator.py:203 | the researcher answers its n-th call and logs it |
| Agents.DrafterAgent.Draft | backend/app/services/orchestrator.py:266 | the drafter answers its n-th call and logs it |
| Agents.ExpertReviewerAgent.Review | backend/app/services/orchestrator.py:534 | the reviewer answers its n-th call and logs it |
| ContextGathering.LocalSection | backend/app/services/orchestrator.py:128-138 | the local section is the summary under its header, and it is the fallback sentence exactly when the search raised |
| ContextGathering.FormatSources | backend/app/services/orchestrator.py:150 | formatting succeeds exactly when every hit has a title and a content, giving one line per hit |
| ContextGathering.TopThree | backend/app/services/orchestrator.py:149-150 | `sources[:3]`: the first three hits, or all of them when fewer |
| ContextGathering.WebSection | backend/app/services/orchestrator.py:147-159 | the web section is the joined hits under its header, and it is the fallback sentence exactly when the search or the formatting raised |
| ContextGathering.Sections | backend/app/services/orchestrator.py:119-159 | one non-empty section per enabled source, local first |
| ContextGathering.Context | backend/app/services/orchestrator.py:162 | the combined context is never empty |
| ContextGathering.GatherEntries | backend/app/services/orchestrator.py:122-168 | the entries logged end with `context_ready` |
| ContextGathering.NoContextIffNoSource | backend/app/services/orchestrator.py:162 | the no-context sentence comes back exactly when neither source is enabled |
| ContextGathering.LocalFailureFallsBack | backend/app/services/orchestrator.py:136-138 | a failed local search puts its fallback sentence at the head of the context |
| ContextGathering.WebFailureFallsBack | backend/app/services/orchestrator.py:157-159 | a failed web search or a malformed hit puts its fallback sentence at the end of the context |
| ContextGathering.BothSections | backend/app/services/orchestrator.py:119-162 | with both sources enabled the context is the local section, a blank line and the web section |
| Orchestration.LegalAidOrchestrator.GatherContext | backend/app/services/orchestrator.py:108-170 | `_gather_context` returns the context and appends exactly the gathering entries to the trace |
| Orchestration.LegalAidOrchestrator.SearchLocal | backend/app/services/orchestrator.py:122-138 | the local step's section and entries |
| Orchestration.LegalAidOrchestrator.SearchWeb | backend/app/services/orchestrator.py:141-159 | the web step's section and entries |
| Orchestration.LegalAidOrchestrator.Research | backend/app/services/orchestrator.py:194-210 | context gathering, then one researcher call on the same text with that context, and the two researcher entries |
| Orchestration.LegalAidOrchestrator.ResearchRedacted | backend/app/services/orchestrator.py:185-210 | a fresh trace begins with the redaction entry, then the research on the redacted text |
| Orchestration.LegalAidOrchestrator.StartResearch | backend/app/services/orchestrator.py:172-229 | the agents see only the redacted text; a new session under a fresh id holds the original grievance, the redacted one, the map, the findings, the context and the trace, at stage awaiting research approval; `pii_redacted` iff the map is non-empty; the table invariant is kept |
| Orchestration.LegalAidOrchestrator.Checked | backend/app/services/orchestrator.py:241-246 | the session lookup: not found, or at the wrong stage, raises the matching error; otherwise the stored record |
| Orchestration.LegalAidOrchestrator.ContinueWithDraft | backend/app/services/orchestrator.py:231-295 | an unknown id or wrong stage raises and changes nothing; otherwise one drafter call on the redacted grievance with the approved research and no feedback, stored as iteration 1 at stage awaiting draft review, with the three new trace entries |
| Orchestration.LegalAidOrchestrator.RefineDraft | backend/app/services/orchestrator.py:297-377 | errors raise without change; past `MAX_ITERATIONS` only the refusal entry is saved and `MaxIterationsReached` is raised; otherwise the draft addressing the feedback replaces the stored one at the next iteration; on a table that keeps the invariant no `KeyError` arises |
| Orchestration.LegalAidOrchestrator.LogRefusal | backend/app/services/orchestrator.py:319-330 | the refusal branch saves only the trace with the refusal entry |
| Orchestration.LegalAidOrchestrator.Redraft | backend/app/services/orchestrator.py:336-364 | the main branch: one drafter call with the human feedback, and the new draft, trace and iteration stored |
| Orchestration.LegalAidOrchestrator.FinalizeWorkflow | backend/app/services/orchestrator.py:379-446 | errors raise without change; otherwise the session is marked complete, the draft gets its originals back through `restore` with the stored map, the result carries the approved research and the trace, and the session is deleted; a missing key raises after the session was saved as complete |
| Orchestration.LegalAidOrchestrator.MarkComplete | backend/app/services/orchestrator.py:395-415 | the approval entries are logged and the session saved as complete |
| Orchestration.LegalAidOrchestrator.RestoreDraft | backend/app/services/orchestrator.py:419-426 | only a non-empty map is applied and logged |
| Orchestration.InvariantKeptByStore | backend/app/services/workflow_state.py:38-40 | storing a well-formed record under its own id keeps every record well formed |
| Orchestration.InvariantKeptByDelete | backend/app/services/workflow_state.py:46-47 | deleting a record keeps every other record well formed |
| Orchestration.FinalTraces | backend/app/services/orchestrator.py:395-426 | the trace `finalize_workflow` returns: the saved one, the two approval entries, and the restoration entry when a map was kept |
| Orchestration.LegalAidOrchestrator.GenerateLegalAid | backend/app/services/orchestrator.py:448-580 | one researcher call on the grievance as given; then the draft-review rounds, the final draft, the last verdict, the number of rounds, the status and the full trace, as functions of the agents' replies |
| Orchestration.LegalAidOrchestrator.DraftUntilApproved | backend/app/services/orchestrator.py:494-579 | the loop, the status read off the last verdict, and the closing entry |
| Orchestration.LegalAidOrchestrator.DraftAndReview | backend/app/services/orchestrator.py:494-559 | the loop stops at the first approval or after `MAX_ITERATIONS` rounds, having made exactly one drafter and one reviewer call per round |
| Orchestration.LegalAidOrchestrator.Round | backend/app/services/orchestrator.py:500-559 | one round: draft with the previous verdict's feedback, review it, log both |
| Orchestration.LegalAidOrchestrator.DraftStep | backend/app/services/orchestrator.py:502-532 | the drafting half of a round and its three entries |
| Orchestration.LegalAidOrchestrator.ReviewStep | backend/app/services/orchestrator.py:534-559 | the verdict and its entries; the last rejected round also logs that the limit was reached |
| ReviewLoop.RoundsFrom | backend/app/services/orchestrator.py:499-544 | between one and `MAX_ITERATIONS` rounds run |
| ReviewLoop.DraftCalls | backend/app/services/orchestrator.py:517 | one drafter call per round |
| ReviewLoop.ReviewCalls | backend/app/services/orchestrator.py:534 | one reviewer call per round |
| ReviewLoop.DraftCallsAt | backend/app/services/orchestrator.py:517 | draft k is asked for the grievance and the findings, with round k's feedback |
| ReviewLoop.ReviewCallsAt | backend/app/services/orchestrator.py:534 | review k is asked about draft k |
| ReviewLoop.LoopTraceNext | backend/app/services/orchestrator.py:502-559 | each round appends its drafting entries and then its verdict entries |
| ReviewLoop.FeedbackNext | backend/app/services/orchestrator.py:546 | the draft after a rejection addresses that verdict's feedback |
| ReviewLoop.IterationsBounded | backend/app/services/orchestrator.py:70 | `1 <= iterations <= MAX_ITERATIONS = 3` |
| ReviewLoop.RejectedBeforeLastFrom | backend/app/services/orchestrator.py:536-546 | every round before the last was rejected, and the last was approved or the limit |
| ReviewLoop.StopsAtFirstApproval | backend/app/services/orchestrator.py:536-562 | the loop stops at the first approval; it stops early only on an approval; `status` is `approved` iff the last review approved |
| ReviewLoop.RoundsFromExactly | backend/app/services/orchestrator.py:499-544 | the rounds run are exactly n when rounds before n - 1 were rejected and round n - 1 ended the loop |
| ReviewLoop.ApprovedAtOnce | backend/app/tests/test_orchestrator.py:104-134 | an approving reviewer stops the loop after one round, status `approved`, the draft asked without feedback |
| ReviewLoop.RejectedThenApproved | backend/app/tests/test_orchestrator.py:142-176 | a rejection then an approval takes two rounds, the second draft addressing the first verdict's feedback |
| ReviewLoop.NeverApproved | backend/app/tests/test_orchestrator.py:181-211 | a reviewer that never approves runs the loop to `MAX_ITERATIONS`, status `max_iterations_reached`, three calls each |
| Transcription.LastN | backend/app/services/transcription_state.py:27 | `deque(maxlen=n)`: at most n items, all of them while there are no more than n, exactly n otherwise |
| Transcription.LastNIsSuffix | backend/app/services/transcription_state.py:27 | the window is the newest items fed in, in their order |
| Transcription.LastNAppend | backend/app/services/transcription_state.py:57 | appending to the window equals keeping the last n of everything appended |
| Transcription.FullQueueDropsOldest | backend/app/services/transcription_state.py:57 | on a full queue an append drops the oldest item and keeps the rest in order |
| Transcription.NewestKept | backend/app/services/transcription_state.py:57 | the item just appended is always at the back of the queue |
| Transcription.Marked | backend/app/services/transcription_state.py:92-97 | after marking, the set is within the limit and is either the old set plus the chunk or empty |
| Transcription.MarkedBelowLimit | backend/app/services/transcription_state.py:92-97 | below the limit the chunk is recorded and nothing is lost |
| Transcription.MarkedAgain | backend/app/services/transcription_state.py:92-97 | marking an already processed chunk changes nothing |
| Transcription.MarkedWipes | backend/app/services/transcription_state.py:92-97 | a new chunk on a full set wipes the whole set, the new chunk included |
| Transcription.TranscriptionState.constructor | backend/app/services/transcription_state.py:24-30 | all three collections start empty |
| Transcription.TranscriptionState.AddClient | backend/app/services/transcription_state.py:33-36 | the id joins the client set; nothing else changes |
| Transcription.TranscriptionState.RemoveClient | backend/app/services/transcription_state.py:39-42 | the id leaves the set; an absent id changes nothing |
| Transcription.TranscriptionState.GetActiveClients | backend/app/services/transcription_state.py:45-47 | a copy equal to the client set |
| Transcription.TranscriptionState.AddTranscription | backend/app/services/transcription_state.py:50-58 | the record is appended at the back and the queue stays the last 50 added |
| Transcription.TranscriptionState.GetRecentTranscriptions | backend/app/services/transcription_state.py:61-63 | the last 50 records added since the last clear, oldest first, at most 50 |
| Transcription.TranscriptionState.ClearTranscriptions | backend/app/services/transcription_state.py:66-69 | the queue is emptied; clients and chunks stay |
| Transcription.TranscriptionState.IsChunkProcessed | backend/app/services/transcription_state.py:72-82 | a chunk is reported processed exactly when it was marked since the set was last wiped |
| Transcription.TranscriptionState.MarkChunkProcessed | backend/app/services/transcription_state.py:85-97 | the chunk is added, the whole set is cleared once it exceeds 1000, and the set never holds more than 1000 |
| Transcription.TranscriptionState.GetStats | backend/app/services/transcription_state.py:100-112 | the counts are the current sizes, within 50 and 1000, stamped with the clock reading |

## Left out

- Logging, the free-text `details` of trace entries and all user-facing message strings are
  not modelled. Only the `agent`, `action` and `timestamp` of each entry are kept.
- Clock readings (`datetime.utcnow()`) are a `now` parameter, one per operation.
  `uuid4()` is modelled by `Workflow.FreshId`, which returns any id not yet in use.
- The language-model agents, the local document search (FAISS and its summariser) and the
  web search are given as reply functions. Their prompts, network calls and exceptions are
  not part of this model. An agent call that raises, which the source propagates, is not
  modelled. A search that raises is modelled as a `None` answer, which is what the source's
  handlers turn it into.
- `async`/`await` is modelled as ordinary sequential calls. Concurrent requests on the shared
  session table or transcription state are not modelled.
- StandardMatchers: the e-mail, titled-name and street-address regular expressions are
  parameters, not written out. Every redaction property is proved for any six matchers,
  so it holds for the real ones too. That these three start and end at a word boundary
  (each pattern begins and ends with `\b`) is a hypothesis of the lemmas that use it.
- StandardMatchers: in a Python `str` pattern `\d` is any Unicode decimal digit and `\w`,
  hence `\b`, is Unicode-aware. The scanners take `\d` and `\w` over ASCII only, so
  Devanagari or other non-ASCII digits and letters are not modelled: for example a number
  written in Devanagari digits, which Python would match, is not matched here, and `ü` just
  before a number counts as a boundary here but not in Python. `\s` is modelled in full, as
  the characters Python's `str.isspace` accepts.
- Scan: a matcher answers "the match starting at position i ends at e". This is what
  `re.finditer` yields for patterns that cannot match the empty string, which holds for all
  six patterns.
- SingleMatchRoundTrip: proved only for text without `[` or `]`. With a bracket the round
  trip can fail: `[PAN_1] ABCDE1234F` has one match, redacts to `[PAN_1] [PAN_1]` and
  restores to `ABCDE1234F ABCDE1234F`.
- PanRoundTrip: proved only after a lead without digits, brackets or a closing word
  character, and only when the e-mail, name and address patterns find nothing in the text.
  The test samples with more than one match (several PANs, a name and a mobile number, and
  so on) are not stated as lemmas.
- RoundTrip and OriginalsGone: proved only for text without `[` or `]` in which no match
  occurs inside a placeholder of the same call. The bracket condition is stronger than the
  property needs. `restore` can only go wrong on text that already contains a
  placeholder-shaped substring `[LABEL_n]`. Text such as `[INSERT NAME]` round-trips too,
  but it is outside what is proved here.
- AgentTraces.AgentTrace.ToDict: returns the entries as a value. In Python the list it
  returns is the trace object's own list, shared with the stored session record and with
  responses already handed out, so later `add` calls show up in all of them. The model
  copies the list back only where the core observes the sharing: the restoration entry that
  `finalize_workflow` appends after saving is written into the stored record on the
  missing-`approved_research` path.
- Orchestration.LegalAidOrchestrator.StartResearch: the session record is built by the
  update `Patch`, which covers the keys the workflow writes after creation. `session_id`,
  `grievance` and `created_at` are set only when the record is created.
- PiiRedactor.Redactor.Redact: its `ensures` ties the result to the `Redacted` function.
  The numbering, distinct keys, category order and value properties are stated as
  separate lemmas about that function (RedactedMapEnumerates and the lemmas after it).
- The domain configuration that enables each search is a pair of flags in `Sources`. The
  source's extra check that the search client was constructed is folded into those flags.
- The orchestrator constructor's wiring (domain loader, agent construction) and the
  pydantic and FastAPI layers are not part of this model.
- The socket handler calls `TranscriptionState.clear_processed_chunks` at
  backend/app/sockets/transcription_handlers.py:37, but the class does not define it. The
  handler is not part of this model.
