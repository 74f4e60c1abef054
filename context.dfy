/**
 * What `_gather_context` produces, as functions of the query: the context text
 * handed to the researcher and the trace entries logged on the way.
 */
module ContextGathering {
  import opened Wrappers
  import opened Text
  import opened AgentTraces
  import opened Agents

  const LocalHeader: string := "LOCAL DOCUMENTS:\n"
  const NoLocalDocuments: string := "LOCAL DOCUMENTS: No local documents found."
  const WebHeader: string := "ONLINE RESOURCES:\n"
  const NoOnlineResources: string := "ONLINE RESOURCES: No online resources found."
  const NoContext: string := "No additional context available."
  const SectionSeparator: string := "\n\n"

  /** The trace entry `trace.add(agent, action, ...)` logs without an explicit timestamp. */
  function Logged(agent: string, action: string, now: string): TraceEntry {
    TraceEntry(agent, action, now)
  }

  /** The local section: the summary under its header, or the fallback when the search raised. */
  function LocalSection(answer: Option<string>): (r: string)
    ensures answer.None? <==> r == NoLocalDocuments
    ensures |r| > 0 && r[0] == 'L'
  {
    match answer
    case Some(summary) =>
      assert (LocalHeader + summary)[16] == '\n' != NoLocalDocuments[16];
      LocalHeader + summary
    case None => NoLocalDocuments
  }

  /**
   * `"title: content"` for each hit, or `None` when a hit lacks one of the two
   * keys (the formatting raises `KeyError`, which the search's handler catches).
   */
  function FormatSources(hits: seq<WebSource>): (r: Option<seq<string>>)
    ensures r.Some? <==> forall i :: 0 <= i < |hits| ==> hits[i].title.Some? && hits[i].content.Some?
    ensures r.Some? ==> |r.value| == |hits|
  {
    if hits == [] then Some([])
    else if hits[0].title.None? || hits[0].content.None? then None
    else
      match FormatSources(hits[1..])
      case None => None
      case Some(rest) => Some([hits[0].title.value + ": " + hits[0].content.value] + rest)
  }

  /** The first three hits (`sources[:3]`). */
  function TopThree(hits: seq<WebSource>): (r: seq<WebSource>)
    ensures |r| <= 3 && |r| <= |hits| && r == hits[..|r|]
    ensures |hits| >= 3 ==> |r| == 3
    ensures |hits| <= 3 ==> r == hits
  {
    if |hits| <= 3 then hits else hits[..3]
  }

  /** The joined web text, or `None` when the search or the formatting raised. */
  function WebText(answer: Option<WebResults>): Option<string> {
    if answer.None? then None
    else
      match FormatSources(TopThree(answer.value.sources.GetOr([])))
      case None => None
      case Some(lines) => Some(Join(lines, SectionSeparator))
  }

  /** The web section: the joined hits under their header, or the fallback. */
  function WebSection(answer: Option<WebResults>): (r: string)
    ensures WebText(answer).None? <==> r == NoOnlineResources
    ensures |r| > 0 && r[0] == 'O'
  {
    match WebText(answer)
    case Some(text) =>
      assert (WebHeader + text)[17] == '\n' != NoOnlineResources[17];
      WebHeader + text
    case None => NoOnlineResources
  }

  /** The local search's contribution to the `contexts` list. */
  function LocalSections(src: Sources, query: string): seq<string> {
    if src.ragEnabled then [LocalSection(src.ragSearch(query))] else []
  }

  /** The web search's contribution to the `contexts` list. */
  function WebSections(src: Sources, query: string): seq<string> {
    if src.webEnabled then [WebSection(src.webSearch(query))] else []
  }

  /** The `contexts` list: one section per enabled source, local first. */
  function Sections(src: Sources, query: string): (r: seq<string>)
    ensures |r| == (if src.ragEnabled then 1 else 0) + (if src.webEnabled then 1 else 0)
    ensures forall i :: 0 <= i < |r| ==> r[i] != []
    ensures src.ragEnabled ==> r[0] == LocalSection(src.ragSearch(query))
    ensures src.webEnabled ==> r[|r| - 1] == WebSection(src.webSearch(query))
  {
    LocalSections(src, query) + WebSections(src, query)
  }

  /** The context text: the sections joined by a blank line, or the no-context sentence. */
  function Context(src: Sources, query: string): (r: string)
    ensures r != []
  {
    var sections := Sections(src, query);
    if sections == [] then NoContext else Join(sections, SectionSeparator)
  }

  /** The entries the local-search step appends. */
  function LocalEntries(src: Sources, query: string, now: string): seq<TraceEntry> {
    if src.ragEnabled then
      [Logged("orchestrator", "gathering_rag_context", now)]
      + (if src.ragSearch(query).Some? then [Logged("rag_search", "local_search_complete", now)] else [])
    else []
  }

  /** The entries the web-search step appends. */
  function WebEntries(src: Sources, query: string, now: string): seq<TraceEntry> {
    if src.webEnabled then
      [Logged("orchestrator", "gathering_web_context", now)]
      + (if WebText(src.webSearch(query)).Some? then [Logged("tavily_search", "web_search_complete", now)] else [])
    else []
  }

  /** The entries `_gather_context` appends, in order. */
  function GatherEntries(src: Sources, query: string, now: string): (r: seq<TraceEntry>)
    ensures |r| >= 1 && r[|r| - 1] == Logged("orchestrator", "context_ready", now)
  {
    LocalEntries(src, query, now) + WebEntries(src, query, now) + [Logged("orchestrator", "context_ready", now)]
  }

  /** The no-context sentence comes back exactly when neither source is enabled. */
  lemma NoContextIffNoSource(src: Sources, query: string)
    ensures Context(src, query) == NoContext <==> !src.ragEnabled && !src.webEnabled
  {
    var sections := Sections(src, query);
    if sections != [] {
      assert Join(sections, SectionSeparator)[0] == sections[0][0];
      assert NoContext[0] == 'N';
      assert sections[0][0] == 'L' || sections[0][0] == 'O';
    }
  }

  /** A failing local search puts its fallback sentence at the head of the context. */
  lemma LocalFailureFallsBack(src: Sources, query: string)
    requires src.ragEnabled && src.ragSearch(query).None?
    ensures |NoLocalDocuments| <= |Context(src, query)|
    ensures Context(src, query)[..|NoLocalDocuments|] == NoLocalDocuments
  {
    var sections := Sections(src, query);
    assert sections[0] == NoLocalDocuments;
  }

  /** A failing web search (or a malformed hit) puts its fallback sentence at the end of the context. */
  lemma WebFailureFallsBack(src: Sources, query: string)
    requires src.webEnabled && WebText(src.webSearch(query)).None?
    ensures |NoOnlineResources| <= |Context(src, query)|
    ensures Context(src, query)[|Context(src, query)| - |NoOnlineResources|..] == NoOnlineResources
  {
    var sections := Sections(src, query);
    assert sections[|sections| - 1] == NoOnlineResources;
    JoinEndsWithLast(sections, SectionSeparator);
  }

  /** With both sources enabled the context is the local section, a blank line, and the web section. */
  lemma BothSections(src: Sources, query: string)
    requires src.ragEnabled && src.webEnabled
    ensures Context(src, query)
         == LocalSection(src.ragSearch(query)) + SectionSeparator + WebSection(src.webSearch(query))
  {
    var sections := Sections(src, query);
    assert sections[1..] == [WebSection(src.webSearch(query))];
  }

  /** The entries of the research phase: gathering the context, then the researcher's two. */
  function ResearchEntries(src: Sources, query: string, now: string): seq<TraceEntry> {
    GatherEntries(src, query, now)
    + [Logged("researcher", "analyzing_grievance", now), Logged("researcher", "research_complete", now)]
  }
}
