/**
 * The reasoning trace the orchestrator records for the frontend: an append-only
 * log of (agent, action, timestamp) entries.
 */
module AgentTraces {
  import opened Wrappers

  /** One trace entry. The free-text `details` field is not modelled. */
  datatype TraceEntry = TraceEntry(agent: string, action: string, timestamp: string)

  /** `timestamp or utcnow()`: a missing or empty timestamp is replaced by the clock reading. */
  function Stamp(timestamp: Option<string>, now: string): string {
    if timestamp.Some? && timestamp.value != [] then timestamp.value else now
  }

  class AgentTrace {
    var traces: seq<TraceEntry>

    constructor ()
      ensures traces == []
    {
      traces := [];
    }

    /** Appends one entry at the end; the entries already logged are kept as they were. */
    method Add(agent: string, action: string, timestamp: Option<string>, now: string)
      modifies this
      ensures traces == old(traces) + [TraceEntry(agent, action, Stamp(timestamp, now))]
    {
      traces := traces + [TraceEntry(agent, action, Stamp(timestamp, now))];
    }

    /** The entries logged so far, oldest first. */
    function ToDict(): (r: seq<TraceEntry>)
      reads this
      ensures r == traces
    {
      traces
    }
  }
}
