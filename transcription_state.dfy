/**
 * The in-memory state of the live transcription service: the connected
 * clients, a bounded queue of recent transcriptions for clients that poll, and
 * the set of audio chunks already processed, which is wiped once it grows past
 * its limit.
 */
module Transcription {

  /** `MAX_RECENT_TRANSCRIPTIONS`: the capacity of the recent-transcription queue. */
  const MaxRecentTranscriptions: nat := 50

  /** `MAX_PROCESSED_CHUNKS`: the largest processed-chunk set that is kept. */
  const MaxProcessedChunks: nat := 1000

  /** What `get_stats` reports: the three sizes and the time of the reading. */
  datatype Stats = Stats(activeClients: nat, recentTranscriptions: nat, processedChunks: nat, timestamp: string)

  // ---------------------------------------------------------------------------
  // The two bounded collections, as values
  // ---------------------------------------------------------------------------

  /** The last `n` items of `s` (all of `s` when it is shorter): a `deque(maxlen=n)` fed with `s`. */
  function LastN<T>(s: seq<T>, n: nat): (r: seq<T>)
    ensures |r| <= n && |r| <= |s|
    ensures |s| <= n ==> r == s
    ensures |s| >= n ==> |r| == n
  {
    if |s| <= n then s else s[|s| - n..]
  }

  /** The window is a suffix of what was fed in: the newest items, in their order. */
  lemma LastNIsSuffix<T>(s: seq<T>, n: nat)
    ensures LastN(s, n) == s[|s| - |LastN(s, n)|..]
  {
    if |s| <= n {
      assert s[0..] == s;
    }
  }

  /** Appending to a full-length window is appending to everything and keeping the last `n`. */
  lemma LastNAppend<T>(s: seq<T>, x: T, n: nat)
    ensures LastN(LastN(s, n) + [x], n) == LastN(s + [x], n)
  {
    var w := LastN(s, n);
    var t := s + [x];
    if |s| > n {
      assert w + [x] == t[|t| - n - 1..];
      assert (w + [x])[1..] == t[|t| - n..];
    }
  }

  /** When the queue is full, an append drops the oldest item and keeps the rest in order. */
  lemma FullQueueDropsOldest<T>(q: seq<T>, x: T, n: nat)
    requires |q| == n > 0
    ensures LastN(q + [x], n) == q[1..] + [x]
  {
    assert (q + [x])[1..] == q[1..] + [x];
  }

  /** The newest item is always in the window, at its end. */
  lemma NewestKept<T>(s: seq<T>, x: T, n: nat)
    requires n > 0
    ensures |LastN(s + [x], n)| > 0
    ensures LastN(s + [x], n)[|LastN(s + [x], n)| - 1] == x
  {
    var t := s + [x];
    var r := LastN(t, n);
    LastNIsSuffix(t, n);
    assert r[|r| - 1] == t[|t| - 1];
  }

  /** The processed-chunk set after `mark_chunk_processed(c)`: `c` added, everything dropped past `cap`. */
  function Marked(s: set<string>, c: string, cap: nat): (r: set<string>)
    ensures |r| <= cap
    ensures r == {} || r == s + {c}
  {
    if |s + {c}| > cap then {} else s + {c}
  }

  /** Below the limit the chunk is recorded and nothing is lost. */
  lemma MarkedBelowLimit(s: set<string>, c: string, cap: nat)
    requires |s| < cap
    ensures Marked(s, c, cap) == s + {c}
    ensures c in Marked(s, c, cap)
  {
    if c !in s {
      assert |s + {c}| == |s| + 1;
    } else {
      assert s + {c} == s;
    }
  }

  /** Marking an already processed chunk changes nothing, as long as the set is within the limit. */
  lemma MarkedAgain(s: set<string>, c: string, cap: nat)
    requires c in s && |s| <= cap
    ensures Marked(s, c, cap) == s
  {
    assert s + {c} == s;
  }

  /** A new chunk on a full set wipes it, the new chunk included. */
  lemma MarkedWipes(s: set<string>, c: string, cap: nat)
    requires |s| == cap && c !in s
    ensures Marked(s, c, cap) == {}
    ensures c !in Marked(s, c, cap)
  {
    assert |s + {c}| == |s| + 1;
  }

  /** The chunks listed in `h`, as a set. */
  ghost function SetOf(h: seq<string>): set<string> {
    if h == [] then {} else SetOf(h[..|h| - 1]) + {h[|h| - 1]}
  }

  /** Recording one more chunk adds it to the set. */
  lemma SetOfSnoc(h: seq<string>, c: string)
    ensures SetOf(h + [c]) == SetOf(h) + {c}
  {
    assert (h + [c])[..|h|] == h;
  }

  /** A chunk is in the set exactly when it is listed. */
  lemma {:induction false} SetOfMember(h: seq<string>, c: string)
    ensures c in SetOf(h) <==> c in h
  {
    if h != [] {
      var init := h[..|h| - 1];
      SetOfMember(init, c);
      assert h == init + [h[|h| - 1]];
      assert c in h <==> c in init || c == h[|h| - 1];
    }
  }

  // ---------------------------------------------------------------------------
  // The shared state
  // ---------------------------------------------------------------------------

  /**
   * The class-level state of `TranscriptionState`, one object shared by every
   * handler. Two ghost histories say what the collections stand for: `added`
   * holds every transcription queued since the last clear, `sinceWipe` every
   * chunk marked since the processed set was last emptied.
   */
  class TranscriptionState<Record> {
    var activeClients: set<string>
    var recent: seq<Record>
    var processed: set<string>
    ghost var added: seq<Record>
    ghost var sinceWipe: seq<string>

    /**
     * The queue is the last `MAX_RECENT_TRANSCRIPTIONS` transcriptions added, oldest
     * first; the processed set is the chunks marked since the last wipe, within its limit.
     */
    ghost predicate Valid()
      reads this
    {
      && recent == LastN(added, MaxRecentTranscriptions)
      && processed == SetOf(sinceWipe)
      && |processed| <= MaxProcessedChunks
    }

    constructor ()
      ensures Valid()
      ensures activeClients == {} && recent == [] && processed == {}
    {
      activeClients := {};
      recent := [];
      processed := {};
      added := [];
      sinceWipe := [];
    }

    /** `add_client`: the id joins the set (a second add changes nothing). */
    method AddClient(clientId: string)
      modifies this
      requires Valid()
      ensures Valid()
      ensures activeClients == old(activeClients) + {clientId}
      ensures recent == old(recent) && processed == old(processed)
      ensures added == old(added) && sinceWipe == old(sinceWipe)
    {
      activeClients := activeClients + {clientId};
    }

    /** `remove_client` (`set.discard`): the id leaves the set; an unknown id is ignored. */
    method RemoveClient(clientId: string)
      modifies this
      requires Valid()
      ensures Valid()
      ensures activeClients == old(activeClients) - {clientId}
      ensures clientId !in old(activeClients) ==> activeClients == old(activeClients)
      ensures recent == old(recent) && processed == old(processed)
      ensures added == old(added) && sinceWipe == old(sinceWipe)
    {
      activeClients := activeClients - {clientId};
    }

    /** `get_active_clients`: a copy of the set, which later connections do not change. */
    method GetActiveClients() returns (clients: set<string>)
      ensures clients == activeClients
    {
      clients := activeClients;
    }

    /**
     * `add_transcription`: the record goes to the back of the queue; on a full queue
     * the oldest record falls off the front.
     */
    method AddTranscription(item: Record)
      modifies this
      requires Valid()
      ensures Valid()
      ensures recent == LastN(old(recent) + [item], MaxRecentTranscriptions)
      ensures added == old(added) + [item]
      ensures activeClients == old(activeClients) && processed == old(processed)
    {
      LastNAppend(added, item, MaxRecentTranscriptions);
      recent := recent + [item];
      if |recent| > MaxRecentTranscriptions {
        recent := recent[1..];
      }
      added := added + [item];
    }

    /** `get_recent_transcriptions`: the queue as a list, oldest first, the state untouched. */
    function GetRecentTranscriptions(): (r: seq<Record>)
      reads this
      requires Valid()
      ensures |r| <= MaxRecentTranscriptions
      ensures r == LastN(added, MaxRecentTranscriptions)
    {
      recent
    }

    /** `clear_transcriptions`: the queue is emptied; the clients and the chunks stay. */
    method ClearTranscriptions()
      modifies this
      requires Valid()
      ensures Valid()
      ensures recent == [] && added == []
      ensures activeClients == old(activeClients) && processed == old(processed)
    {
      recent := [];
      added := [];
    }

    /** `is_chunk_processed`: whether the chunk was marked since the processed set was last wiped. */
    predicate IsChunkProcessed(chunkName: string)
      reads this
      requires Valid()
      ensures IsChunkProcessed(chunkName) <==> chunkName in sinceWipe
    {
      SetOfMember(sinceWipe, chunkName);
      chunkName in processed
    }

    /**
     * `mark_chunk_processed`: the chunk is added; a set grown past
     * `MAX_PROCESSED_CHUNKS` is emptied, the chunk just added with it.
     */
    method MarkChunkProcessed(chunkName: string)
      modifies this
      requires Valid()
      ensures Valid()
      ensures processed == Marked(old(processed), chunkName, MaxProcessedChunks)
      ensures sinceWipe == if processed == {} then [] else old(sinceWipe) + [chunkName]
      ensures activeClients == old(activeClients) && recent == old(recent)
    {
      SetOfSnoc(sinceWipe, chunkName);
      processed := processed + {chunkName};
      sinceWipe := sinceWipe + [chunkName];
      if |processed| > MaxProcessedChunks {
        processed := {};
        sinceWipe := [];
      }
    }

    /** `get_stats`: the three sizes, stamped with the clock reading `now`; within the limits. */
    function GetStats(now: string): (r: Stats)
      reads this
      requires Valid()
      ensures r.activeClients == |activeClients| && r.timestamp == now
      ensures r.recentTranscriptions == |recent| <= MaxRecentTranscriptions
      ensures r.processedChunks == |processed| <= MaxProcessedChunks
      ensures r.recentTranscriptions == |added| || r.recentTranscriptions == MaxRecentTranscriptions
    {
      Stats(|activeClients|, |recent|, |processed|, now)
    }
  }
}
