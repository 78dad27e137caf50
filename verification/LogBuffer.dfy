/** src/log/_buffer.py: a bounded queue of log entries read through a cursor that never goes back. Every method holds
    the buffer's lock throughout, so a run is a sequence of whole method calls. */
module LogBuffers {
  import opened Wrappers

  datatype Entry = Entry(time: string, level: string, source: string, text: string)

  /** The last `n` entries of `s`, or all of them. */
  function Last(s: seq<Entry>, n: nat): (r: seq<Entry>)
    ensures |r| == if |s| <= n then |s| else n
  {
    if |s| <= n then s else s[|s| - n..]
  }

  /** Entries of one source; no source or an empty one selects everything. */
  function Select(source: Option<string>, logs: seq<Entry>): seq<Entry> {
    if logs == [] then []
    else if source.None? || source.value == "" || logs[0].source == source.value
    then [logs[0]] + Select(source, logs[1..])
    else Select(source, logs[1..])
  }

  /** What a reader whose cursor is `last` is given: the part of the history after the cursor that is still held. */
  function Since(history: seq<Entry>, maxlen: nat, last: int): seq<Entry> {
    if last >= |history| then []
    else if last <= 0 then Last(history, maxlen)
    else Last(history[last..], maxlen)
  }

  class LogBuffer {
    const maxlen: nat
    var queue: seq<Entry>
    var counter: nat
    ghost var history: seq<Entry>  // everything ever appended

    ghost predicate Valid()
      reads this
    {
      counter == |history| && queue == Last(history, maxlen)
    }

    constructor (maxlen: nat)
      ensures Valid() && this.maxlen == maxlen && history == []
    {
      this.maxlen := maxlen;
      queue, counter, history := [], 0, [];
    }

    method Append(entry: Entry) returns (count: nat)
      requires Valid()
      modifies this
      ensures Valid() && history == old(history) + [entry]
      ensures count == |history|
    {
      queue := queue + [entry];
      if |queue| > maxlen {
        queue := queue[1..];
      }
      counter := counter + 1;
      history := history + [entry];
      count := counter;
    }

    method GetLogs(source: Option<string>, lastCounter: int) returns (logs: seq<Entry>, total: nat)
      requires Valid()
      ensures total == |history|
      ensures logs == Select(source, Since(history, maxlen, lastCounter))
    {
      total := counter;
      if lastCounter >= total {
        return [], total;
      }
      var count := if total - lastCounter < |queue| then total - lastCounter else |queue|;
      logs := if count > 0 then queue[|queue| - count..] else [];
      assert logs == Since(history, maxlen, lastCounter);
      if source.Some? && source.value != "" {
        logs := OfSource(logs, source.value);
      } else {
        SelectAll(source, logs);
      }
    }
  }

  /** The comprehension at the end of `get_logs`. */
  method OfSource(logs: seq<Entry>, source: string) returns (kept: seq<Entry>)
    requires source != ""
    ensures kept == Select(Some(source), logs)
  {
    kept := [];
    assert logs[0..] == logs;
    for i := 0 to |logs|
      invariant kept + Select(Some(source), logs[i..]) == Select(Some(source), logs)
    {
      assert logs[i..][1..] == logs[i + 1..];
      if logs[i].source == source {
        kept := kept + [logs[i]];
      }
    }
  }

  lemma {:induction false} SelectAll(source: Option<string>, logs: seq<Entry>)
    requires source.None? || source.value == ""
    ensures Select(source, logs) == logs
  {
    if logs != [] {
      SelectAll(source, logs[1..]);
      assert logs == [logs[0]] + logs[1..];
    }
  }

  lemma {:induction false} SelectJoin(source: Option<string>, a: seq<Entry>, b: seq<Entry>)
    ensures Select(source, a + b) == Select(source, a) + Select(source, b)
  {
    if a == [] {
      assert a + b == b;
    } else {
      SelectJoin(source, a[1..], b);
      assert (a + b)[1..] == a[1..] + b;
    }
  }

  // --- readers ---

  function Flatten(batches: seq<seq<Entry>>): seq<Entry> {
    if batches == [] then [] else batches[0] + Flatten(batches[1..])
  }

  /** Everything a polling reader receives. Between two polls a batch of entries is appended; each poll passes the
      counter that the previous one returned. */
  function Received(maxlen: nat, history: seq<Entry>, cursor: int, batches: seq<seq<Entry>>,
                    source: Option<string>): seq<Entry>
    decreases |batches|
  {
    if batches == [] then []
    else
      var now := history + batches[0];
      Select(source, Since(now, maxlen, cursor)) + Received(maxlen, now, |now|, batches[1..], source)
  }

  function Survivors(maxlen: nat, batches: seq<seq<Entry>>): seq<Entry> {
    if batches == [] then [] else Last(batches[0], maxlen) + Survivors(maxlen, batches[1..])
  }

  /** A reader receives, of every batch, exactly the last `maxlen` entries of its source, in order and once. */
  lemma {:induction false} ReceivedExactly(maxlen: nat, history: seq<Entry>, batches: seq<seq<Entry>>,
                                           source: Option<string>)
    ensures Received(maxlen, history, |history|, batches, source) == Select(source, Survivors(maxlen, batches))
    decreases |batches|
  {
    if batches != [] {
      var now := history + batches[0];
      assert Since(now, maxlen, |history|) == Last(batches[0], maxlen) by {
        assert now[|history|..] == batches[0];
      }
      ReceivedExactly(maxlen, now, batches[1..], source);
      SelectJoin(source, Last(batches[0], maxlen), Survivors(maxlen, batches[1..]));
    }
  }

  /** When no batch is longer than the buffer, nothing is lost and nothing is repeated. */
  lemma {:induction false} NothingLost(maxlen: nat, history: seq<Entry>, batches: seq<seq<Entry>>,
                                       source: Option<string>)
    requires forall i :: 0 <= i < |batches| ==> |batches[i]| <= maxlen
    ensures Received(maxlen, history, |history|, batches, source) == Select(source, Flatten(batches))
  {
    ReceivedExactly(maxlen, history, batches, source);
    AllSurvive(maxlen, batches);
  }

  lemma {:induction false} AllSurvive(maxlen: nat, batches: seq<seq<Entry>>)
    requires forall i :: 0 <= i < |batches| ==> |batches[i]| <= maxlen
    ensures Survivors(maxlen, batches) == Flatten(batches)
  {
    if batches != [] {
      AllSurvive(maxlen, batches[1..]);
    }
  }

  function Overflow(maxlen: nat, batches: seq<seq<Entry>>): nat {
    if batches == [] then 0
    else (if |batches[0]| > maxlen then |batches[0]| - maxlen else 0) + Overflow(maxlen, batches[1..])
  }

  /** A reader of all sources loses exactly the overflow of every batch; it loses nothing iff no batch overflows. */
  lemma {:induction false} LossIsOverflow(maxlen: nat, history: seq<Entry>, batches: seq<seq<Entry>>)
    ensures |Received(maxlen, history, |history|, batches, None)| + Overflow(maxlen, batches) == |Flatten(batches)|
    ensures Overflow(maxlen, batches) == 0 <==> forall i :: 0 <= i < |batches| ==> |batches[i]| <= maxlen
  {
    ReceivedExactly(maxlen, history, batches, None);
    SelectAll(None, Survivors(maxlen, batches));
    SurvivorCount(maxlen, batches);
  }

  lemma {:induction false} SurvivorCount(maxlen: nat, batches: seq<seq<Entry>>)
    ensures |Survivors(maxlen, batches)| + Overflow(maxlen, batches) == |Flatten(batches)|
    ensures Overflow(maxlen, batches) == 0 <==> forall i :: 0 <= i < |batches| ==> |batches[i]| <= maxlen
  {
    if batches != [] {
      SurvivorCount(maxlen, batches[1..]);
      assert forall i :: 0 < i < |batches| ==> batches[i] == batches[1..][i - 1];
    }
  }

  // --- what a source selects ---

  /** Nothing is selected from other sources, everything from the one asked for, and the order stays. */
  lemma {:induction false} SelectExactly(source: string, a: seq<Entry>, e: Entry, b: seq<Entry>)
    requires source != ""
    ensures Select(Some(source), a + [e] + b)
            == Select(Some(source), a) + (if e.source == source then [e] else []) + Select(Some(source), b)
  {
    SelectJoin(Some(source), a + [e], b);
    SelectJoin(Some(source), a, [e]);
    assert [e][1..] == [];
  }
}
