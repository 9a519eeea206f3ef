/** Filtered range reads: `read_next` on the write-once bus and on the in-memory bus, and `read_range`,
    which drains a range through either of them while the log keeps growing. */
module ReadRange {
  import opened Bus

  const MAX_POLL_ENTRIES := 64

  datatype Entry = Entry(position: nat, payload: Payload)

  datatype ReadResult =
    | Ok(entries: seq<Entry>, next: int)
    | InvalidArgument
    | PositionNotFound
    | Internal
    | Panic

  /** Which bus serves the read. */
  datatype Kind = WriteOnce | InMemory {
    /** Entries one call may return when asked for `max`. */
    function Limit(max: nat): nat {
      if WriteOnce? && max > MAX_POLL_ENTRIES then MAX_POLL_ENTRIES else max
    }
  }

  /** Entries without a payload are never delivered. */
  predicate Selected(p: Payload, filter: Filter) {
    !p.Missing? && MatchesFilter(p, filter)
  }

  /** What a filter is for, entry kind by entry kind: without one, every entry that has a payload; with one,
      the entries whose kind's number on the wire is listed. */
  predicate Wanted(p: Payload, filter: Filter) {
    match filter
    case None => !p.Missing?
    case Some(types) =>
      match p
      case Intention(_, _) => 1 in types
      case Vote(_, _, _) => 2 in types
      case DeciderPolicy(_) => 3 in types
      case Commit(_, _) => 4 in types
      case Abort(_, _) => 5 in types
      case VoterPolicy => 6 in types
      case PolicyBatch(_, _, _) => 7 in types
      case OtherControl => 7 in types
      case InferenceInput => 8 in types
      case InferenceOutput => 9 in types
      case ActionOutput => 10 in types
      case AgentInput => 11 in types
      case AgentOutput => 12 in types
      case Mail => 13 in types
      case Unrecognized => false
      case Missing => false
  }

  /** `entries` are exactly the wanted entries of log[start..end), each once, by increasing position. */
  ghost predicate Delivers(log: seq<Payload>, filter: Filter, start: nat, end: nat, entries: seq<Entry>)
    requires end <= |log|
  {
    && (forall k :: start <= k < end ==> (Entry(k, log[k]) in entries <==> Wanted(log[k], filter)))
    && (forall i :: 0 <= i < |entries| ==>
          start <= entries[i].position < end && entries[i].payload == log[entries[i].position])
    && (forall i, j :: 0 <= i < j < |entries| ==> entries[i].position < entries[j].position)
  }

  lemma SelectedIsWanted(p: Payload, filter: Filter)
    ensures Selected(p, filter) <==> Wanted(p, filter)
  {
  }

  /** The matching entries of log[start..end), in order. */
  function Matches(log: seq<Payload>, filter: Filter, start: nat, end: nat): seq<Entry>
    requires end <= |log|
    decreases end
  {
    if start >= end then []
    else
      var earlier := Matches(log, filter, start, end - 1);
      if Selected(log[end - 1], filter) then earlier + [Entry(end - 1, log[end - 1])] else earlier
  }

  lemma {:induction false} MatchesCompose(log: seq<Payload>, filter: Filter, a: nat, b: nat, c: nat)
    requires a <= b <= c <= |log|
    ensures Matches(log, filter, a, c) == Matches(log, filter, a, b) + Matches(log, filter, b, c)
    decreases c
  {
    if b < c {
      MatchesCompose(log, filter, a, b, c - 1);
    }
  }

  lemma {:induction false} MatchesOfPrefix(log: seq<Payload>, more: seq<Payload>, filter: Filter, start: nat, end: nat)
    requires end <= |log|
    ensures Matches(log + more, filter, start, end) == Matches(log, filter, start, end)
    decreases end
  {
    if start < end {
      MatchesOfPrefix(log, more, filter, start, end - 1);
    }
  }

  /** The specification is exactly the wanted positions of the range, each once, increasing. */
  lemma {:induction false} MatchesMeaning(log: seq<Payload>, filter: Filter, start: nat, end: nat)
    requires end <= |log|
    ensures Delivers(log, filter, start, end, Matches(log, filter, start, end))
    decreases end
  {
    hide Selected, Wanted;
    if start < end {
      SelectedIsWanted(log[end - 1], filter);
      MatchesMeaning(log, filter, start, end - 1);
      var earlier, e := Matches(log, filter, start, end - 1), Entry(end - 1, log[end - 1]);
      assert forall x :: x in earlier + [e] <==> x in earlier || x == e;
    }
  }

  /** A cursor that stopped at the limit stands right after its last entry. */
  ghost predicate Stopped(entries: seq<Entry>, limit: nat, next: int) {
    |entries| == limit > 0 && next == entries[limit - 1].position + 1
  }

  /** A read of log[start..end): nothing matching before the cursor is skipped, and the cursor is short
      of the end only when the limit was reached. */
  ghost predicate Served(log: seq<Payload>, filter: Filter, start: nat, end: nat, limit: nat, entries: seq<Entry>,
      next: int) {
    && start <= next <= end <= |log|
    && entries == Matches(log, filter, start, next)
    && |entries| <= limit
    && (next == end || Stopped(entries, limit, next))
    && (start < end ==> start < next)
  }

  /** `read_filtered_entries` of the write-once bus: a scan that fails at the first unwritten slot. */
  method ReadFilteredWriteOnce(log: seq<Payload>, start: nat, max: nat, filter: Filter, end: nat)
    returns (r: ReadResult)
    requires max > 0
    ensures start > end ==> r == Internal
    ensures start <= end ==> r.Ok? || r.PositionNotFound?
    ensures start < end && r.Ok? ==>
        Served(log, filter, start, if end < |log| then end else |log|, if max < 64 then max else 64, r.entries, r.next)
    ensures start == end ==> r == Ok([], end)
    ensures r.PositionNotFound? <==>
        start < end && end > |log|
            && (start > |log| || |Matches(log, filter, start, |log|)| < if max < 64 then max else 64)
  {
    var limit := WriteOnce.Limit(max);
    if start > end {
      return Internal;
    }
    if start == end {
      return Ok([], end);
    }
    var entries, pos := [], start;
    while pos < end
      invariant start <= pos <= end
      invariant pos <= |log| || pos == start
      invariant pos <= |log| ==> entries == Matches(log, filter, start, pos)
      invariant |entries| < limit
    {
      if pos >= |log| {
        return PositionNotFound;
      }
      if Selected(log[pos], filter) {
        entries := entries + [Entry(pos, log[pos])];
        if |entries| >= limit {
          MatchesCompose(log, filter, start, pos + 1, |log|);
          return Ok(entries, pos + 1);
        }
      }
      pos := pos + 1;
    }
    return Ok(entries, end);
  }

  /** What the in-memory bus answers to a read of [start, end): the matches of its slice clipped to the log,
      and a cursor that jumps to `end` unless the limit was reached. */
  ghost predicate InMemoryRead(log: seq<Payload>, filter: Filter, start: nat, end: nat, max: nat, entries: seq<Entry>,
      next: int) {
    && start < next <= end && |entries| <= max
    && entries == Matches(log, filter, start, if next < |log| then next else |log|)
    && (next == end || (next <= |log| && Stopped(entries, max, next)))
    && (end > |log| ==> (next == end <==> |Matches(log, filter, start, |log|)| < max))
  }

  /** `read_filtered_entries` of the in-memory bus: a scan of a slice clipped to the log. */
  method ReadFilteredInMemory(log: seq<Payload>, start: nat, max: nat, filter: Filter, end: nat) returns (r: ReadResult)
    requires max > 0
    ensures start > end ==> r == Internal
    ensures start <= end ==> r.Ok? || r.Panic?
    ensures start == end ==> r == Ok([], end)
    ensures r.Panic? <==> 0 < |log| < start < end
    ensures start < end && r.Ok? ==> InMemoryRead(log, filter, start, end, max, r.entries, r.next)
    ensures start <= end <= |log| ==> r.Ok? && Served(log, filter, start, end, max, r.entries, r.next)
  {
    if start > end {
      return Internal;
    }
    if start == end {
      return Ok([], end);
    }
    if |log| == 0 {
      return Ok([], end);
    }
    var last := if end < |log| then end else |log|;
    if start > last {
      return Panic;
    }
    var entries, pos := [], start;
    while pos < last
      invariant start <= pos <= last
      invariant entries == Matches(log, filter, start, pos)
      invariant |entries| < max
    {
      if Selected(log[pos], filter) {
        entries := entries + [Entry(pos, log[pos])];
        if |entries| >= max {
          MatchesCompose(log, filter, start, pos + 1, |log|);
          return Ok(entries, pos + 1);
        }
      }
      pos := pos + 1;
    }
    return Ok(entries, end);
  }

  predicate Rejected(start: int, end: int, max: int, filter: Filter) {
    max <= 0 || start < 0 || end < start || filter == Some([])
  }

  /** `read_next`: both buses validate alike. */
  method ReadNext(kind: Kind, log: seq<Payload>, start: int, end: int, max: int, filter: Filter) returns (r: ReadResult)
    ensures r == InvalidArgument <==> Rejected(start, end, max, filter)
    ensures !Rejected(start, end, max, filter) && end <= |log| ==>
              r.Ok? && Served(log, filter, start, end, if kind.WriteOnce?
                  && max > 64 then 64 else max, r.entries, r.next)
    ensures !Rejected(start, end, max, filter) && kind.WriteOnce? && r.Ok? && start < end ==>
              Served(log, filter, start, if end < |log| then end else |log|, if max > 64 then 64 else max, r.entries,
                  r.next)
    ensures r.Ok? ==> start <= r.next <= end && |r.entries| <= max && (start < end ==> start < r.next)
    ensures r != Internal
    ensures !Rejected(start, end, max, filter) && kind.InMemory? ==> (r.Panic? <==> 0 < |log| < start < end)
  {
    if max <= 0 {
      return InvalidArgument;
    }
    if start < 0 {
      return InvalidArgument;
    }
    if end < start {
      return InvalidArgument;
    }
    if filter.Some? && |filter.value| == 0 {
      return InvalidArgument;
    }
    match kind {
      case WriteOnce => r := ReadFilteredWriteOnce(log, start, max, filter, end);
      case InMemory => r := ReadFilteredInMemory(log, start, max, filter, end);
    }
  }

  /** `read_range` while others append: `arrivals[i]` reaches the log before the i-th call. The cursor
      never gets stuck; within the log the result is the first `max` matches, whatever arrives. */
  method ReadRange(kind: Kind, log: seq<Payload>, arrivals: seq<seq<Payload>>, start: int, end: int, max: int,
      filter: Filter) returns (r: ReadResult)
    ensures start >= end || max <= 0 ==> r == Ok([], start)
    ensures start < end && max > 0 ==> (r == InvalidArgument <==> start < 0 || filter == Some([]))
    ensures r != Internal
    ensures 0 <= start <= end <= |log| ==> r.Ok? || r.InvalidArgument?
    ensures r.Ok? && 0 <= start <= end <= |log| ==>
              var limit: nat := if max > 0 then max else 0;
              var all := Matches(log, filter, start, end);
              && start <= r.next <= end
              && r.entries == (if |all| <= limit then all else all[..limit])
              && r.entries == Matches(log, filter, start, r.next)
              && (r.next == end || |r.entries| == limit)
              && Delivers(log, filter, start, r.next, r.entries)
  {
    ghost var within := 0 <= start <= end <= |log|;
    var cursor, remaining, entries, current, calls := start, max, [], log, 0;
    while cursor < end && remaining > 0
      invariant start <= cursor && (start <= end ==> cursor <= end)
      invariant |entries| + remaining == max
      invariant max > 0 ==> remaining >= 0
      invariant within ==> entries == Matches(log, filter, start, cursor)
      invariant |log| <= |current| && current[..|log|] == log
      invariant calls > 0 ==> filter != Some([]) && start >= 0 && max > 0 && start < end
      invariant calls == 0 ==> cursor == start && remaining == max && entries == []
      decreases end - cursor
    {
      if calls < |arrivals| {
        current := current + arrivals[calls];
      }
      calls := calls + 1;
      var resp := ReadNext(kind, current, cursor, end, remaining, filter);
      if !resp.Ok? {
        return resp;
      }
      if resp.next <= cursor {
        return Internal;
      }
      if within {
        assert current == log + current[|log|..];
        MatchesOfPrefix(log, current[|log|..], filter, cursor, resp.next);
        MatchesCompose(log, filter, start, cursor, resp.next);
      }
      remaining := remaining - |resp.entries|;
      cursor := resp.next;
      entries := entries + resp.entries;
    }
    if within {
      MatchesCompose(log, filter, start, cursor, end);
      assert Matches(log, filter, start, end)[..|entries|] == entries;
      MatchesMeaning(log, filter, start, cursor);
    }
    return Ok(entries, cursor);
  }

  /** The first n parts, joined. */
  function Joined<T>(parts: seq<seq<T>>, n: nat): seq<T>
    requires n <= |parts|
  {
    if n == 0 then [] else Joined(parts, n - 1) + parts[n - 1]
  }

  /** Each read starts at the cursor the previous one returned. */
  ghost predicate Chained(log: seq<Payload>, filter: Filter, cursors: seq<nat>, parts: seq<seq<Entry>>) {
    && |cursors| == |parts| + 1
    && (forall i :: 0 <= i < |cursors| ==> cursors[i] <= |log|)
    && forall i {:trigger parts[i]} :: 0 <= i < |parts| ==>
        cursors[i] <= cursors[i + 1] && parts[i] == Matches(log, filter, cursors[i], cursors[i + 1])
  }

  /** Consecutive reads, each starting at the previous cursor, deliver every match once and in order. */
  lemma {:induction false} CursoredReadsCompose(log: seq<Payload>, filter: Filter, cursors: seq<nat>,
      parts: seq<seq<Entry>>, n: nat)
    requires Chained(log, filter, cursors, parts) && n <= |parts|
    ensures cursors[0] <= cursors[n] && Joined(parts, n) == Matches(log, filter, cursors[0], cursors[n])
  {
    hide Matches;
    if n > 0 {
      CursoredReadsCompose(log, filter, cursors, parts, n - 1);
      var part := parts[n - 1];
      assert part == Matches(log, filter, cursors[n - 1], cursors[n]);
      MatchesCompose(log, filter, cursors[0], cursors[n - 1], cursors[n]);
    } else {
      EmptyRange(log, filter, cursors[0]);
    }
  }

  lemma EmptyRange(log: seq<Payload>, filter: Filter, a: nat)
    requires a <= |log|
    ensures Matches(log, filter, a, a) == []
  {
  }

  lemma {:induction false} NothingMatches(log: seq<Payload>, filter: Filter, start: nat, end: nat)
    requires end <= |log| && forall p :: !Wanted(p, filter)
    ensures Matches(log, filter, start, end) == []
    decreases end
  {
    if start < end {
      SelectedIsWanted(log[end - 1], filter);
      NothingMatches(log, filter, start, end - 1);
    }
  }

  /** No entry appended later is skipped by the cursor of a read. */
  ghost predicate SkipsNothing(log: seq<Payload>, filter: Filter, start: nat, entries: seq<Entry>, next: nat) {
    forall more :: next <= |log + more| ==> entries == Matches(log + more, filter, start, next)
  }

  /** A read of the in-memory bus skips nothing appended later exactly when it stays within the log, or
      finds its limit of matches there, or filters for what no entry can be. */
  lemma ReadSkipsNothingIff(log: seq<Payload>, filter: Filter, start: nat, end: nat, max: nat, entries: seq<Entry>,
      next: nat)
    requires start < end && max > 0 && InMemoryRead(log, filter, start, end, max, entries, next)
    ensures SkipsNothing(log, filter, start, entries, next) <==>
            || end <= |log|
            || |Matches(log, filter, start, |log|)| >= max
            || forall p :: !Wanted(p, filter)
  {
    hide Matches, Wanted;
    if end <= |log| || |Matches(log, filter, start, |log|)| >= max {
      forall more | next <= |log + more|
        ensures entries == Matches(log + more, filter, start, next)
      {
        MatchesOfPrefix(log, more, filter, start, next);
      }
    } else if p :| Wanted(p, filter) {
      PastTailSkips(log, filter, start, end, p, entries);
    } else {
      NothingMatches(log, filter, start, |log|);
      forall more | next <= |log + more|
        ensures entries == Matches(log + more, filter, start, next)
      {
        NothingMatches(log + more, filter, start, next);
      }
    }
  }

  /** Entries that arrive below a cursor already past the tail are lost to it. */
  lemma PastTailSkips(log: seq<Payload>, filter: Filter, start: nat, end: nat, p: Payload, entries: seq<Entry>)
    requires start < end && |log| < end && Wanted(p, filter) && entries == Matches(log, filter, start, |log|)
    ensures !SkipsNothing(log, filter, start, entries, end)
  {
    hide Matches, Wanted;
    var more := seq(end - |log|, _ => p);
    var k := if start < |log| then |log| else start;
    MatchesMeaning(log, filter, start, |log|);
    MatchesMeaning(log + more, filter, start, end);
    assert Entry(k, (log + more)[k]) in Matches(log + more, filter, start, end);
  }
}
