/** The write-once address space and the two ways its tail is found: a scan of the last
    `window` addresses in memory, and the same scan over a top-`window` query result. */
module WriteOnceSpace {
  import opened Bus

  datatype TailResult = Tail(position: nat) | ZeroWindowSize

  /** Addresses of space `id` that hold a value. */
  function Written<V>(spaces: map<string, map<nat, V>>, id: string): set<nat> {
    if id in spaces then spaces[id].Keys else {}
  }

  /** The first address after which nothing is written. */
  ghost predicate IsNonContiguousTail(addrs: set<nat>, end: nat) {
    (forall a :: a in addrs ==> a < end) && (0 < end ==> end - 1 in addrs)
  }

  /** The first unwritten address. */
  ghost predicate IsContiguousTail(addrs: set<nat>, c: nat) {
    c !in addrs && forall a: nat :: a < c ==> a in addrs
  }

  /** First address of [lo, end) outside `addrs`, or `end`. */
  function FirstGap(addrs: set<nat>, lo: nat, end: nat): (t: nat)
    requires lo <= end
    ensures lo <= t <= end
    ensures t < end ==> t !in addrs
    ensures forall a :: lo <= a < t ==> a in addrs
    decreases end - lo
  {
    if lo == end then end else if lo !in addrs then lo else FirstGap(addrs, lo + 1, end)
  }

  function WindowStart(end: nat, window: nat): nat {
    if window <= end then end - window else 0
  }

  class InMemoryWriteOnceSpace<V> {
    var spaces: map<string, map<nat, V>>

    constructor ()
      ensures spaces == map[]
    {
      spaces := map[];
    }

    method Write(id: string, address: nat, value: V) returns (ok: bool)
      modifies this
      ensures ok <==> address !in old(Written(spaces, id))
      ensures Written(spaces, id) == old(Written(spaces, id)) + {address}
      ensures ok ==> spaces[id][address] == value
      ensures !ok ==> spaces == old(spaces)
      ensures forall i, a :: i in old(spaces) && a in old(spaces[i]) ==>
                               i in spaces && a in spaces[i] && spaces[i][a] == old(spaces[i][a])
      ensures forall i :: i != id ==> Written(spaces, i) == old(Written(spaces, i))
    {
      var space := if id in spaces then spaces[id] else map[];
      if address in space {
        return false;
      }
      spaces := spaces[id := space[address := value]];
      return true;
    }

    method Read(id: string, address: nat) returns (r: Option<V>)
      ensures r.Some? <==> address in Written(spaces, id)
      ensures r.Some? ==> r.value == spaces[id][address]
    {
      r := if id in spaces && address in spaces[id] then Some(spaces[id][address]) else None;
    }

    method FindTail(id: string, window: nat) returns (r: TailResult)
      ensures r.ZeroWindowSize? <==> window == 0
      ensures r.Tail? ==> forall end :: IsNonContiguousTail(Written(spaces, id), end) ==>
                                          r.position == FirstGap(Written(spaces, id), WindowStart(end, window), end)
    {
      if window == 0 {
        return ZeroWindowSize;
      }
      var space := if id in spaces then spaces[id] else map[];
      var end := 0;
      var rest := space.Keys;
      while rest != {}
        invariant rest <= space.Keys
        invariant forall a :: a in space.Keys && a !in rest ==> a < end
        invariant 0 < end ==> end - 1 in space.Keys
      {
        var a :| a in rest;
        rest := rest - {a};
        end := if end <= a then a + 1 else end;
      }
      assert IsNonContiguousTail(Written(spaces, id), end);
      var addr := WindowStart(end, window);
      while addr < end && addr in space
        invariant WindowStart(end, window) <= addr <= end
        invariant FirstGap(Written(spaces, id), WindowStart(end, window), end)
            == FirstGap(Written(spaces, id), addr, end)
      {
        addr := addr + 1;
      }
      return Tail(addr);
    }
  }

  /** The windowed tail is the contiguous tail exactly when the two tails are at most a window apart. */
  lemma WindowTailExact(addrs: set<nat>, window: nat, end: nat, c: nat)
    requires IsNonContiguousTail(addrs, end) && IsContiguousTail(addrs, c)
    ensures c <= end
    ensures FirstGap(addrs, WindowStart(end, window), end) == c <==> end - c <= window
  {
    var lo := WindowStart(end, window);
    var t := FirstGap(addrs, lo, end);
    assert end < c ==> end in addrs;
    assert t < c ==> t in addrs;
    assert lo <= c < t ==> c in addrs;
  }

  /** Rows of `SELECT address … ORDER BY address DESC LIMIT limit` over `addrs`. */
  ghost predicate IsTopRows(rows: seq<nat>, addrs: set<nat>, limit: nat) {
    && (forall i, j :: 0 <= i < j < |rows| ==> rows[j] < rows[i])
    && (forall i :: 0 <= i < |rows| ==> rows[i] in addrs)
    && |rows| <= limit
    && (|rows| < limit ==> forall a :: a in addrs ==> a in rows)
    && (forall a, i :: a in addrs && a !in rows && 0 <= i < |rows| ==> a < rows[i])
  }

  method SqliteTail(rows: seq<nat>, window: nat, ghost addrs: set<nat>) returns (r: TailResult)
    requires IsTopRows(rows, addrs, window)
    ensures r.ZeroWindowSize? <==> window == 0
    ensures r.Tail? ==> forall end :: IsNonContiguousTail(addrs, end) ==>
                                        r.position == FirstGap(addrs, WindowStart(end, window), end)
  {
    if window == 0 {
      return ZeroWindowSize;
    }
    if rows == [] {
      assert addrs == {};
      return Tail(0);
    }
    var end := rows[0] + 1;
    assert IsNonContiguousTail(addrs, end);
    var written := set a | a in rows;
    var addr := WindowStart(end, window);
    while addr < end && addr in written
      invariant WindowStart(end, window) <= addr <= end
      invariant FirstGap(addrs, WindowStart(end, window), end) == FirstGap(addrs, addr, end)
    {
      addr := addr + 1;
    }
    if addr < end {
      TopRowsSeeWindow(rows, addrs, window, addr);
    }
    return Tail(addr);
  }

  /** Every written address of the last `window` addresses is among the `window` largest. */
  lemma TopRowsSeeWindow(rows: seq<nat>, addrs: set<nat>, window: nat, a: nat)
    requires IsTopRows(rows, addrs, window) && rows != []
    requires WindowStart(rows[0] + 1, window) <= a <= rows[0]
    ensures a in addrs <==> a in rows
  {
    if |rows| == window {
      DescendingRows(rows, window - 1);
    }
  }

  lemma {:induction false} DescendingRows(rows: seq<nat>, k: nat)
    requires forall i, j :: 0 <= i < j < |rows| ==> rows[j] < rows[i]
    requires k < |rows|
    ensures rows[k] <= rows[0] - k
  {
    if 0 < k {
      DescendingRows(rows, k - 1);
    }
  }
}
