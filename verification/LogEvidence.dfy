/** The evidence a counter run leaves in the log: each client's record of committed commands, and the check
    that these records agree with one another and with the writes the history reports as successful. */
module LogEvidence {
  import opened Bus
  import opened History
  import opened Counter

  datatype LoggedCommand = LoggedCommand(id: OperationId, operation: CounterOperation, position: nat)

  // ---- a client's record of committed commands ----

  /** The command a commit at q applies, if it finds its intention buffered. */
  function CommandAt(log: seq<Payload>, q: nat): Option<LoggedCommand>
    requires q < |log|
  {
    if log[q].Commit? && log[q].committed in Replayed(log, q).buffered && 0 <= log[q].committed < q
        && IsCounterWrite(log[log[q].committed])
    then Some(LoggedCommand(log[log[q].committed].body.id, Replayed(log, q).buffered[log[q].committed], q))
    else None
  }

  /** Commands committed in log[..n], in log order. */
  function Commands(log: seq<Payload>, n: nat): seq<LoggedCommand>
    requires n <= |log|
  {
    if n == 0 then []
    else
      match CommandAt(log, n - 1)
      case None => Commands(log, n - 1)
      case Some(c) => Commands(log, n - 1) + [c]
  }

  /** Only counter writes already read are ever buffered. */
  lemma {:induction false} BufferedIsWrite(log: seq<Payload>, n: nat, p: int)
    requires n <= |log| && p in Replayed(log, n).buffered
    ensures 0 <= p < n && IsCounterWrite(log[p]) && Replayed(log, n).buffered[p] == log[p].body.operation
  {
    hide ProcessEntry;
    if n > 0 {
      BufferStep(Replayed(log, n - 1), n - 1, log[n - 1], p);
      if p in Replayed(log, n - 1).buffered {
        BufferedIsWrite(log, n - 1, p);
      }
    }
  }

  method CommandHistory(log: seq<Payload>) returns (commands: seq<LoggedCommand>)
    ensures commands == Commands(log, |log|)
  {
    hide ProcessEntry;
    var intentions: map<int, Body> := map[];
    commands := [];
    for n := 0 to |log|
      invariant commands == Commands(log, n)
      invariant forall p :: p in intentions <==> p in Replayed(log, n).buffered
      invariant forall p :: p in intentions ==> 0 <= p < n && IsCounterWrite(log[p]) && intentions[p] == log[p].body
    {
      match log[n] {
        case Intention(body, _) =>
          if IsCounterWrite(log[n]) {
            intentions := intentions[n as int := body];
          }
        case Commit(id, _) =>
          if id in intentions {
            BufferedIsWrite(log, n, id);
            commands := commands + [LoggedCommand(intentions[id].id, intentions[id].operation, n)];
            intentions := intentions - {id};
          }
        case Abort(id, _) => intentions := intentions - {id};
        case _ =>
      }
      forall p: int
        ensures p in intentions <==> p in Replayed(log, n + 1).buffered
      {
        BufferStep(Replayed(log, n), n, log[n], p);
      }
    }
  }

  /** The record lists exactly the commands applied, by increasing position. */
  lemma {:induction false} CommandsMeaning(log: seq<Payload>, n: nat)
    requires n <= |log|
    ensures Ascending(Commands(log, n))
    ensures forall c :: c in Commands(log, n) ==> c.position < n && CommandAt(log, c.position) == Some(c)
    ensures forall q: nat :: q < n && CommandAt(log, q).Some? ==> CommandAt(log, q).value in Commands(log, n)
  {
    hide CommandAt;
    if n > 0 {
      CommandsMeaning(log, n - 1);
      CommandPosition(log, n - 1);
    }
  }

  lemma CommandPosition(log: seq<Payload>, q: nat)
    requires q < |log|
    ensures CommandAt(log, q).Some? ==> CommandAt(log, q).value.position == q
  {
  }

  /** On a good log the commands applied are the committed counter writes. */
  lemma CommandIsEffect(log: seq<Payload>, q: nat)
    requires GoodLog(log) && q < |log|
    ensures CommandAt(log, q).Some? <==> EffectOf(log, q) != Read
    ensures CommandAt(log, q).Some? ==>
              && log[q].Commit? && 0 <= log[q].committed < q && IsCounterWrite(log[log[q].committed])
              && CommandAt(log, q).value == LoggedCommand(log[log[q].committed].body.id, EffectOf(log, q), q)
  {
    hide Replayed;
    if log[q].Commit? {
      BufferedMeaning(log, q, log[q].committed);
      assert log[q].Decides(log[q].committed);
    }
  }

  // ---- the check ----

  predicate Succeeded(o: CounterObservation) {
    o.operation.IsWrite() && o.output.Value?
  }

  ghost predicate Ascending(h: seq<LoggedCommand>) {
    forall i, j :: 0 <= i < j < |h| ==> h[i].position < h[j].position
  }

  ghost predicate Backs(c: LoggedCommand, o: CounterObservation) {
    o.tag == c.position && o.id == c.id && o.operation == c.operation
  }

  /** The records agree; successful writes have distinct tags; the record lists exactly their commands, in tag order. */
  ghost predicate Evidence(obs: seq<CounterObservation>, histories: seq<seq<LoggedCommand>>) {
    && histories != []
    && (forall i :: 0 <= i < |histories| ==> histories[i] == histories[0])
    && DistinctTags(obs)
    && Ascending(histories[0])
    && (forall o :: o in obs && Succeeded(o) ==> HasCommand(histories[0], o))
    && (forall c :: c in histories[0] ==> HasWrite(obs, c))
  }

  ghost predicate DistinctTags(obs: seq<CounterObservation>) {
    forall i, j :: 0 <= i < j < |obs| && Succeeded(obs[i]) && Succeeded(obs[j]) ==> obs[i].tag != obs[j].tag
  }

  ghost predicate HasCommand(h: seq<LoggedCommand>, o: CounterObservation) {
    exists c :: c in h && Backs(c, o)
  }

  ghost predicate HasWrite(obs: seq<CounterObservation>, c: LoggedCommand) {
    exists o :: o in obs && Succeeded(o) && Backs(c, o)
  }

  // ---- sorting the successful writes ----

  ghost predicate TagsAscend(writes: seq<CounterObservation>) {
    forall i, j :: 0 <= i < j < |writes| ==> writes[i].tag <= writes[j].tag
  }

  ghost predicate TagsRise(writes: seq<CounterObservation>) {
    forall i, j :: 0 <= i < j < |writes| ==> writes[i].tag < writes[j].tag
  }

  /** `writes` are the successful writes of obs; their tags repeat exactly when those of obs do. */
  ghost predicate AreWrites(obs: seq<CounterObservation>, writes: seq<CounterObservation>) {
    && (forall o :: o in writes <==> o in obs && Succeeded(o))
    && (TagsDiffer(writes) <==> DistinctTags(obs))
  }

  ghost predicate TagsDiffer(writes: seq<CounterObservation>) {
    forall i, j :: 0 <= i < j < |writes| ==> writes[i].tag != writes[j].tag
  }

  method SortWrites(obs: seq<CounterObservation>) returns (writes: seq<CounterObservation>)
    ensures AreWrites(obs, writes) && TagsAscend(writes)
  {
    hide AreWrites, TagsAscend;
    writes := [];
    NoWrites(obs);
    for n := 0 to |obs|
      invariant AreWrites(obs[..n], writes) && TagsAscend(writes)
    {
      if Succeeded(obs[n]) {
        var k := |writes|;
        while 0 < k && obs[n].tag < writes[k - 1].tag
          invariant 0 <= k <= |writes|
          invariant forall i :: k <= i < |writes| ==> obs[n].tag < writes[i].tag
        {
          k := k - 1;
        }
        InsertWrite(obs, n, writes, k);
        writes := writes[..k] + [obs[n]] + writes[k..];
      } else {
        SkipOther(obs, n, writes);
      }
    }
    assert obs[..|obs|] == obs;
  }

  lemma NoWrites(obs: seq<CounterObservation>)
    ensures AreWrites(obs[..0], []) && TagsAscend([])
  {
  }

  lemma SkipOther(obs: seq<CounterObservation>, n: nat, writes: seq<CounterObservation>)
    requires n < |obs| && AreWrites(obs[..n], writes) && !Succeeded(obs[n])
    ensures AreWrites(obs[..n + 1], writes)
  {
    DistinctTagsSnoc(obs, n);
    forall o
      ensures o in obs[..n + 1] <==> o in obs[..n] || o == obs[n]
    {
      InPrefix(obs, n, o);
    }
  }

  lemma DistinctTagsSnoc(obs: seq<CounterObservation>, n: nat)
    requires n < |obs|
    ensures DistinctTags(obs[..n + 1]) <==>
            DistinctTags(obs[..n])
                && (Succeeded(obs[n]) ==> forall o :: o in obs[..n] && Succeeded(o) ==> o.tag != obs[n].tag)
  {
    var all := obs[..n + 1];
    if DistinctTags(all) {
      forall i, j | 0 <= i < j < n && Succeeded(obs[..n][i]) && Succeeded(obs[..n][j])
        ensures obs[..n][i].tag != obs[..n][j].tag
      {
        assert all[i] == obs[i] && all[j] == obs[j];
      }
      forall o | o in obs[..n] && Succeeded(o) && Succeeded(obs[n])
        ensures o.tag != obs[n].tag
      {
        var i :| 0 <= i < n && obs[..n][i] == o;
        assert all[i] == o && all[n] == obs[n];
      }
    }
    if DistinctTags(obs[..n])
        && (Succeeded(obs[n]) ==> forall o :: o in obs[..n] && Succeeded(o) ==> o.tag != obs[n].tag) {
      forall i, j | 0 <= i < j < |all| && Succeeded(all[i]) && Succeeded(all[j])
        ensures all[i].tag != all[j].tag
      {
        assert obs[..n][i] == all[i] && obs[..n][i] in obs[..n];
        assert j < n ==> obs[..n][j] == all[j];
      }
    }
  }

  lemma InsertWrite(obs: seq<CounterObservation>, n: nat, writes: seq<CounterObservation>, k: nat)
    requires n < |obs| && Succeeded(obs[n]) && AreWrites(obs[..n], writes) && TagsAscend(writes) && k <= |writes|
    requires forall i :: k <= i < |writes| ==> obs[n].tag < writes[i].tag
    requires 0 < k ==> writes[k - 1].tag <= obs[n].tag
    ensures AreWrites(obs[..n + 1], writes[..k] + [obs[n]] + writes[k..])
    ensures TagsAscend(writes[..k] + [obs[n]] + writes[k..])
  {
    hide DistinctTags, TagsDiffer, Succeeded;
    var writes' := writes[..k] + [obs[n]] + writes[k..];
    forall o
      ensures (o in writes' <==> o in writes || o == obs[n]) && (o in obs[..n + 1] <==> o in obs[..n] || o == obs[n])
    {
      InsertedMembers(writes, k, obs[n], o);
      InPrefix(obs, n, o);
    }
    DistinctTagsSnoc(obs, n);
    TagsDifferInsert(writes, k, obs[n]);
  }

  lemma TagsDifferInsert(writes: seq<CounterObservation>, k: nat, x: CounterObservation)
    requires k <= |writes|
    ensures TagsDiffer(writes[..k] + [x] + writes[k..]) <==> TagsDiffer(writes) && forall o :: o in writes ==>
        o.tag != x.tag
  {
    var writes' := writes[..k] + [x] + writes[k..];
    assert forall i :: 0 <= i < |writes| ==> writes[i] == writes'[if i < k then i else i + 1];
    if TagsDiffer(writes') {
      forall o | o in writes
        ensures o.tag != x.tag
      {
        var i :| 0 <= i < |writes| && writes[i] == o;
        var i' := if i < k then i else i + 1;
        assert writes'[i'] == o && writes'[k] == x;
      }
    }
  }

  method VerifyLogEvidence(obs: seq<CounterObservation>, histories: seq<seq<LoggedCommand>>) returns (ok: bool)
    ensures ok <==> Evidence(obs, histories)
  {
    hide Evidence;
    if |histories| == 0 {
      NoEvidence(obs, histories);
      return false;
    }
    for i := 1 to |histories|
      invariant forall k :: 0 <= k < i ==> histories[k] == histories[0]
    {
      if histories[i] != histories[0] {
        NoEvidence(obs, histories);
        return false;
      }
    }
    var writes := SortWrites(obs);
    var risen := CheckRising(writes);
    var zipped := CheckZip(writes, histories[0]);
    ok := risen && zipped;
    EvidenceIff(obs, histories, writes);
  }

  lemma NoEvidence(obs: seq<CounterObservation>, histories: seq<seq<LoggedCommand>>)
    requires histories == [] || exists i :: 0 <= i < |histories| && histories[i] != histories[0]
    ensures !Evidence(obs, histories)
  {
  }

  method CheckRising(writes: seq<CounterObservation>) returns (ok: bool)
    requires TagsAscend(writes)
    ensures ok <==> TagsRise(writes)
  {
    var n := 1;
    while n < |writes|
      invariant 1 <= n
      invariant forall i, j :: 0 <= i < j < n && j < |writes| ==> writes[i].tag < writes[j].tag
    {
      var before, after := writes[n - 1], writes[n];
      if before.tag == after.tag {
        return false;
      }
      n := n + 1;
    }
    return true;
  }

  /** Same length, and the i-th write is backed by the i-th command. */
  ghost predicate Zipped(writes: seq<CounterObservation>, h: seq<LoggedCommand>) {
    |writes| == |h| && forall i :: 0 <= i < |h| ==> Backs(h[i], writes[i])
  }

  method CheckZip(writes: seq<CounterObservation>, h: seq<LoggedCommand>) returns (ok: bool)
    ensures ok <==> Zipped(writes, h)
  {
    if |writes| != |h| {
      return false;
    }
    for n := 0 to |h|
      invariant forall i :: 0 <= i < n ==> Backs(h[i], writes[i])
    {
      if writes[n].tag != h[n].position || writes[n].id != h[n].id || writes[n].operation != h[n].operation {
        return false;
      }
    }
    return true;
  }

  lemma EvidenceIff(obs: seq<CounterObservation>, histories: seq<seq<LoggedCommand>>, writes: seq<CounterObservation>)
    requires histories != [] && forall i :: 0 <= i < |histories| ==> histories[i] == histories[0]
    requires AreWrites(obs, writes) && TagsAscend(writes)
    ensures TagsRise(writes) && Zipped(writes, histories[0]) <==> Evidence(obs, histories)
  {
    hide DistinctTags;
    var h := histories[0];
    if TagsRise(writes) && Zipped(writes, h) {
      ZipIsEvidence(obs, writes, h);
    }
    if Evidence(obs, histories) {
      EvidenceZips(obs, writes, h);
    }
  }

  lemma ZipIsEvidence(obs: seq<CounterObservation>, writes: seq<CounterObservation>, h: seq<LoggedCommand>)
    requires AreWrites(obs, writes) && TagsRise(writes) && Zipped(writes, h)
    ensures DistinctTags(obs) && Ascending(h)
    ensures forall o :: o in obs && Succeeded(o) ==> HasCommand(h, o)
    ensures forall c :: c in h ==> HasWrite(obs, c)
  {
    hide DistinctTags;
    forall o | o in obs && Succeeded(o)
      ensures HasCommand(h, o)
    {
      var i :| 0 <= i < |writes| && writes[i] == o;
      assert h[i] in h && Backs(h[i], o);
    }
    forall c | c in h
      ensures HasWrite(obs, c)
    {
      var i :| 0 <= i < |h| && h[i] == c;
      assert writes[i] in writes && Backs(c, writes[i]);
    }
  }

  lemma EvidenceZips(obs: seq<CounterObservation>, writes: seq<CounterObservation>, h: seq<LoggedCommand>)
    requires AreWrites(obs, writes) && TagsAscend(writes) && DistinctTags(obs) && Ascending(h)
    requires forall o :: o in obs && Succeeded(o) ==> HasCommand(h, o)
    requires forall c :: c in h ==> HasWrite(obs, c)
    ensures TagsRise(writes) && Zipped(writes, h)
  {
    hide DistinctTags, Succeeded;
    assert TagsRise(writes);
    forall c | c in h
      ensures HasWrite(writes, c)
    {
      var o :| o in obs && Succeeded(o) && Backs(c, o);
      assert o in writes;
    }
    SameAscent(writes, h, |writes|);
    if |writes| < |h| {
      PositionOfWrite(writes, h, |writes|);
    }
  }

  /** Two rising sequences over the same elements agree position by position. */
  lemma {:induction false} SameAscent(writes: seq<CounterObservation>, h: seq<LoggedCommand>, n: nat)
    requires TagsRise(writes) && Ascending(h) && n <= |writes|
    requires forall o :: o in writes ==> HasCommand(h, o)
    requires forall c :: c in h ==> HasWrite(writes, c)
    ensures n <= |h| && forall i :: 0 <= i < n ==> Backs(h[i], writes[i])
  {
    if n > 0 {
      SameAscent(writes, h, n - 1);
      assert writes[n - 1] in writes;
      var c :| c in h && Backs(c, writes[n - 1]);
      var j :| 0 <= j < |h| && h[j] == c;
      assert j >= n - 1;
      if j > n - 1 {
        PositionOfWrite(writes, h, n - 1);
      }
    }
  }

  /** The write of the n-th command does not stand among the first n, which are backed by earlier commands. */
  lemma PositionOfWrite(writes: seq<CounterObservation>, h: seq<LoggedCommand>, n: nat)
    requires Ascending(h) && n < |h| && n <= |writes| && HasWrite(writes, h[n])
    requires forall i :: 0 <= i < n ==> Backs(h[i], writes[i])
    ensures exists i :: n <= i < |writes| && writes[i].tag == h[n].position
  {
    var o :| o in writes && Succeeded(o) && Backs(h[n], o);
    var i :| 0 <= i < |writes| && writes[i] == o;
    assert i >= n;
  }
}
