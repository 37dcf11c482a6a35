/** benchmarks/benchmark_throughput.py: the length filter of `sample_requests` and the
    batching loop of `run_hf`.

    The loop closes a batch when the next request no longer fits.  It is proved to use
    the fewest batches of all ways to cut the request list into consecutive batches. */
module BatchPacking {
  import opened Options

  datatype Request = Request(prompt: string, promptLen: nat, outputLen: nat)

  const LIMIT := 2048

  /** Any prompt of the batch can be padded to the longest one and still leave room for
      the longest output. */
  ghost predicate LengthsFit(batch: seq<Request>) {
    forall i, j :: 0 <= i < |batch| && 0 <= j < |batch| ==> batch[i].promptLen + batch[j].outputLen <= LIMIT
  }

  ghost predicate Feasible(batch: seq<Request>, maxBatchSize: int) {
    batch != [] && |batch| <= maxBatchSize && LengthsFit(batch)
  }

  ghost function Concat(batches: seq<seq<Request>>): seq<Request> {
    if batches == [] then [] else Concat(batches[..|batches| - 1]) + batches[|batches| - 1]
  }

  /** The batch could not have been extended by the first request of the next one. */
  ghost predicate Closed(batches: seq<seq<Request>>, k: nat, maxBatchSize: int)
    requires k + 1 < |batches|
  {
    batches[k + 1] != [] && !Feasible(batches[k] + [batches[k + 1][0]], maxBatchSize)
  }

  // ----- the loop

  function Max(a: nat, b: nat): nat {
    if a < b then b else a
  }

  /** `p` and `o` are the largest prompt and output length of the batch. */
  ghost predicate AreMaxima(batch: seq<Request>, p: nat, o: nat) {
    && (forall i :: 0 <= i < |batch| ==> batch[i].promptLen <= p && batch[i].outputLen <= o)
    && (batch == [] ==> p == 0 && o == 0)
    && (batch != [] ==> (exists i :: 0 <= i < |batch| && batch[i].promptLen == p)
                        && exists j :: 0 <= j < |batch| && batch[j].outputLen == o)
  }

  lemma ExtendMaxima(batch: seq<Request>, p: nat, o: nat, r: Request)
    requires AreMaxima(batch, p, o)
    ensures AreMaxima(batch + [r], Max(p, r.promptLen), Max(o, r.outputLen))
  {
    var b := batch + [r];
    assert b[|batch|] == r;
    if batch != [] {
      var i :| 0 <= i < |batch| && batch[i].promptLen == p;
      var j :| 0 <= j < |batch| && batch[j].outputLen == o;
      assert b[i].promptLen == p && b[j].outputLen == o;
    }
  }

  lemma MaximaDecide(batch: seq<Request>, p: nat, o: nat)
    requires AreMaxima(batch, p, o) && batch != []
    ensures LengthsFit(batch) <==> p + o <= LIMIT
  {
    var i :| 0 <= i < |batch| && batch[i].promptLen == p;
    var j :| 0 <= j < |batch| && batch[j].outputLen == o;
  }

  /** The last batch sent could not have taken the request that came next. */
  ghost predicate ClosedBy(last: seq<Request>, batch: seq<Request>, requests: seq<Request>, i: nat, maxBatchSize: int)
    requires i <= |requests|
  {
    if batch != [] then !Feasible(last + [batch[0]], maxBatchSize)
    else i < |requests| ==> !Feasible(last + [requests[i]], maxBatchSize)
  }

  ghost predicate EachFits(requests: seq<Request>, maxBatchSize: int) {
    maxBatchSize >= 1 && forall r :: r in requests ==> r.promptLen + r.outputLen <= LIMIT
  }

  ghost predicate AllFeasible(batches: seq<seq<Request>>, maxBatchSize: int) {
    forall k :: 0 <= k < |batches| ==> Feasible(batches[k], maxBatchSize)
  }

  /** Non-empty batches, none of which could have taken one more request. */
  ghost predicate Greedy(batches: seq<seq<Request>>, maxBatchSize: int) {
    && (forall k :: 0 <= k < |batches| ==> batches[k] != [])
    && forall k :: 0 <= k < |batches| - 1 ==> Closed(batches, k, maxBatchSize)
  }

  /** The loop's state before request `i`. */
  ghost predicate Packing(sent: seq<seq<Request>>, batch: seq<Request>, requests: seq<Request>, i: nat,
                          maxBatchSize: int)
  {
    && i <= |requests|
    && Concat(sent) + batch == requests[..i]
    && Greedy(sent, maxBatchSize)
    && (sent != [] ==> ClosedBy(sent[|sent| - 1], batch, requests, i, maxBatchSize))
    && (EachFits(requests, maxBatchSize) ==>
          && AllFeasible(sent, maxBatchSize)
          && (i < |requests| ==> Feasible(batch + [requests[i]], maxBatchSize)))
  }

  lemma StartPacking(requests: seq<Request>, maxBatchSize: int)
    ensures Packing([], [], requests, 0, maxBatchSize)
  {
  }

  lemma KeepPacking(sent: seq<seq<Request>>, batch: seq<Request>, requests: seq<Request>, i: nat, maxBatchSize: int)
    requires Packing(sent, batch, requests, i, maxBatchSize) && i + 1 < |requests|
    requires |batch| + 1 < maxBatchSize && LengthsFit(batch + [requests[i]] + [requests[i + 1]])
    ensures Packing(sent, batch + [requests[i]], requests, i + 1, maxBatchSize)
  {
    hide Greedy, AllFeasible, LengthsFit, EachFits;
    assert requests[..i + 1] == requests[..i] + [requests[i]];
    assert Concat(sent) + (batch + [requests[i]]) == (Concat(sent) + batch) + [requests[i]];
  }

  lemma SendBatch(sent: seq<seq<Request>>, batch: seq<Request>, requests: seq<Request>, i: nat, maxBatchSize: int)
    requires Packing(sent, batch, requests, i, maxBatchSize) && i < |requests|
    requires i + 1 < |requests| ==> !Feasible(batch + [requests[i]] + [requests[i + 1]], maxBatchSize)
    ensures Packing(sent + [batch + [requests[i]]], [], requests, i + 1, maxBatchSize)
  {
    var b := batch + [requests[i]];
    var after := sent + [b];
    assert after[..|sent|] == sent;
    assert requests[..i + 1] == requests[..i] + [requests[i]];
    assert Concat(sent) + b == (Concat(sent) + batch) + [requests[i]];
    assert Concat(after) + [] == Concat(after);
    GreedyExtends(sent, b, batch, requests, i, maxBatchSize);
    if EachFits(requests, maxBatchSize) && i + 1 < |requests| {
      assert requests[i + 1] in requests;
      assert [] + [requests[i + 1]] == [requests[i + 1]];
    }
  }

  lemma GreedyExtends(sent: seq<seq<Request>>, b: seq<Request>, batch: seq<Request>, requests: seq<Request>, i: nat,
                      maxBatchSize: int)
    requires Greedy(sent, maxBatchSize) && i < |requests| && b == batch + [requests[i]]
    requires sent != [] ==> ClosedBy(sent[|sent| - 1], batch, requests, i, maxBatchSize)
    ensures Greedy(sent + [b], maxBatchSize)
  {
    var after := sent + [b];
    forall k | 0 <= k < |after| - 1
      ensures Closed(after, k, maxBatchSize)
    {
      if k < |sent| - 1 {
        assert Closed(sent, k, maxBatchSize);
      }
    }
  }

  /** The batches `run_hf` sends to the model: they are the whole request list in order,
      none is empty, none could have been extended, and all are feasible when each
      request on its own is. */
  method RunHf(requests: seq<Request>, maxBatchSize: int) returns (sent: seq<seq<Request>>)
    ensures Concat(sent) == requests
    ensures Greedy(sent, maxBatchSize)
    ensures EachFits(requests, maxBatchSize) ==> AllFeasible(sent, maxBatchSize)
  {
    hide Greedy, ClosedBy, EachFits, AllFeasible, AreMaxima, LengthsFit, Concat;
    sent := [];
    var batch: seq<Request> := [];
    var maxPromptLen, maxOutputLen := 0, 0;
    StartPacking(requests, maxBatchSize);
    NoMaxima();
    for i := 0 to |requests|
      invariant Packing(sent, batch, requests, i, maxBatchSize)
      invariant AreMaxima(batch, maxPromptLen, maxOutputLen)
      invariant i == |requests| ==> batch == []
    {
      ghost var before := batch;
      ExtendMaxima(batch, maxPromptLen, maxOutputLen, requests[i]);
      batch := batch + [requests[i]];
      maxPromptLen := Max(maxPromptLen, requests[i].promptLen);
      maxOutputLen := Max(maxOutputLen, requests[i].outputLen);
      if |batch| < maxBatchSize && i != |requests| - 1 {
        var next := requests[i + 1];
        ExtendMaxima(batch, maxPromptLen, maxOutputLen, next);
        MaximaDecide(batch + [next], Max(maxPromptLen, next.promptLen), Max(maxOutputLen, next.outputLen));
        if Max(maxPromptLen, next.promptLen) + Max(maxOutputLen, next.outputLen) <= LIMIT {
          KeepPacking(sent, before, requests, i, maxBatchSize);
          continue;
        }
      }
      SendBatch(sent, before, requests, i, maxBatchSize);
      sent := sent + [batch];
      batch := [];
      maxPromptLen, maxOutputLen := 0, 0;
    }
    assert requests[..|requests|] == requests && Concat(sent) + [] == Concat(sent);
  }

  lemma NoMaxima()
    ensures AreMaxima([], 0, 0)
  {
  }

  // ----- fewest batches

  /** How many requests the first `k` batches hold. */
  ghost function Taken(batches: seq<seq<Request>>, k: nat): nat
    requires k <= |batches|
  {
    if k == 0 then 0 else Taken(batches, k - 1) + |batches[k - 1]|
  }

  lemma {:induction false} BatchIsSlice(batches: seq<seq<Request>>, k: nat)
    requires k < |batches|
    ensures Taken(batches, k + 1) == Taken(batches, k) + |batches[k]|
    ensures Taken(batches, k + 1) <= Taken(batches, |batches|) == |Concat(batches)|
    ensures batches[k] == Concat(batches)[Taken(batches, k)..Taken(batches, k + 1)]
    decreases |batches|
  {
    var n := |batches| - 1;
    var r := batches[..n];
    TakenOfPrefix(batches, n, n);
    TakenOfPrefix(batches, n, k);
    if k < n {
      BatchIsSlice(r, k);
      TakenOfPrefix(batches, n, k + 1);
      var lo, hi := Taken(r, k), Taken(r, k + 1);
      assert Concat(batches)[lo..hi] == Concat(r)[lo..hi];
    } else {
      ConcatLength(r);
      assert Concat(batches)[|Concat(r)|..] == batches[n];
    }
  }

  lemma {:induction false} ConcatLength(batches: seq<seq<Request>>)
    ensures Taken(batches, |batches|) == |Concat(batches)|
  {
    if batches != [] {
      ConcatLength(batches[..|batches| - 1]);
      TakenOfPrefix(batches, |batches| - 1, |batches| - 1);
    }
  }

  lemma {:induction false} TakenOfPrefix(batches: seq<seq<Request>>, n: nat, k: nat)
    requires k <= n <= |batches|
    ensures Taken(batches[..n], k) == Taken(batches, k)
  {
    if k > 0 {
      TakenOfPrefix(batches, n, k - 1);
    }
  }

  /** A feasible stretch stays feasible when shortened. */
  lemma FeasibleShrinks(s: seq<Request>, lo: nat, a: nat, b: nat, hi: nat, maxBatchSize: int)
    requires lo <= a < b <= hi <= |s| && Feasible(s[lo..hi], maxBatchSize)
    ensures Feasible(s[a..b], maxBatchSize)
  {
    var big, small := s[lo..hi], s[a..b];
    forall i, j | 0 <= i < |small| && 0 <= j < |small|
      ensures small[i].promptLen + small[j].outputLen <= LIMIT
    {
      assert small[i] == big[i + a - lo] && small[j] == big[j + a - lo];
    }
  }

  /** Greedy stays ahead: after any number of batches it has taken at least as many
      requests as any other feasible way to cut the list. */
  lemma {:induction false} GreedyStaysAhead(greedy: seq<seq<Request>>, other: seq<seq<Request>>, k: nat,
                                            maxBatchSize: int)
    requires Concat(greedy) == Concat(other) && Greedy(greedy, maxBatchSize) && AllFeasible(other, maxBatchSize)
    requires k <= |greedy| && k <= |other|
    ensures Taken(other, k) <= Taken(greedy, k)
  {
    if k > 0 {
      GreedyStaysAhead(greedy, other, k - 1, maxBatchSize);
      NoOvertaking(greedy, other, k, maxBatchSize);
    }
  }

  lemma NoOvertaking(greedy: seq<seq<Request>>, other: seq<seq<Request>>, k: nat, maxBatchSize: int)
    requires Concat(greedy) == Concat(other) && Greedy(greedy, maxBatchSize) && AllFeasible(other, maxBatchSize)
    requires 1 <= k <= |greedy| && k <= |other| && Taken(other, k - 1) <= Taken(greedy, k - 1)
    ensures Taken(other, k) <= Taken(greedy, k)
  {
    hide Concat, Taken, Feasible;
    BatchIsSlice(greedy, k - 1);
    BatchIsSlice(other, k - 1);
    var s, a, b := Concat(greedy), Taken(greedy, k - 1), Taken(greedy, k);
    if b < Taken(other, k) {
      BatchIsSlice(greedy, k);
      assert Closed(greedy, k - 1, maxBatchSize);
      assert s[a..b + 1] == greedy[k - 1] + [greedy[k][0]];
      FeasibleShrinks(s, Taken(other, k - 1), a, b + 1, Taken(other, k), maxBatchSize);
      assert false;
    }
  }

  /** No way to cut the request list into consecutive feasible batches uses fewer
      batches than the greedy one. */
  lemma GreedyIsOptimal(greedy: seq<seq<Request>>, other: seq<seq<Request>>, maxBatchSize: int)
    requires Concat(greedy) == Concat(other) && Greedy(greedy, maxBatchSize) && AllFeasible(other, maxBatchSize)
    ensures |greedy| <= |other|
  {
    if |other| < |greedy| {
      GreedyStaysAhead(greedy, other, |other|, maxBatchSize);
      ConcatLength(other);
      BatchIsSlice(greedy, |other|);
      assert false;
    }
  }

  // ----- the length filter

  /** One conversation of the data set; an image that cannot be opened is skipped. */
  datatype Conversation = MissingImage | Conversation(prompt: string, promptLen: nat, completionLen: nat)

  datatype Sampled = Sampled(requests: seq<Request>) | OutputLenTooSmall

  function OutputLen(c: Conversation, fixedOutputLen: Option<nat>): nat
    requires c.Conversation?
  {
    match fixedOutputLen case None => c.completionLen case Some(n) => n
  }

  predicate Keeps(c: Conversation, fixedOutputLen: Option<nat>) {
    && c.Conversation?
    && c.promptLen >= 4 && OutputLen(c, fixedOutputLen) >= 4
    && c.promptLen <= 1024 && c.promptLen + OutputLen(c, fixedOutputLen) <= LIMIT
  }

  /** The requests of all conversations the filter keeps, in order. */
  ghost function Kept(data: seq<Conversation>, fixedOutputLen: Option<nat>): seq<Request> {
    if data == [] then []
    else
      var c := data[|data| - 1];
      Kept(data[..|data| - 1], fixedOutputLen) +
      if Keeps(c, fixedOutputLen) then [Request(c.prompt, c.promptLen, OutputLen(c, fixedOutputLen))] else []
  }

  lemma {:induction false} KeptFit(data: seq<Conversation>, fixedOutputLen: Option<nat>)
    ensures forall r :: r in Kept(data, fixedOutputLen) ==>
              4 <= r.promptLen <= 1024 && 4 <= r.outputLen && r.promptLen + r.outputLen <= LIMIT
  {
    if data != [] {
      KeptFit(data[..|data| - 1], fixedOutputLen);
    }
  }

  lemma {:induction false} KeptPrefix(data: seq<Conversation>, fixedOutputLen: Option<nat>, n: nat)
    requires n <= |data|
    ensures Kept(data[..n], fixedOutputLen) <= Kept(data, fixedOutputLen)
    decreases |data|
  {
    if n < |data| {
      var r := data[..|data| - 1];
      KeptPrefix(r, fixedOutputLen, n);
      assert r[..n] == data[..n];
    } else {
      assert data[..n] == data;
    }
  }

  /** `sample_requests` after loading and shuffling: the first `numRequests` of the kept
      requests, each of which fits on its own. */
  method SampleRequests(data: seq<Conversation>, numRequests: nat, fixedOutputLen: Option<nat>) returns (r: Sampled)
    ensures r.OutputLenTooSmall? <==> fixedOutputLen.Some? && fixedOutputLen.value < 4
    ensures r.Sampled? ==>
              var kept := Kept(data, fixedOutputLen);
              r.requests == if |kept| <= numRequests then kept else kept[..numRequests]
    ensures r.Sampled? ==> forall maxBatchSize :: maxBatchSize >= 1 ==> EachFits(r.requests, maxBatchSize)
  {
    if fixedOutputLen.Some? && fixedOutputLen.value < 4 {
      return OutputLenTooSmall;
    }
    KeptFit(data, fixedOutputLen);
    var filtered: seq<Request> := [];
    for i := 0 to |data|
      invariant filtered == Kept(data[..i], fixedOutputLen) && |filtered| <= numRequests
    {
      KeptPrefix(data, fixedOutputLen, i);
      if |filtered| == numRequests {
        return Sampled(filtered);
      }
      assert data[..i + 1][..i] == data[..i];
      var c := data[i];
      if c.MissingImage? {
        continue;
      }
      var outputLen := if fixedOutputLen.None? then c.completionLen else fixedOutputLen.value;
      if c.promptLen < 4 || outputLen < 4 {
        continue;
      }
      if c.promptLen > 1024 || c.promptLen + outputLen > LIMIT {
        continue;
      }
      filtered := filtered + [Request(c.prompt, c.promptLen, outputLen)];
    }
    assert data[..|data|] == data;
    r := Sampled(filtered);
  }
}
