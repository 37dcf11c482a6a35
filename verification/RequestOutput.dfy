/** vllm/outputs.py, `RequestOutput.from_seq_group`: the path that reuses the output objects
    of a sequence group and the path that builds new ones.

    `Expected` is the content of the result as a value.  Both paths return an object with
    that content, over any run of calls and any number of sequences, and the reused
    objects keep their positions. */
module RequestOutputs {
  import opened Sequences
  import opened Options

  /** New tokens are handed over as a single number or as a list. */
  datatype TokenIds = One(id: int) | Many(ids: seq<int>)

  /** What a sequence reports at one call. */
  datatype SeqReport = SeqReport(text: string, tokenIds: TokenIds, outputLen: nat, logprobs: seq<real>,
                                 cumulative: real,
                                 finishReason: Option<string>, stopReason: Option<string>, numCachedTokens: nat)

  datatype Completion = Completion(index: nat, text: string, tokenIds: seq<int>, cumulative: Option<real>,
                                   logprobs: Option<seq<real>>, finishReason: Option<string>,
                                   stopReason: Option<string>)

  datatype Output = Output(requestId: string, prompt: Option<string>, promptTokenIds: Option<seq<int>>,
                           outputs: seq<Completion>, finished: bool, numCachedTokens: Option<nat>)

  /** What one call depends on besides the group itself. */
  datatype Call = Call(seqs: seq<SeqReport>, finished: bool, finalOnly: bool, delta: bool, includeLogprobs: bool)

  function Tokens(t: TokenIds): seq<int> {
    match t
    case One(id) => [id]
    case Many(ids) => ids
  }

  /** Python's `s[-n:]`: everything when `n` is zero. */
  function LastPart<T>(s: seq<T>, n: nat): seq<T> {
    if n == 0 || n >= |s| then s else s[|s| - n..]
  }

  function Logprobs(c: Call, r: SeqReport): Option<seq<real>> {
    if !c.includeLogprobs then None
    else if c.delta && r.logprobs != [] then Some(LastPart(r.logprobs, |Tokens(r.tokenIds)|))
    else Some(r.logprobs)
  }

  /** In delta mode the log probabilities are the last ones, one for each new token. */
  lemma DeltaLogprobs(c: Call, r: SeqReport)
    requires c.includeLogprobs
    ensures Logprobs(c, r).Some?
    ensures c.delta && 0 < |Tokens(r.tokenIds)| <= |r.logprobs| ==>
              var l, n := Logprobs(c, r).value, |Tokens(r.tokenIds)|;
              |l| == n && r.logprobs == r.logprobs[..|r.logprobs| - n] + l
    ensures !c.delta || Tokens(r.tokenIds) == [] ==> Logprobs(c, r).value == r.logprobs
  {
  }

  ghost function ExpectedAt(c: Call, i: nat): Completion
    requires i < |c.seqs|
  {
    var r := c.seqs[i];
    Completion(i, r.text, Tokens(r.tokenIds), if c.includeLogprobs then Some(r.cumulative) else None, Logprobs(c, r),
               r.finishReason, r.stopReason)
  }

  /** In delta mode the prompt is left out as soon as some sequence has older tokens. */
  ghost predicate IncludesPrompt(c: Call, n: nat)
    requires n <= |c.seqs|
  {
    c.delta ==> forall i :: 0 <= i < n ==> c.seqs[i].outputLen <= |Tokens(c.seqs[i].tokenIds)|
  }

  ghost function Expected(g: SequenceGroup, c: Call): Output {
    var full := IncludesPrompt(c, |c.seqs|);
    Output(g.requestId, if full then g.prompt else None, if full then Some(g.promptTokenIds) else None,
           seq(|c.seqs|, i requires 0 <= i < |c.seqs| => ExpectedAt(c, i)), c.finished,
           if c.seqs == [] then None else Some(c.seqs[|c.seqs| - 1].numCachedTokens))
  }

  class CompletionOutput {
    var index: nat
    var text: string
    var tokenIds: seq<int>
    var cumulative: Option<real>
    var logprobs: Option<seq<real>>
    var finishReason: Option<string>
    var stopReason: Option<string>

    constructor (v: Completion)
      ensures Value() == v
    {
      index, text, tokenIds, cumulative := v.index, v.text, v.tokenIds, v.cumulative;
      logprobs, finishReason, stopReason := v.logprobs, v.finishReason, v.stopReason;
    }

    ghost function Value(): Completion
      reads this
    {
      Completion(index, text, tokenIds, cumulative, logprobs, finishReason, stopReason)
    }

    /** Overwrites everything but the index. */
    method Refresh(c: Call, r: SeqReport)
      modifies this
      ensures index == old(index)
      ensures Value() == Completion(index, r.text, Tokens(r.tokenIds),
                                    if c.includeLogprobs then Some(r.cumulative) else None,
                                    Logprobs(c, r), r.finishReason, r.stopReason)
    {
      text := r.text;
      match r.tokenIds {
        case One(id) =>
          tokenIds := [];
          tokenIds := tokenIds + [id];
        case Many(ids) =>
          tokenIds := ids;
      }
      cumulative := if c.includeLogprobs then Some(r.cumulative) else None;
      var numTokens := |tokenIds|;
      logprobs := if c.includeLogprobs then Some(r.logprobs) else None;
      if c.delta && logprobs.Some? && logprobs.value != [] && 0 < numTokens < |r.logprobs| {
        logprobs := Some(r.logprobs[|r.logprobs| - numTokens..]);
      }
      finishReason, stopReason := r.finishReason, r.stopReason;
    }
  }

  class RequestOutput {
    var requestId: string
    var prompt: Option<string>
    var promptTokenIds: Option<seq<int>>
    var outputs: seq<CompletionOutput>
    var finished: bool
    var numCachedTokens: Option<nat>

    constructor (requestId: string, prompt: Option<string>, promptTokenIds: Option<seq<int>>,
                 outputs: seq<CompletionOutput>, finished: bool, numCachedTokens: Option<nat>)
      ensures this.requestId == requestId && this.prompt == prompt && this.promptTokenIds == promptTokenIds
      ensures this.outputs == outputs && this.finished == finished && this.numCachedTokens == numCachedTokens
    {
      this.requestId, this.prompt, this.promptTokenIds := requestId, prompt, promptTokenIds;
      this.outputs, this.finished, this.numCachedTokens := outputs, finished, numCachedTokens;
    }

    /** Running the constructor again on an existing object. */
    method Reset(requestId: string, prompt: Option<string>, promptTokenIds: Option<seq<int>>,
                 outputs: seq<CompletionOutput>, finished: bool, numCachedTokens: Option<nat>)
      modifies this
      ensures this.requestId == requestId && this.prompt == prompt && this.promptTokenIds == promptTokenIds
      ensures this.outputs == outputs && this.finished == finished && this.numCachedTokens == numCachedTokens
    {
      this.requestId, this.prompt, this.promptTokenIds := requestId, prompt, promptTokenIds;
      this.outputs, this.finished, this.numCachedTokens := outputs, finished, numCachedTokens;
    }

    ghost predicate Has(v: Output)
      reads this, outputs
    {
      && requestId == v.requestId && prompt == v.prompt && promptTokenIds == v.promptTokenIds
      && finished == v.finished && numCachedTokens == v.numCachedTokens
      && HasAll(outputs, v.outputs)
    }
  }

  ghost predicate HasAll(objects: seq<CompletionOutput>, vs: seq<Completion>)
    reads objects
  {
    |objects| == |vs| && forall i :: 0 <= i < |vs| ==> objects[i].Value() == vs[i]
  }

  /** Every object carries its position. */
  ghost predicate InPlace(s: seq<CompletionOutput>)
    reads s
  {
    forall i :: 0 <= i < |s| ==> s[i].index == i
  }

  class SequenceGroup {
    const requestId: string
    const prompt: Option<string>
    const promptTokenIds: seq<int>
    var cached: RequestOutput?

    ghost predicate Valid()
      reads this, cached, Objects()
    {
      cached != null ==> NoDup(cached.outputs) && InPlace(cached.outputs)
    }

    /** `from_seq_group` without reuse. */
    method Fresh(c: Call) returns (r: RequestOutput?)
      ensures r == null <==> c.finalOnly && !c.finished
      ensures r != null ==> fresh(r) && r.Has(Expected(this, c))
      ensures r != null ==> forall i :: 0 <= i < |r.outputs| ==> fresh(r.outputs[i])
    {
      if c.finalOnly && !c.finished {
        return null;
      }
      var outputs: seq<CompletionOutput>, includePrompt, numCachedTokens := [], true, None;
      for i := 0 to |c.seqs|
        invariant |outputs| == i && forall k :: 0 <= k < i ==>
                    fresh(outputs[k]) && outputs[k].Value() == ExpectedAt(c, k)
        invariant includePrompt <==> IncludesPrompt(c, i)
        invariant numCachedTokens == if i == 0 then None else Some(c.seqs[i - 1].numCachedTokens)
      {
        var s := c.seqs[i];
        numCachedTokens := Some(s.numCachedTokens);
        if c.delta && includePrompt && s.outputLen > |Tokens(s.tokenIds)| {
          includePrompt := false;
        }
        var o := new CompletionOutput(Completion(i, s.text, Tokens(s.tokenIds),
                                                 if c.includeLogprobs then Some(s.cumulative) else None,
                                                 Logprobs(c, s), s.finishReason, s.stopReason));
        outputs := outputs + [o];
      }
      r := new RequestOutput(requestId, if includePrompt then prompt else None,
                             if includePrompt then Some(promptTokenIds) else None, outputs, c.finished,
                             numCachedTokens);
    }

    /** The objects of earlier calls. */
    ghost function Objects(): set<CompletionOutput>
      reads this, cached
    {
      if cached == null then {} else set o | o in cached.outputs
    }

    /** `from_seq_group` with reuse: the first sequences get the objects of earlier calls. */
    method Cached(c: Call) returns (r: RequestOutput?)
      requires Valid()
      modifies this, cached, Objects()
      ensures Valid() && (cached == old(cached) || fresh(cached)) && fresh(Objects() - old(Objects()))
      ensures r == null <==> c.finalOnly && !c.finished
      ensures r != null ==> r == cached && r.Has(Expected(this, c))
      ensures r != null && old(cached) != null ==>
                && r == old(cached)
                && forall i :: 0 <= i < |r.outputs| && i < |old(cached.outputs)| ==>
                     r.outputs[i] == old(cached.outputs)[i]
    {
      if c.finalOnly && !c.finished {
        return null;
      }
      if cached == null {
        cached := new RequestOutput("", None, Some([]), [], false, None);
      }
      hide ExpectedAt, Logprobs, Tokens;
      var outputs := Collect(cached.outputs, c);
      var includePrompt, numCachedTokens := true, None;
      for i := 0 to |c.seqs|
        invariant includePrompt <==> IncludesPrompt(c, i)
        invariant numCachedTokens == if i == 0 then None else Some(c.seqs[i - 1].numCachedTokens)
      {
        var s := c.seqs[i];
        numCachedTokens := Some(s.numCachedTokens);
        if c.delta && includePrompt && s.outputLen > |Tokens(s.tokenIds)| {
          includePrompt := false;
        }
      }
      cached.Reset(requestId, if includePrompt then prompt else None,
                   if includePrompt then Some(promptTokenIds) else None, outputs, c.finished, numCachedTokens);
      r := cached;
    }

    /** Any run of calls, with sequences coming and going: at every return the object of
        the reusing path holds what a new object would. */
    method Run(calls: seq<Call>) returns (shown: seq<bool>)
      requires Valid()
      modifies this, cached, Objects()
      ensures Valid() && |shown| == |calls|
      ensures forall k :: 0 <= k < |calls| ==> (shown[k] <==> calls[k].finished || !calls[k].finalOnly)
      ensures |calls| > 0 && shown[|calls| - 1] ==> cached != null && cached.Has(Expected(this, calls[|calls| - 1]))
    {
      hide Expected;
      shown := [];
      for k := 0 to |calls|
        invariant Valid() && |shown| == k && (cached == old(cached) || fresh(cached))
        invariant fresh(Objects() - old(Objects()))
        invariant forall j :: 0 <= j < k ==> (shown[j] <==> calls[j].finished || !calls[j].finalOnly)
        invariant k > 0 && shown[k - 1] ==> cached != null && cached.Has(Expected(this, calls[k - 1]))
      {
        var r := Cached(calls[k]);
        shown := shown + [r != null];
      }
    }
  }

  /** The loop over the sequences: reuses the objects in `objects` and makes more where
      there are too few. */
  method Collect(objects: seq<CompletionOutput>, c: Call) returns (outputs: seq<CompletionOutput>)
    requires NoDup(objects) && InPlace(objects)
    modifies objects
    ensures |outputs| == |c.seqs| && NoDup(outputs) && InPlace(outputs)
    ensures forall k :: 0 <= k < |outputs| ==> if k < |objects| then outputs[k] == objects[k] else fresh(outputs[k])
    ensures forall k :: 0 <= k < |outputs| ==> outputs[k].Value() == ExpectedAt(c, k)
  {
    hide Logprobs, Tokens;
    outputs := [];
    for i := 0 to |c.seqs|
      invariant |outputs| == i && NoDup(outputs)
      invariant forall k :: 0 <= k < i ==> if k < |objects| then outputs[k] == objects[k] else fresh(outputs[k])
      invariant forall k :: 0 <= k < i ==> outputs[k].Value() == ExpectedAt(c, k)
      invariant forall k :: i <= k < |objects| ==> objects[k].index == k
    {
      var output;
      if i >= |objects| {
        output := new CompletionOutput(Completion(i, "", [], None, None, None, None));
      } else {
        output := objects[i];
      }
      assert output.index == i;
      output.Refresh(c, c.seqs[i]);
      outputs := outputs + [output];
    }
  }
}
