/** vllm/sampling_params.py: the normalisation of sampling parameters and the updates from
    a model's generation config.  Probabilities and penalties are reals. */
module SamplingParameters {
  import opened Options

  /** What the caller may pass for `stop`. */
  datatype Stop = NoStop | OneStop(s: string) | Stops(list: seq<string>)

  datatype OutputKind = Cumulative | Delta | FinalOnly

  datatype Params = Params(
    n: int, bestOf: Option<int>, realN: Option<int>,
    presencePenalty: real, frequencyPenalty: real, repetitionPenalty: real,
    temperature: real, topP: real, topK: int, minP: real, seed: Option<int>,
    stop: Stop, stopTokenIds: Option<seq<int>>, badWords: Option<seq<string>>,
    ignoreEos: bool, maxTokens: Option<int>, minTokens: int,
    logprobs: Option<int>, promptLogprobs: Option<int>,
    detokenize: bool, includeStopStrInOutput: bool, truncatePromptTokens: Option<int>, outputKind: OutputKind,
    outputTextBufferLength: int, allStopTokenIds: set<int>)

  datatype Error =
    | BestOfTooSmall | BadN | BadPresencePenalty | BadFrequencyPenalty | BadRepetitionPenalty | NegativeTemperature
    | BadTopP | BadTopK | BadMinP | BadMaxTokens | BadMinTokens | BadLogprobs | BadPromptLogprobs | BadTruncation
    | EmptyStopString | StopWithoutDetokenize | BestOfWithDelta | GreedyWithSeveral

  datatype Result<T> = Ok(value: T) | Err(error: Error)

  const SAMPLING_EPS: real := 0.00001
  const MAX_TEMP: real := 0.01

  /** Python's truth value of an optional number. */
  predicate Truthy(x: Option<int>) {
    x.Some? && x.value != 0
  }

  function StopList(s: Stop): seq<string> {
    match s
    case NoStop => []
    case OneStop(t) => [t]
    case Stops(l) => l
  }

  function MaxLength(l: seq<string>): (m: nat)
    ensures forall i :: 0 <= i < |l| ==> |l[i]| <= m
    ensures l != [] ==> exists i :: 0 <= i < |l| && |l[i]| == m
  {
    if l == [] then 0
    else
      var m := MaxLength(l[..|l| - 1]);
      var k := |l| - 1;
      assert forall i :: 0 <= i < k ==> |l[i]| <= m by {
        assert forall i :: 0 <= i < k ==> l[..k][i] == l[i];
      }
      if k > 0 && m > |l[k]| then
        var i :| 0 <= i < k && |l[..k][i]| == m;
        assert |l[i]| == m;
        m
      else
        assert k > 0 || m == 0;
        |l[k]|
  }

  /** `__post_init__`, up to the checks: fills in defaults and derived values. */
  function Filled(p: Params): Params {
    var q := if Truthy(p.bestOf) && !Truthy(p.realN) then p.(realN := Some(p.n), n := p.bestOf.value) else p;
    var stops := StopList(p.stop);
    q.(temperature := if 0.0 < p.temperature < MAX_TEMP then MAX_TEMP else p.temperature,
       seed := if p.seed == Some(-1) then None else p.seed,
       stop := Stops(stops),
       stopTokenIds := if p.stopTokenIds.None? then Some([]) else p.stopTokenIds,
       badWords := if p.badWords.None? then Some([]) else p.badWords,
       outputTextBufferLength :=
         if stops != [] && !p.includeStopStrInOutput then MaxLength(stops) - 1 else p.outputTextBufferLength)
  }

  /** `_verify_args`: the first check that fails. */
  function VerifyArgs(p: Params): Option<Error> {
    if p.n < 1 then Some(BadN)
    else if !(-2.0 <= p.presencePenalty <= 2.0) then Some(BadPresencePenalty)
    else if !(-2.0 <= p.frequencyPenalty <= 2.0) then Some(BadFrequencyPenalty)
    else if !(0.0 < p.repetitionPenalty <= 2.0) then Some(BadRepetitionPenalty)
    else if p.temperature < 0.0 then Some(NegativeTemperature)
    else if !(0.0 < p.topP <= 1.0) then Some(BadTopP)
    else if p.topK < -1 || p.topK == 0 then Some(BadTopK)
    else if !(0.0 <= p.minP <= 1.0) then Some(BadMinP)
    else if p.maxTokens.Some? && p.maxTokens.value < 1 then Some(BadMaxTokens)
    else if p.minTokens < 0 then Some(BadMinTokens)
    else if p.maxTokens.Some? && p.minTokens > p.maxTokens.value then Some(BadMinTokens)
    else if p.logprobs.Some? && p.logprobs.value < 0 then Some(BadLogprobs)
    else if p.promptLogprobs.Some? && p.promptLogprobs.value < 0 then Some(BadPromptLogprobs)
    else if p.truncatePromptTokens.Some? && p.truncatePromptTokens.value < 1 then Some(BadTruncation)
    else if "" in StopList(p.stop) then Some(EmptyStopString)
    else if StopList(p.stop) != [] && !p.detokenize then Some(StopWithoutDetokenize)
    else if p.bestOf != p.realN && p.outputKind.Delta? then Some(BestOfWithDelta)
    else None
  }

  /** The whole of `__post_init__`. */
  function PostInit(p: Params): Result<Params> {
    if Truthy(p.bestOf) && p.bestOf.value < p.n then Err(BestOfTooSmall)
    else
      var q := Filled(p);
      var e := VerifyArgs(q);
      if e.Some? then Err(e.value)
      else if q.temperature < SAMPLING_EPS && q.n > 1 then Err(GreedyWithSeveral)
      else
        var g := if q.temperature < SAMPLING_EPS then q.(topP := 1.0, topK := -1, minP := 0.0) else q;
        Ok(g.(allStopTokenIds := set t | t in g.stopTokenIds.value))
  }

  /** How many sequences are sampled, and how many are returned if that was recorded. */
  ghost predicate Counted(p: Params, n: int, realN: Option<int>) {
    if Truthy(p.bestOf) && !Truthy(p.realN) then Some(n) == p.bestOf && realN == Some(p.n)
    else n == p.n && realN == p.realN
  }

  /** Exactly which parameters are accepted. */
  lemma AcceptedIff(p: Params, n: int, realN: Option<int>)
    requires Counted(p, n, realN)
    ensures PostInit(p).Ok? <==>
            && (Truthy(p.bestOf) ==> p.n <= p.bestOf.value) && 1 <= n && (p.temperature == 0.0 ==> n == 1)
            && -2.0 <= p.presencePenalty <= 2.0 && -2.0 <= p.frequencyPenalty <= 2.0
            && 0.0 < p.repetitionPenalty <= 2.0 && 0.0 <= p.temperature
            && 0.0 < p.topP <= 1.0 && (p.topK == -1 || 1 <= p.topK) && 0.0 <= p.minP <= 1.0
            && 0 <= p.minTokens && (p.maxTokens.Some? ==> 1 <= p.maxTokens.value && p.minTokens <= p.maxTokens.value)
            && (p.logprobs.Some? ==> 0 <= p.logprobs.value) && (p.promptLogprobs.Some? ==> 0 <= p.promptLogprobs.value)
            && (p.truncatePromptTokens.Some? ==> 1 <= p.truncatePromptTokens.value)
            && "" !in StopList(p.stop) && (StopList(p.stop) != [] ==> p.detokenize)
            && (p.outputKind.Delta? ==> p.bestOf == realN)
  {
    hide MaxLength, VerifyArgs;
    VerifiedIff(Filled(p));
  }

  lemma VerifiedIff(p: Params)
    ensures VerifyArgs(p) == None <==>
            && 1 <= p.n && -2.0 <= p.presencePenalty <= 2.0 && -2.0 <= p.frequencyPenalty <= 2.0
            && 0.0 < p.repetitionPenalty <= 2.0 && 0.0 <= p.temperature
            && 0.0 < p.topP <= 1.0 && (p.topK == -1 || 1 <= p.topK) && 0.0 <= p.minP <= 1.0
            && 0 <= p.minTokens && (p.maxTokens.Some? ==> 1 <= p.maxTokens.value && p.minTokens <= p.maxTokens.value)
            && (p.logprobs.Some? ==> 0 <= p.logprobs.value) && (p.promptLogprobs.Some? ==> 0 <= p.promptLogprobs.value)
            && (p.truncatePromptTokens.Some? ==> 1 <= p.truncatePromptTokens.value)
            && "" !in StopList(p.stop) && (StopList(p.stop) != [] ==> p.detokenize)
            && (p.outputKind.Delta? ==> p.bestOf == p.realN)
  {
  }

  /** What becomes of each field: all others stay as they are. */
  lemma PostInitFields(p: Params)
    requires PostInit(p).Ok?
    ensures var q := PostInit(p).value;
            && Counted(p, q.n, q.realN)
            && q.seed == (if p.seed == Some(-1) then None else p.seed)
            && q.temperature == (if 0.0 < p.temperature < 0.01 then 0.01 else p.temperature)
            && q.stopTokenIds == Some(if p.stopTokenIds.Some? then p.stopTokenIds.value else [])
            && q.badWords == Some(if p.badWords.Some? then p.badWords.value else [])
            && (p.temperature != 0.0 ==> q.topP == p.topP && q.topK == p.topK && q.minP == p.minP)
            && (forall t :: t in q.allStopTokenIds <==> t in q.stopTokenIds.value)
            && (StopList(p.stop) == [] || p.includeStopStrInOutput ==>
                  q.outputTextBufferLength == p.outputTextBufferLength)
            && p.(n := q.n, realN := q.realN, temperature := q.temperature, topP := q.topP, topK := q.topK,
                  minP := q.minP, seed := q.seed, stop := q.stop, stopTokenIds := q.stopTokenIds,
                  badWords := q.badWords, outputTextBufferLength := q.outputTextBufferLength,
                  allStopTokenIds := q.allStopTokenIds) == q
  {
    hide MaxLength;
  }

  /** The stop strings as a list, and the length of the longest. */
  lemma StopListIs(s: Stop)
    ensures s.NoStop? ==> StopList(s) == []
    ensures forall t: string :: s == OneStop(t) ==> StopList(s) == [t]
    ensures forall l: seq<string> :: s == Stops(l) ==> StopList(s) == l
  {
  }

  predicate IsGreedy(p: Params) {
    p.temperature < SAMPLING_EPS
  }

  /** A second pass succeeds and changes nothing, except for parameters with `n` zero whose
      `best_of` was moved into `n` by the first pass: there the recorded number of results
      counts as unset and is overwritten. */
  lemma PostInitIdempotentIff(p: Params)
    requires PostInit(p).Ok?
    ensures var q := PostInit(p).value;
            && PostInit(q).Ok?
            && (PostInit(q).value == q <==> !(Truthy(p.bestOf) && !Truthy(p.realN) && p.n == 0))
  {
    hide VerifyArgs, Filled, MaxLength;
    var q, f := PostInit(p).value, Filled(p);
    VerifyAgain(f, q);
    FilledAgain(p, f, q);
  }

  /** The checks pass again after the values for greedy sampling have been set. */
  lemma VerifyAgain(f: Params, q: Params)
    requires VerifyArgs(f) == None
    requires q == f.(topP := q.topP, topK := q.topK, minP := q.minP, allStopTokenIds := q.allStopTokenIds)
    requires || (q.topP == f.topP && q.topK == f.topK && q.minP == f.minP)
             || (q.topP == 1.0 && q.topK == -1 && q.minP == 0.0)
    ensures VerifyArgs(q) == None && VerifyArgs(q.(realN := q.bestOf)) == None
  {
  }

  /** What a second pass fills in. */
  lemma FilledAgain(p: Params, f: Params, q: Params)
    requires f == Filled(p)
    requires q == f.(topP := q.topP, topK := q.topK, minP := q.minP, allStopTokenIds := q.allStopTokenIds)
    ensures Truthy(q.bestOf) && !(Truthy(p.bestOf) && p.bestOf.value < p.n) && !Truthy(p.realN) ==>
              q.bestOf.value >= q.n
    ensures var lost := Truthy(p.bestOf) && !Truthy(p.realN) && p.n == 0;
            Filled(q) == if lost then q.(realN := q.bestOf) else q
    ensures p.bestOf == q.bestOf && (Truthy(p.realN) || !Truthy(p.bestOf) ==> q.n == p.n)
    ensures Truthy(p.bestOf) && !Truthy(p.realN) ==> q.realN == Some(p.n)
  {
    hide MaxLength;
    FilledOnce(p);
  }

  lemma FilledOnce(p: Params)
    ensures var f := Filled(p);
            && StopList(f.stop) == StopList(p.stop) && f.seed != Some(-1)
            && !(0.0 < f.temperature < MAX_TEMP) && f.stopTokenIds.Some? && f.badWords.Some?
  {
  }

  /** The concrete parameters on which a second pass makes a difference. */
  lemma PostInitTwiceDiffers(p: Params)
    requires p == Params(0, Some(2), None, 0.0, 0.0, 1.0, 1.0, 1.0, -1, 0.0, None, NoStop, None, None, false, Some(16),
                         0,
                         None, None, true, false, None, Cumulative, 0, {})
    ensures PostInit(p).Ok? && PostInit(PostInit(p).value).Ok?
    ensures PostInit(p).value.realN == Some(0) && PostInit(PostInit(p).value).value.realN == Some(2)
  {
  }

  /** What a successful `__post_init__` guarantees: sampling is greedy exactly when the
      temperature is zero, then there is one sequence and nothing restricts the choice;
      `n` counts the sequences to sample and the number the caller asked for is kept. */
  lemma PostInitMeans(p: Params)
    requires PostInit(p).Ok?
    ensures var q := PostInit(p).value;
            && (IsGreedy(q) <==> q.temperature == 0.0) && (q.temperature == 0.0 <==> p.temperature == 0.0)
            && (IsGreedy(q) ==> q.n == 1 && q.topP == 1.0 && q.topK == -1 && q.minP == 0.0)
            && (q.temperature == p.temperature || (0.0 < p.temperature < q.temperature == MAX_TEMP))
            && q.n >= 1
            && (Truthy(p.bestOf) && !Truthy(p.realN) ==> q.n == p.bestOf.value >= p.n && q.realN == Some(p.n))
            && q.stop == Stops(StopList(p.stop)) && "" !in StopList(q.stop)
            && (StopList(q.stop) != [] && !q.includeStopStrInOutput ==>
                  q.outputTextBufferLength + 1 == MaxLength(StopList(q.stop)) > 0)
  {
    var stops := StopList(p.stop);
    if stops != [] {
      assert stops[0] in stops;
      assert stops[0] != "";
    }
  }

  // ----- updates from the generation config

  ghost predicate StopsCovered(p: Params) {
    p.stopTokenIds.Some? && forall t :: t in p.stopTokenIds.value ==> t in p.allStopTokenIds
  }

  lemma PostInitCovers(p: Params)
    requires PostInit(p).Ok?
    ensures StopsCovered(PostInit(p).value)
  {
  }

  /** The elements of a list without one of them and without repetition, then those of
      another list: `list` of the set that holds them. */
  method Union(a: seq<int>, dropped: Option<int>, b: seq<int>) returns (l: seq<int>)
    ensures forall x :: x in l <==> (x in a && Some(x) != dropped) || x in b
    ensures forall i, j :: 0 <= i < j < |l| ==> l[i] != l[j]
  {
    l := [];
    for k := 0 to |a|
      invariant forall x :: x in l <==> x in a[..k] && Some(x) != dropped
      invariant forall i, j :: 0 <= i < j < |l| ==> l[i] != l[j]
    {
      assert a[..k + 1] == a[..k] + [a[k]];
      if a[k] !in l && Some(a[k]) != dropped {
        l := l + [a[k]];
      }
    }
    assert a[..|a|] == a;
    for k := 0 to |b|
      invariant forall x :: x in l <==> (x in a && Some(x) != dropped) || x in b[..k]
      invariant forall i, j :: 0 <= i < j < |l| ==> l[i] != l[j]
    {
      assert b[..k + 1] == b[..k] + [b[k]];
      if b[k] !in l {
        l := l + [b[k]];
      }
    }
    assert b[..|b|] == b;
  }

  /** The end tokens of the config besides the model's own. */
  ghost predicate Extra(configEos: Option<seq<int>>, modelEos: Option<int>, t: int) {
    configEos.Some? && t in configEos.value && Some(t) != modelEos
  }

  class SamplingParams {
    var fields: Params

    constructor (fields: Params)
      ensures this.fields == fields
    {
      this.fields := fields;
    }

    /** `update_from_generation_config`.  The model's own end token stops generation by
        other means and is not added to the stop tokens; the other end tokens of the
        config are, unless end tokens are ignored. */
    method UpdateFromGenerationConfig(configEos: Option<seq<int>>, modelEos: Option<int>)
      requires StopsCovered(fields)
      modifies this
      ensures StopsCovered(fields)
      ensures forall t :: t in fields.allStopTokenIds <==>
                t in old(fields).allStopTokenIds || Some(t) == modelEos || Extra(configEos, modelEos, t)
      ensures old(fields).allStopTokenIds <= fields.allStopTokenIds
      ensures modelEos.Some? ==> modelEos.value in fields.allStopTokenIds
      ensures forall t :: t in fields.stopTokenIds.value <==>
                t in old(fields).stopTokenIds.value || (!fields.ignoreEos && Extra(configEos, modelEos, t))
      ensures fields == old(fields).(stopTokenIds := fields.stopTokenIds, allStopTokenIds := fields.allStopTokenIds)
    {
      var all, stop := fields.allStopTokenIds, fields.stopTokenIds.value;
      if modelEos.Some? {
        all := all + {modelEos.value};
      }
      if configEos.Some? {
        var eosIds := Union(configEos.value, modelEos, []);
        if eosIds != [] {
          all := all + set t | t in eosIds;
          if !fields.ignoreEos {
            stop := Union(eosIds, None, stop);
          }
        }
      }
      fields := fields.(stopTokenIds := Some(stop), allStopTokenIds := all);
    }

    /** Any run of updates, with whatever configs: the stop tokens stay among all stop
        tokens, and none is ever lost. */
    method Updates(configs: seq<(Option<seq<int>>, Option<int>)>)
      requires StopsCovered(fields)
      modifies this
      ensures StopsCovered(fields)
      ensures old(fields).allStopTokenIds <= fields.allStopTokenIds
      ensures forall t :: t in old(fields).stopTokenIds.value ==> t in fields.stopTokenIds.value
      ensures forall i :: 0 <= i < |configs| && configs[i].1.Some? ==> configs[i].1.value in fields.allStopTokenIds
    {
      for i := 0 to |configs|
        invariant StopsCovered(fields) && old(fields).allStopTokenIds <= fields.allStopTokenIds
        invariant forall t :: t in old(fields).stopTokenIds.value ==> t in fields.stopTokenIds.value
        invariant forall k :: 0 <= k < i && configs[k].1.Some? ==> configs[k].1.value in fields.allStopTokenIds
      {
        UpdateFromGenerationConfig(configs[i].0, configs[i].1);
      }
    }
  }
}
