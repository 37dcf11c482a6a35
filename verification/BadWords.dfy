/** vllm/logits_process.py: the logits processor that keeps bad words from being
    generated, and the construction of its word list. */
module BadWords {
  import opened Sequences


  /** A logit.  Adding minus infinity and plus infinity gives NaN. */
  datatype Logit = NegInf | Fin(value: real) | PosInf | NaN {
    function Add(other: Logit): Logit {
      if NaN? || other.NaN? then NaN
      else if (NegInf? && other.PosInf?) || (PosInf? && other.NegInf?) then NaN
      else if NegInf? || other.NegInf? then NegInf
      else if PosInf? || other.PosInf? then PosInf
      else Fin(value + other.value)
    }

    /** A sampler picks neither a token of probability zero nor an undefined one. */
    predicate Selectable() {
      Fin? || PosInf?
    }
  }

  type Word = seq<int>

  const NEUTRAL := Fin(0.0)

  // ----- the masking rule

  /** Choosing `token` after `past` would complete the word `w`. */
  ghost predicate CompletesWord(w: Word, past: seq<int>, token: int) {
    && 1 <= |w| <= |past| + 1
    && w[|w| - 1] == token
    && past[|past| + 1 - |w|..] == w[..|w| - 1]
  }

  ghost predicate Completes(words: seq<Word>, past: seq<int>, token: int) {
    exists w :: w in words && CompletesWord(w, past, token)
  }

  ghost function Masked(logit: Logit): Logit {
    if logit.NegInf? || logit.Fin? then NegInf else NaN
  }

  /** The scores the processor promises: a token that would complete a bad word is
      masked and every other logit is unchanged. */
  ghost function Processed(words: seq<Word>, past: seq<int>, logits: seq<Logit>): (r: seq<Logit>)
    ensures |r| == |logits|
  {
    seq(|logits|, i requires 0 <= i < |logits| =>
          if Completes(words, past, i) then Masked(logits[i]) else logits[i])
  }

  // ----- the processor object

  datatype Outcome = Scores(logits: array<Logit>) | ValueError(invalid: seq<int>) | IndexError

  ghost predicate InVocabulary(words: seq<Word>, vocab: nat) {
    forall w :: w in words ==> AllBelow(w, vocab)
  }

  /** The bias of one-token words, computed from the word list. */
  ghost function WordBias(words: seq<Word>, vocab: nat): (r: seq<Logit>)
    ensures |r| == vocab
  {
    seq(vocab, i requires 0 <= i < vocab => if [i] in words then NegInf else NEUTRAL)
  }

  /** The token ids of `words` outside the vocabulary, in order. */
  ghost function InvalidIds(words: seq<Word>, vocab: nat): seq<int> {
    if words == [] then []
    else InvalidIds(words[..|words| - 1], vocab) + InvalidIn(words[|words| - 1], vocab)
  }

  ghost function InvalidIn(w: Word, vocab: nat): seq<int> {
    if w == [] then []
    else InvalidIn(w[..|w| - 1], vocab) +
         if w[|w| - 1] < 0 || w[|w| - 1] >= vocab then [w[|w| - 1]] else []
  }

  ghost predicate AllBelow(w: Word, vocab: nat) {
    forall t :: t in w ==> 0 <= t < vocab
  }

  lemma {:induction false} NoInvalidIn(w: Word, vocab: nat)
    ensures InvalidIn(w, vocab) == [] <==> AllBelow(w, vocab)
  {
    if w != [] {
      var r, x := w[..|w| - 1], w[|w| - 1];
      NoInvalidIn(r, vocab);
      AllBelowSplit(r, x, vocab);
      assert w == r + [x];
      assert |InvalidIn(w, vocab)| == |InvalidIn(r, vocab)| + if x < 0 || x >= vocab then 1 else 0;
    }
  }

  lemma AllBelowSplit(r: Word, x: int, vocab: nat)
    ensures AllBelow(r + [x], vocab) <==> AllBelow(r, vocab) && 0 <= x < vocab
  {
    var w := r + [x];
    assert forall t :: t in r ==> t in w;
    assert w[|r|] == x && x in w;
  }

  lemma {:induction false} NoInvalidIds(words: seq<Word>, vocab: nat)
    ensures InvalidIds(words, vocab) == [] <==> InVocabulary(words, vocab)
  {
    if words != [] {
      NoInvalidIds(words[..|words| - 1], vocab);
      NoInvalidIn(words[|words| - 1], vocab);
      assert words == words[..|words| - 1] + [words[|words| - 1]];
    }
  }

  class NoBadWordsLogitsProcessor {
    const badWords: seq<Word>
    var wordBias: array?<Logit>

    /** The cached bias is absent or what the word list gives. */
    ghost predicate Valid()
      reads this, wordBias
    {
      wordBias != null ==>
        && InVocabulary(badWords, wordBias.Length)
        && wordBias[..] == WordBias(badWords, wordBias.Length)
    }

    constructor (badWords: seq<Word>)
      ensures Valid() && this.badWords == badWords && wordBias == null
    {
      this.badWords := badWords;
      wordBias := null;
    }

    method CheckTokenIdsBounds(vocab: nat) returns (invalid: seq<int>)
      ensures invalid == InvalidIds(badWords, vocab)
    {
      invalid := [];
      for i := 0 to |badWords|
        invariant invalid == InvalidIds(badWords[..i], vocab)
      {
        var w := badWords[i];
        ghost var before := invalid;
        for j := 0 to |w|
          invariant invalid == before + InvalidIn(w[..j], vocab)
        {
          if w[j] < 0 || w[j] >= vocab {
            invalid := invalid + [w[j]];
          }
          assert w[..j + 1][..j] == w[..j];
        }
        assert w[..|w|] == w;
        assert badWords[..i + 1][..i] == badWords[..i];
      }
      assert badWords[..|badWords|] == badWords;
    }

    /** Fills the cache, or reports the ids outside the vocabulary and leaves it empty. */
    method InitWordBias(vocab: nat) returns (invalid: seq<int>)
      requires Valid() && wordBias == null
      modifies this
      ensures Valid()
      ensures invalid == [] <==> InVocabulary(badWords, vocab)
      ensures invalid == InvalidIds(badWords, vocab)
      ensures if invalid == [] then wordBias != null && fresh(wordBias) && wordBias.Length == vocab
              else wordBias == null
    {
      invalid := CheckTokenIdsBounds(vocab);
      NoInvalidIds(badWords, vocab);
      if invalid != [] {
        return;
      }
      var bias := new Logit[vocab](_ => NEUTRAL);
      for i := 0 to |badWords|
        invariant forall k :: 0 <= k < vocab ==> bias[k] == if [k] in badWords[..i] then NegInf else NEUTRAL
      {
        var w := badWords[i];
        assert badWords[..i + 1] == badWords[..i] + [w];
        if |w| == 1 {
          assert AllBelow(w, vocab) && w[0] in w;
          assert w == [w[0]];
          bias[w[0]] := NegInf;
        }
      }
      assert badWords[..|badWords|] == badWords;
      wordBias := bias;
      assert wordBias[..] == WordBias(badWords, vocab);
    }

    /** The bias of longer words: a token is masked when it would complete one of them. */
    method LastTokenBias(past: seq<int>, vocab: nat) returns (ok: bool, bias: array<Logit>)
      requires InVocabulary(badWords, vocab)
      ensures ok <==> [] !in badWords
      ensures fresh(bias) && bias.Length == vocab
      ensures ok ==> forall k :: 0 <= k < vocab ==>
                bias[k] == if CompletesLong(badWords, past, k) then NegInf else NEUTRAL
    {
      bias := new Logit[vocab](_ => NEUTRAL);
      for i := 0 to |badWords|
        invariant [] !in badWords[..i]
        invariant forall k :: 0 <= k < vocab ==>
                    bias[k] == if CompletesLong(badWords[..i], past, k) then NegInf else NEUTRAL
      {
        var w := badWords[i];
        assert badWords[..i + 1] == badWords[..i] + [w];
        CompletesLongSplit(badWords[..i], w, past);
        if |w| == 1 || |w| > |past| + 1 {
          continue;
        }
        if w == [] {
          return false, bias;
        }
        var prefixLength := |w| - 1;
        var lastTokenId := w[|w| - 1];
        assert AllBelow(w, vocab) && lastTokenId in w;
        var isMatch := past[|past| - prefixLength..] == w[..prefixLength];
        bias[lastTokenId] := bias[lastTokenId].Add(if isMatch then NegInf else NEUTRAL);
      }
      assert badWords[..|badWords|] == badWords;
      ok := true;
    }

    /** `__call__`.  The result is a new array; the given one is left alone. */
    method Call(past: seq<int>, logits: array<Logit>) returns (r: Outcome)
      requires Valid()
      requires wordBias != null ==> wordBias.Length == logits.Length
      modifies this
      ensures Valid()
      ensures old(wordBias) != null ==> wordBias == old(wordBias)
      ensures r.ValueError? <==> wordBias == null
      ensures r.ValueError? ==> r.invalid == InvalidIds(badWords, logits.Length) != []
      ensures r.IndexError? <==> wordBias != null && [] in badWords
      ensures r.Scores? ==> fresh(r.logits) && r.logits[..] == Processed(badWords, past, logits[..])
    {
      if wordBias == null {
        var invalid := InitWordBias(logits.Length);
        if invalid != [] {
          return ValueError(invalid);
        }
      }
      var vocab := logits.Length;
      var ok, lastTokenBias := LastTokenBias(past, vocab);
      if !ok {
        return IndexError;
      }
      var bias, out := wordBias, new Logit[vocab];
      for i := 0 to vocab
        modifies out
        invariant forall k :: 0 <= k < i ==> out[k] == logits[k].Add(bias[k]).Add(lastTokenBias[k])
      {
        out[i] := logits[i].Add(bias[i]).Add(lastTokenBias[i]);
      }
      AddBiases(badWords, past, logits[..], lastTokenBias[..], out[..]);
      r := Scores(out);
    }
  }

  /** Choosing `token` would complete a word of two or more tokens. */
  ghost predicate CompletesLong(words: seq<Word>, past: seq<int>, token: int) {
    exists w :: w in words && |w| > 1 && CompletesWord(w, past, token)
  }

  lemma CompletesLongSplit(words: seq<Word>, w: Word, past: seq<int>)
    ensures forall token :: CompletesLong(words + [w], past, token) <==>
              CompletesLong(words, past, token) || (|w| > 1 && CompletesWord(w, past, token))
  {
    assert forall x :: x in words + [w] <==> x in words || x == w;
  }

  /** Adding the two biases masks exactly the completing tokens. */
  lemma AddBiases(words: seq<Word>, past: seq<int>, logits: seq<Logit>, last: seq<Logit>, out: seq<Logit>)
    requires |logits| == |last| == |out|
    requires forall k :: 0 <= k < |last| ==>
               last[k] == if CompletesLong(words, past, k) then NegInf else NEUTRAL
    requires forall k :: 0 <= k < |out| ==>
               out[k] == logits[k].Add(WordBias(words, |logits|)[k]).Add(last[k])
    ensures out == Processed(words, past, logits)
  {
    hide Completes, CompletesLong;
    forall k | 0 <= k < |out|
      ensures out[k] == Processed(words, past, logits)[k]
    {
      ShortOrLong(words, past, k);
    }
  }

  lemma ShortOrLong(words: seq<Word>, past: seq<int>, token: int)
    ensures Completes(words, past, token) <==> [token] in words || CompletesLong(words, past, token)
  {
    if [token] in words {
      assert CompletesWord([token], past, token);
    }
    if Completes(words, past, token) {
      var w :| w in words && CompletesWord(w, past, token);
      if |w| == 1 {
        assert w == [token];
      }
    }
  }

  // ----- whole runs

  /** The word appears contiguously in the tokens. */
  ghost predicate Occurs(w: Word, tokens: seq<int>) {
    exists i :: OccursAt(tokens, w, i)
  }

  /** A run from no generated tokens: at each step the sampler is given raw logits,
      the processor scores them, and the sampler picks a selectable token. */
  ghost predicate SampledRun(words: seq<Word>, tokens: seq<int>, raw: seq<seq<Logit>>) {
    && |raw| == |tokens|
    && forall k :: 0 <= k < |tokens| ==> SampledStep(words, tokens, raw, k)
  }

  ghost predicate SampledStep(words: seq<Word>, tokens: seq<int>, raw: seq<seq<Logit>>, k: nat)
    requires k < |tokens| == |raw|
  {
    && 0 <= tokens[k] < |raw[k]|
    && Processed(words, tokens[..k], raw[k])[tokens[k]].Selectable()
  }

  /** A masked token is never selectable, and a token that is not masked is exactly as
      selectable as before. */
  lemma SelectableIff(words: seq<Word>, past: seq<int>, logits: seq<Logit>, token: int)
    requires 0 <= token < |logits|
    ensures Processed(words, past, logits)[token].Selectable() <==>
            (logits[token].Fin? || logits[token].PosInf?) && !Completes(words, past, token)
  {
  }

  /** An occurrence of a word is completed by the token at its end. */
  lemma OccurrenceIsCompletion(w: Word, tokens: seq<int>, i: nat)
    requires w != [] && i + |w| <= |tokens|
    ensures OccursAt(tokens, w, i) <==>
            CompletesWord(w, tokens[..i + |w| - 1], tokens[i + |w| - 1])
  {
    var k := i + |w| - 1;
    var past := tokens[..k];
    assert past[|past| + 1 - |w|..] == tokens[i..k];
    assert tokens[i..i + |w|] == tokens[i..k] + [tokens[k]];
    assert w == w[..|w| - 1] + [w[|w| - 1]];
    if OccursAt(tokens, w, i) {
      assert w[..|w| - 1] == tokens[i..i + |w|][..|w| - 1] == tokens[i..k];
      assert w[|w| - 1] == tokens[i..i + |w|][|w| - 1];
    }
  }

  /** Safety over whole runs: no bad word ever appears in what was generated. */
  lemma RunIsSafe(words: seq<Word>, tokens: seq<int>, raw: seq<seq<Logit>>)
    requires [] !in words && SampledRun(words, tokens, raw)
    ensures forall w :: w in words ==> !Occurs(w, tokens)
  {
    forall w, i: nat | w in words && OccursAt(tokens, w, i)
      ensures false
    {
      var k := i + |w| - 1;
      OccurrenceIsCompletion(w, tokens, i);
      assert SampledStep(words, tokens, raw, k);
      SelectableIff(words, tokens[..k], raw[k], tokens[k]);
    }
  }

  /** The rule forbids no more than it must: a sequence that contains no bad word can be
      generated, whenever the model itself finds each of its tokens selectable. */
  lemma SafeIsRun(words: seq<Word>, tokens: seq<int>, raw: seq<seq<Logit>>)
    requires |raw| == |tokens|
    requires forall k :: 0 <= k < |tokens| ==> 0 <= tokens[k] < |raw[k]| && raw[k][tokens[k]].Selectable()
    requires forall w :: w in words ==> !Occurs(w, tokens)
    ensures SampledRun(words, tokens, raw)
  {
    forall k | 0 <= k < |tokens|
      ensures SampledStep(words, tokens, raw, k)
    {
      forall w | w in words
        ensures !CompletesWord(w, tokens[..k], tokens[k])
      {
        if 1 <= |w| <= k + 1 {
          var i := k + 1 - |w|;
          assert !OccursAt(tokens, w, i);
          OccurrenceIsCompletion(w, tokens, i);
        }
      }
      SelectableIff(words, tokens[..k], raw[k], tokens[k]);
    }
  }

  // ----- the word list

  datatype Encoded = Ids(words: seq<Word>) | EncodingIndexError

  function LStrip(s: string, isSpace: char -> bool): string {
    if s != [] && isSpace(s[0]) then LStrip(s[1..], isSpace) else s
  }

  /** What is stripped are the spaces at the beginning, all of them and nothing else. */
  lemma {:induction false} LStripIs(s: string, isSpace: char -> bool) returns (k: nat)
    ensures k <= |s| && LStrip(s, isSpace) == s[k..] && (k < |s| ==> !isSpace(s[k]))
    ensures forall j :: 0 <= j < k ==> isSpace(s[j])
  {
    k := 0;
    if s != [] && isSpace(s[0]) {
      k := LStripIs(s[1..], isSpace);
      forall j | 0 <= j < k + 1
        ensures isSpace(s[j])
      {
        assert j > 0 ==> s[1..][j - 1] == s[j];
      }
      k := k + 1;
    }
  }

  /** The spaced spelling is listed only when it starts with another token and has the
      same number of tokens. */
  predicate SpacedIsNew(plain: Word, spaced: Word)
    requires plain != [] && spaced != []
  {
    spaced[0] != plain[0] && |spaced| == |plain|
  }

  ghost predicate Encodable(word: string, encode: string -> Word, isSpace: char -> bool) {
    encode(LStrip(word, isSpace)) != [] && encode(" " + LStrip(word, isSpace)) != []
  }

  /** What one bad word contributes to the list. */
  ghost function Spellings(word: string, encode: string -> Word, isSpace: char -> bool): seq<Word>
    requires Encodable(word, encode, isSpace)
  {
    var plain, spaced := encode(LStrip(word, isSpace)), encode(" " + LStrip(word, isSpace));
    if SpacedIsNew(plain, spaced) then [plain, spaced] else [plain]
  }

  /** `get_bad_words_logits_processors`, with the tokenizer as a parameter.  It fails
      exactly when a spelling encodes to no token at all; otherwise the list holds the
      spellings of every word and nothing else, and none of them is empty. */
  method BuildWordList(badWords: seq<string>, encode: string -> Word, isSpace: char -> bool) returns (r: Encoded)
    ensures r.EncodingIndexError? <==> exists word :: word in badWords && !Encodable(word, encode, isSpace)
    ensures r.Ids? ==>
              forall w :: w in r.words <==>
                exists word ::
                  word in badWords && Encodable(word, encode, isSpace) && w in Spellings(word, encode, isSpace)
    ensures r.Ids? ==> [] !in r.words
  {
    var ids: seq<Word> := [];
    for i := 0 to |badWords|
      invariant forall word :: word in badWords[..i] ==> Encodable(word, encode, isSpace)
      invariant forall w :: w in ids <==>
                  exists word ::
                    word in badWords[..i] && Encodable(word, encode, isSpace) && w in Spellings(word, encode, isSpace)
      invariant [] !in ids
    {
      ghost var before := ids;
      ghost var word := badWords[i];
      assert badWords[..i + 1] == badWords[..i] + [word];
      var stripped := LStrip(badWords[i], isSpace);
      ids := ids + [encode(stripped)];
      var spaced := encode(" " + stripped);
      if spaced == [] || ids[|ids| - 1] == [] {
        assert word in badWords && !Encodable(word, encode, isSpace);
        return EncodingIndexError;
      }
      if spaced[0] != ids[|ids| - 1][0] && |spaced| == |ids[|ids| - 1]| {
        ids := ids + [spaced];
      }
      assert ids == before + Spellings(word, encode, isSpace);
    }
    assert badWords[..|badWords|] == badWords;
    r := Ids(ids);
  }

  /** From the words themselves to the tokens: with the list the builder makes, no run
      contains the plain spelling of a bad word, nor its spaced spelling when that is a
      word of its own. */
  lemma BadWordsNeverGenerated(badWords: seq<string>, encode: string -> Word, isSpace: char -> bool,
                               list: seq<Word>, tokens: seq<int>, raw: seq<seq<Logit>>, word: string)
    requires word in badWords && Encodable(word, encode, isSpace) && [] !in list
    requires forall w :: w in list <==>
               exists x :: x in badWords && Encodable(x, encode, isSpace) && w in Spellings(x, encode, isSpace)
    requires SampledRun(list, tokens, raw)
    ensures var plain, spaced := encode(LStrip(word, isSpace)), encode(" " + LStrip(word, isSpace));
            && !Occurs(plain, tokens)
            && (SpacedIsNew(plain, spaced) ==> !Occurs(spaced, tokens))
  {
    RunIsSafe(list, tokens, raw);
    forall w | w in Spellings(word, encode, isSpace)
      ensures w in list
    {
    }
    var s := Spellings(word, encode, isSpace);
    assert s[0] in list && (|s| == 2 ==> s[1] in list);
  }

  /** Any spelling, listed or not, can be generated by a model that finds its tokens
      selectable exactly when no listed word occurs in it.  So a spaced spelling with another
      number of tokens, or the same first token, slips through unless it contains a listed
      word by chance. */
  lemma SpellingCanBeGeneratedIff(list: seq<Word>, spelling: Word, raw: seq<seq<Logit>>)
    requires [] !in list && |raw| == |spelling|
    requires forall k :: 0 <= k < |spelling| ==> 0 <= spelling[k] < |raw[k]| && raw[k][spelling[k]].Selectable()
    ensures SampledRun(list, spelling, raw) <==> forall w :: w in list ==> !Occurs(w, spelling)
  {
    hide SampledRun, Occurs;
    if SampledRun(list, spelling, raw) {
      RunIsSafe(list, spelling, raw);
    }
    if forall w :: w in list ==> !Occurs(w, spelling) {
      SafeIsRun(list, spelling, raw);
    }
  }

  /** A word of two tokens whose spaced spelling is a single one: only the first is listed,
      and the second is generated. */
  lemma SpacedSlipsThrough(encode: string -> Word, isSpace: char -> bool, logit: Logit)
    requires encode("ab") == [1, 2] && encode(" ab") == [0] && !isSpace('a') && logit.Selectable()
    ensures Encodable("ab", encode, isSpace) && Spellings("ab", encode, isSpace) == [[1, 2]]
    ensures SampledRun([[1, 2]], encode(" ab"), [[logit]])
  {
    assert LStrip("ab", isSpace) == "ab";
    assert " " + "ab" == " ab";
    SpellingCanBeGeneratedIff([[1, 2]], [0], [[logit]]);
  }
}
