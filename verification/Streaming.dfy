/** Streaming of generated text: the stop-string search of
    vllm/engine/output_processor/stop_checker.py and the text and token deltas of
    vllm/sequence.py, held together by the number of characters that
    vllm/sampling_params.py holds back.

    The promise is that the pieces sent to the client add up to the final text, although
    a stop string found later cuts the text short. */
module Streaming {
  import opened Sequences
  import opened SamplingParameters

  // ----- stop strings

  ghost predicate Contains(text: string, s: string) {
    exists i: nat :: OccursAt(text, s, i)
  }

  /** Python's `find` with a start index that may be negative, counted from the end. */
  method Find(text: string, s: string, start: int) returns (index: int)
    ensures index == -1 || (0 <= index && OccursAt(text, s, index) && First(text, start) <= index)
    ensures index == -1 ==> forall i: nat :: First(text, start) <= i ==> !OccursAt(text, s, i)
    ensures index != -1 ==> forall i: nat :: First(text, start) <= i < index ==> !OccursAt(text, s, i)
  {
    var k := First(text, start);
    while k + |s| <= |text|
      invariant First(text, start) <= k
      invariant forall i: nat :: First(text, start) <= i < k ==> !OccursAt(text, s, i)
    {
      if text[k..k + |s|] == s {
        return k;
      }
      k := k + 1;
    }
    return -1;
  }

  function First(text: string, start: int): nat {
    if start >= 0 then start else if |text| + start >= 0 then |text| + start else 0
  }

  datatype Match = NoMatch | Match(stop: string, truncateTo: int)

  ghost predicate StopFree(text: string, stops: seq<string>) {
    forall k :: 0 <= k < |stops| ==> !Contains(text, stops[k])
  }

  /** An occurrence of the stop string `s` that does not end before the old text does. */
  ghost predicate NewOccurrence(before: string, text: string, s: string, i: nat) {
    OccursAt(text, s, i) && i + |s| >= |before|
  }

  ghost predicate HasNew(before: string, text: string, s: string) {
    exists i: nat :: NewOccurrence(before, text, s, i)
  }

  /** The first stop string in the list that occurs anew is number `k`, first at `i`. */
  ghost predicate Found(before: string, text: string, stops: seq<string>, k: nat, i: nat) {
    && k < |stops| && NewOccurrence(before, text, stops[k], i)
    && (forall j: nat :: j < i ==> !NewOccurrence(before, text, stops[k], j))
    && (forall l :: 0 <= l < k ==> !HasNew(before, text, stops[l]))
  }

  ghost predicate NothingNew(before: string, text: string, stops: seq<string>) {
    forall k :: 0 <= k < |stops| ==> !HasNew(before, text, stops[k])
  }

  /** `check_stop_strings` after the text has grown from `before` to `text`: the first
      stop string in list order that occurs anew decides, at its first new occurrence;
      the text is cut at its beginning or, with `keepStop`, at its end unless that is the
      end of the text. */
  method CheckStopStrings(ghost before: string, text: string, newCharCount: nat, stops: seq<string>, keepStop: bool)
    returns (m: Match, ghost k: nat, ghost i: nat)
    requires |before| + newCharCount == |text| && before <= text
    requires forall k :: 0 <= k < |stops| ==> stops[k] != ""
    ensures m.NoMatch? <==> newCharCount == 0 || NothingNew(before, text, stops)
    ensures m.Match? ==> Found(before, text, stops, k, i) && m.stop == stops[k]
    ensures m.Match? ==>
              m.truncateTo == if !keepStop then i else if i + |m.stop| == |text| then -1 else i + |m.stop|
  {
    m, k, i := NoMatch, 0, 0;
    if newCharCount == 0 || stops == [] {
      return;
    }
    for n := 0 to |stops|
      invariant forall l :: 0 <= l < n ==> !HasNew(before, text, stops[l])
    {
      var s := stops[n];
      var index := Find(text, s, 0 - newCharCount - |s|);
      if index != -1 {
        k, i := n, index;
        assert NewOccurrence(before, text, s, index);
        if keepStop {
          index := index + |s|;
          if index >= |text| {
            m := Match(s, -1);
            return;
          }
        }
        m := Match(s, index);
        return;
      }
    }
  }

  /** While the old text is free of stop strings, the search in the new part finds one
      exactly when the text contains one. */
  lemma SearchIsComplete(before: string, text: string, stops: seq<string>)
    requires before <= text && StopFree(before, stops)
    ensures NothingNew(before, text, stops) <==> StopFree(text, stops)
  {
    forall k | 0 <= k < |stops|
      ensures HasNew(before, text, stops[k]) <==> Contains(text, stops[k])
    {
      var s := stops[k];
      assert !Contains(before, s);
      forall i: nat | OccursAt(text, s, i)
        ensures NewOccurrence(before, text, s, i)
      {
        if i + |s| < |before| {
          assert before[i..i + |s|] == text[i..i + |s|];
          assert OccursAt(before, s, i);
        }
      }
    }
  }

  /** The held-back characters protect what was sent.  If at least `buffer` characters of
      the old text were not sent, a cut at a stop string reaches what was sent exactly when
      all the rest was sent, the stop string has `buffer + 1` characters and the old text
      ended with it. */
  lemma HoldBack(before: string, text: string, s: string, i: nat, buffer: nat, sent: nat)
    requires NewOccurrence(before, text, s, i) && before <= text && |s| <= buffer + 1
    requires sent + buffer <= |before| || sent == 0
    ensures i < sent <==> 0 < sent == |before| - buffer && |s| == buffer + 1 && i + |s| == |before|
    ensures i < sent ==> OccursAt(before, s, |before| - |s|)
  {
    if i < sent {
      assert before[i..i + |s|] == text[i..i + |s|];
    }
  }

  /** So nothing that was sent is cut when the old text is free of stop strings. */
  lemma HoldBackStopFree(before: string, text: string, stops: seq<string>, s: string, i: nat, buffer: nat, sent: nat)
    requires NewOccurrence(before, text, s, i) && before <= text && |s| <= buffer + 1 && s in stops
    requires StopFree(before, stops)
    requires sent + buffer <= |before| || sent == 0
    ensures sent <= i
  {
    var k :| 0 <= k < |stops| && stops[k] == s;
    assert !Contains(before, stops[k]);
    HoldBack(before, text, s, i, buffer, sent);
  }

  // ----- one sequence

  /** The pieces consist of a token and its text each. */
  type Piece = (int, string)

  ghost function Texts(pieces: seq<Piece>, n: nat): string
    requires n <= |pieces|
  {
    if n == 0 then "" else Texts(pieces, n - 1) + pieces[n - 1].1
  }

  ghost function Tokens(pieces: seq<Piece>, n: nat): seq<int>
    requires n <= |pieces|
  {
    if n == 0 then [] else Tokens(pieces, n - 1) + [pieces[n - 1].0]
  }

  /** A piece with text that completes a stop string, or follows one, once enough tokens
      are there. */
  ghost predicate Stopping(before: string, piece: string, numTokens: nat, stops: seq<string>, minTokens: nat) {
    numTokens >= minTokens && piece != "" && !NothingNew(before, before + piece, stops)
  }

  /** The text is cut at `i`. */
  ghost predicate CutAt(before: string, text: string, stops: seq<string>, i: nat) {
    exists k: nat :: Found(before, text, stops, k, i)
  }

  /** The stop string that is found is a longest one, and the old text ended with it. */
  ghost predicate LongestEnded(before: string, text: string, stops: seq<string>) {
    exists k: nat, i: nat ::
      Found(before, text, stops, k, i) && |stops[k]| == Buffer(stops) + 1 && i + |stops[k]| == |before|
  }

  class Sequence {
    var outputText: string
    var outputTokenIds: seq<int>
    var finished: bool
    var lastOutputTextOffset: nat
    var lastOutputTokenIdsOffset: nat
    ghost var generated: string
    ghost var sentText: string
    ghost var sentTokens: seq<int>

    /** What was sent is the beginning of what was generated, as far as the offsets say. */
    ghost predicate Valid()
      reads this
    {
      && outputText <= generated && (!finished ==> outputText == generated)
      && lastOutputTextOffset <= |generated| && sentText == generated[..lastOutputTextOffset]
      && lastOutputTokenIdsOffset <= |outputTokenIds| && sentTokens == outputTokenIds[..lastOutputTokenIdsOffset]
    }

    constructor ()
      ensures Valid() && outputText == "" && outputTokenIds == [] && !finished && sentText == "" && sentTokens == []
    {
      outputText, outputTokenIds, finished, lastOutputTextOffset, lastOutputTokenIdsOffset := "", [], false, 0, 0;
      generated, sentText, sentTokens := "", "", [];
    }

    /** How much of the text may be shown. */
    function Visible(bufferLength: nat): nat
      reads this
    {
      if bufferLength == 0 || finished then |outputText|
      else if |outputText| >= bufferLength then |outputText| - bufferLength else 0
    }

    /** `get_output_text_to_return` in delta mode: the pieces add up to the visible text,
        or to more if more was sent before. */
    method TextDelta(bufferLength: nat) returns (delta: string)
      requires Valid()
      modifies this`lastOutputTextOffset, this`sentText
      ensures Valid() && sentText == old(sentText) + delta
      ensures |sentText| == if |old(sentText)| < Visible(bufferLength) then Visible(bufferLength) else |old(sentText)|
      ensures |old(sentText)| <= Visible(bufferLength) ==> sentText == FullText(bufferLength)
    {
      var length: int := |outputText|;
      if bufferLength != 0 && !finished {
        length := length - bufferLength;
      }
      var lastOffset := lastOutputTextOffset;
      if lastOffset < length {
        lastOutputTextOffset := length;
        delta := outputText[lastOffset..length];
        assert delta == generated[lastOffset..length];
        sentText := sentText + delta;
        return;
      }
      delta := "";
    }

    /** `get_output_text_to_return` in cumulative mode. */
    function FullText(bufferLength: nat): (text: string)
      reads this
    {
      outputText[..Visible(bufferLength)]
    }

    /** `get_output_token_ids_to_return` in delta mode: no token is lost or repeated. */
    method TokenDelta() returns (delta: seq<int>)
      requires Valid()
      modifies this`lastOutputTokenIdsOffset, this`sentTokens
      ensures Valid() && sentTokens == old(sentTokens) + delta == outputTokenIds
    {
      var numNew := |outputTokenIds| - lastOutputTokenIdsOffset;
      lastOutputTokenIdsOffset := |outputTokenIds|;
      if numNew == 1 {
        delta := [outputTokenIds[|outputTokenIds| - 1]];
      } else if numNew == 0 {
        delta := [];
      } else {
        delta := outputTokenIds[|outputTokenIds| - numNew..];
      }
      sentTokens := sentTokens + delta;
    }

    /** A new token with its text, then `maybe_stop_sequence`: no search below
        `minTokens`, otherwise the search for stop strings. */
    method Step(token: int, piece: string, stops: seq<string>, minTokens: nat)
      requires Valid() && !finished
      requires forall k :: 0 <= k < |stops| ==> stops[k] != ""
      modifies this`outputText, this`outputTokenIds, this`finished, this`generated
      ensures Valid() && outputTokenIds == old(outputTokenIds) + [token] && generated == old(outputText) + piece
      ensures finished <==> Stopping(old(outputText), piece, |outputTokenIds|, stops, minTokens)
      ensures finished ==> CutAt(old(outputText), generated, stops, |outputText|)
    {
      outputTokenIds := outputTokenIds + [token];
      ghost var was := outputText;
      outputText := outputText + piece;
      generated := outputText;
      if |outputTokenIds| < minTokens {
        return;
      }
      var m;
      ghost var k, i;
      m, k, i := CheckStopStrings(was, outputText, |piece|, stops, false);
      if m.Match? {
        outputText := outputText[..m.truncateTo];
        finished := true;
      }
    }

    /** One round: the new token with its text, then what the client is sent. */
    method Feed(token: int, piece: string, stops: seq<string>, minTokens: nat) returns (delta: string)
      requires Valid() && !finished && sentText == FullText(Buffer(stops)) && sentTokens == outputTokenIds
      requires forall k :: 0 <= k < |stops| ==> stops[k] != ""
      modifies this
      ensures Valid() && sentText == old(sentText) + delta
      ensures outputTokenIds == old(outputTokenIds) + [token] == sentTokens && generated == old(outputText) + piece
      ensures finished <==> Stopping(old(outputText), piece, |outputTokenIds|, stops, minTokens)
      ensures !finished ==> sentText == FullText(Buffer(stops))
      ensures finished ==> Ended(old(outputText), generated, stops, outputText, sentText)
    {
      hide Found, NothingNew, LongestEnded;
      ghost var before := outputText;
      Step(token, piece, stops, minTokens);
      if finished {
        CutAndSent(before, generated, stops, |outputText|);
      }
      delta := TextDelta(Buffer(stops));
      var tokens := TokenDelta();
    }
  }

  /** How a run ends: with the text cut at the stop string that was found, and with that
      text sent, or one character more. */
  ghost predicate Ended(before: string, text: string, stops: seq<string>, final: string, sent: string) {
    && final <= text && CutAt(before, text, stops, |final|)
    && final <= sent
    && if LongestEnded(before, text, stops) then |sent| == |final| + 1 else sent == final
  }

  /** The characters held back, as the normalised parameters say. */
  function Buffer(stops: seq<string>): nat {
    if MaxLength(stops) > 0 then MaxLength(stops) - 1 else 0
  }

  /** That is what `__post_init__` sets. */
  lemma BufferIsNormalised(p: Params)
    requires PostInit(p).Ok? && !p.includeStopStrInOutput && (StopList(p.stop) == [] ==> p.outputTextBufferLength == 0)
    ensures PostInit(p).value.outputTextBufferLength == Buffer(StopList(p.stop))
  {
    PostInitMeans(p);
  }

  lemma FoundUnique(before: string, text: string, stops: seq<string>, k: nat, i: nat, l: nat, j: nat)
    requires Found(before, text, stops, k, i) && Found(before, text, stops, l, j)
    ensures k == l && i == j
  {
    assert HasNew(before, text, stops[k]) && HasNew(before, text, stops[l]);
  }

  /** What a cut does to the text that was sent, which is all but the characters held
      back. */
  lemma CutAndSent(before: string, text: string, stops: seq<string>, i: nat)
    requires CutAt(before, text, stops, i) && before <= text
    ensures var sent := if |before| >= Buffer(stops) then |before| - Buffer(stops) else 0;
            && (i < sent <==> LongestEnded(before, text, stops))
            && (i < sent ==> sent == i + 1)
  {
    var buffer := Buffer(stops);
    var sent := if |before| >= buffer then |before| - buffer else 0;
    var k: nat :| Found(before, text, stops, k, i);
    assert |stops[k]| <= buffer + 1;
    HoldBack(before, text, stops[k], i, buffer, sent);
    forall l: nat, j: nat | Found(before, text, stops, l, j)
      ensures l == k && j == i
    {
      FoundUnique(before, text, stops, k, i, l, j);
    }
  }

  /** A whole run.  Tokens arrive one by one, and after each the client is sent what it
      may see.  The run ends with the first piece that stops it, if there is one.  The
      tokens sent are the tokens generated.  The text sent is the text without the
      characters held back or, in the end, the final text, except for exactly one case:
      the stop string found is a longest one with which the text ended before the last
      piece; then one character too many was sent.  That cannot happen unless the first
      searches were skipped because of `minTokens`. */
  method Stream(pieces: seq<Piece>, stops: seq<string>, minTokens: nat)
    returns (seq_: Sequence, sent: string, n: nat)
    requires forall k :: 0 <= k < |stops| ==> stops[k] != ""
    ensures fresh(seq_) && seq_.Valid() && sent == seq_.sentText && n <= |pieces|
    ensures seq_.generated == Texts(pieces, n) && seq_.outputTokenIds == Tokens(pieces, n) == seq_.sentTokens
    ensures forall j :: 0 <= j < n - 1 ==> !StoppingAt(pieces, j, stops, minTokens)
    ensures seq_.finished <==> n > 0 && StoppingAt(pieces, n - 1, stops, minTokens)
    ensures !seq_.finished ==>
              n == |pieces| && seq_.outputText == seq_.generated && sent == seq_.FullText(Buffer(stops))
    ensures seq_.finished ==> Ended(Texts(pieces, n - 1), Texts(pieces, n), stops, seq_.outputText, sent)
    ensures minTokens <= 1 ==>
              && (seq_.finished <==> !StopFree(Texts(pieces, n), stops))
              && (seq_.finished ==> StopFree(Texts(pieces, n - 1), stops) && sent == seq_.outputText)
  {
    hide Found, NothingNew, StopFree, LongestEnded, CutAt, Stopping, Tokens, Texts;
    seq_ := new Sequence();
    sent, n := "", 0;
    EmptyIsStopFree(stops);
    NoPieces(pieces);
    while n < |pieces|
      invariant n <= |pieces| && fresh(seq_) && seq_.Valid() && !seq_.finished
      invariant seq_.outputText == Texts(pieces, n) && seq_.outputTokenIds == Tokens(pieces, n) == seq_.sentTokens
      invariant sent == seq_.sentText == seq_.FullText(Buffer(stops))
      invariant forall j :: 0 <= j < n ==> !StoppingAt(pieces, j, stops, minTokens)
      invariant minTokens <= 1 ==> StopFree(Texts(pieces, n), stops)
      decreases |pieces| - n
    {
      NextPiece(pieces, n);
      var delta := seq_.Feed(pieces[n].0, pieces[n].1, stops, minTokens);
      sent := sent + delta;
      n := n + 1;
      if minTokens <= 1 {
        StopsAtFirst(pieces, n - 1, stops, minTokens);
      }
      if seq_.finished {
        return;
      }
    }
  }

  lemma NoPieces(pieces: seq<Piece>)
    ensures Texts(pieces, 0) == "" && Tokens(pieces, 0) == []
  {
  }

  lemma {:induction false} NextPiece(pieces: seq<Piece>, n: nat)
    requires n < |pieces|
    ensures Texts(pieces, n + 1) == Texts(pieces, n) + pieces[n].1
    ensures Tokens(pieces, n + 1) == Tokens(pieces, n) + [pieces[n].0] && |Tokens(pieces, n)| == n
  {
    TokensLength(pieces, n);
  }

  /** Searching from the first token on, the run stops with the first stop string. */
  lemma StopsAtFirst(pieces: seq<Piece>, n: nat, stops: seq<string>, minTokens: nat)
    requires n < |pieces| && minTokens <= 1 && StopFree(Texts(pieces, n), stops)
    ensures StoppingAt(pieces, n, stops, minTokens) <==> !StopFree(Texts(pieces, n + 1), stops)
    ensures !LongestEnded(Texts(pieces, n), Texts(pieces, n + 1), stops)
  {
    hide NothingNew, StopFree;
    var before, text := Texts(pieces, n), Texts(pieces, n + 1);
    SearchIsComplete(before, text, stops);
    NotLongest(before, text, stops);
    assert pieces[n].1 == "" ==> text == before;
  }

  ghost predicate StoppingAt(pieces: seq<Piece>, j: nat, stops: seq<string>, minTokens: nat) {
    j < |pieces| && Stopping(Texts(pieces, j), pieces[j].1, j + 1, stops, minTokens)
  }

  lemma {:induction false} TokensLength(pieces: seq<Piece>, n: nat)
    requires n <= |pieces|
    ensures |Tokens(pieces, n)| == n
  {
    if n > 0 {
      TokensLength(pieces, n - 1);
    }
  }

  lemma NotLongest(before: string, text: string, stops: seq<string>)
    requires StopFree(before, stops) && before <= text
    ensures !LongestEnded(before, text, stops)
  {
    if LongestEnded(before, text, stops) {
      var k: nat, i: nat :|
        Found(before, text, stops, k, i) && |stops[k]| == Buffer(stops) + 1 && i + |stops[k]| == |before|;
      assert before[i..i + |stops[k]|] == text[i..i + |stops[k]|];
      assert OccursAt(before, stops[k], i);
    }
  }

  /** A run with `minTokens` that sends a character too many: the stop string is complete
      when no search takes place, and found with the next piece. */
  lemma MinTokensCutsSentText(pieces: seq<Piece>, stops: seq<string>)
    requires pieces == [(1, "ab"), (2, "c")] && stops == ["ab"]
    ensures StoppingAt(pieces, 1, stops, 2) && !StoppingAt(pieces, 0, stops, 2)
    ensures LongestEnded(Texts(pieces, 1), Texts(pieces, 2), stops)
  {
    var before, text := Texts(pieces, 1), Texts(pieces, 2);
    assert Texts(pieces, 0) == "";
    assert before == "ab" && text == "abc";
    assert OccursAt(text, "ab", 0);
    assert NewOccurrence(before, text, stops[0], 0);
    assert Found(before, text, stops, 0, 0);
    assert HasNew(before, text, stops[0]);
    assert MaxLength(stops) == 2;
  }

  lemma EmptyIsStopFree(stops: seq<string>)
    requires forall k :: 0 <= k < |stops| ==> stops[k] != ""
    ensures StopFree("", stops)
  {
  }
}
