/** vllm/config.py, `_get_and_verify_max_len`: the maximum length of a model from its
    config, the user's wish, the sliding window, rope scaling and overrides. */
module MaxLen {
  import opened Options

  datatype Error = ValueError | NotImplementedError | KeyError
  datatype Result<T> = Ok(value: T) | Err(error: Error)

  datatype Window = Single(w: int) | PerLayer(ws: seq<Option<int>>)
  datatype Rope = Rope(ropeType: string, factor: Option<real>, original: Option<int>)

  /** A length, or none found yet. */
  datatype Length = Infinite | Finite(r: real)

  /** The numeric attributes of the model config. */
  type Config = map<string, int>

  const PossibleKeys: seq<string> :=
    ["max_position_embeddings", "n_positions", "max_seq_len", "seq_length", "model_max_length",
     "max_sequence_length", "max_seq_length", "seq_len"]

  const DefaultMaxLen: int := 2048

  ghost predicate SmallestWindow(window: Window, w: int) {
    match window
    case Single(x) => w == x
    case PerLayer(ws) => Some(w) in ws && forall i :: 0 <= i < |ws| && ws[i].Some? ==> w <= ws[i].value
  }

  /** `get_min_sliding_window`: the smallest window of any layer; an error without one. */
  method GetMinSlidingWindow(window: Window) returns (r: Result<int>)
    ensures r.Ok? ==> SmallestWindow(window, r.value)
    ensures r.Err? <==> window.PerLayer? && forall i :: 0 <= i < |window.ws| ==> window.ws[i].None?
    ensures r.Err? ==> r.error == ValueError
  {
    match window {
      case Single(w) => r := Ok(w);
      case PerLayer(ws) =>
        r := Err(ValueError);
        for i := 0 to |ws|
          invariant r.Ok? ==>
                      Some(r.value) in ws[..i] && forall k :: 0 <= k < i && ws[k].Some? ==> r.value <= ws[k].value
          invariant r.Err? ==> r.error == ValueError && forall k :: 0 <= k < i ==> ws[k].None?
        {
          assert ws[..i + 1] == ws[..i] + [ws[i]];
          if ws[i].Some? && (r.Err? || ws[i].value < r.value) {
            r := Ok(ws[i].value);
          }
        }
        assert ws[..|ws|] == ws;
    }
  }

  /** A length respects the first `n` of the possible limits in the config. */
  ghost predicate Respects(config: Config, n: nat, x: real) {
    forall k :: 0 <= k < n && k < |PossibleKeys| && PossibleKeys[k] in config ==> x <= config[PossibleKeys[k]] as real
  }

  ghost predicate IsLimit(config: Config, n: nat, x: real) {
    exists k :: 0 <= k < n && k < |PossibleKeys| && PossibleKeys[k] in config && x == config[PossibleKeys[k]] as real
  }

  /** The least of the limits, if there is one. */
  ghost predicate IsLeast(config: Config, n: nat, d: Length) {
    match d
    case Infinite => forall k :: 0 <= k < n && k < |PossibleKeys| ==> PossibleKeys[k] !in config
    case Finite(x) => Respects(config, n, x) && IsLimit(config, n, x)
  }

  method SmallestKey(config: Config) returns (d: Length)
    ensures IsLeast(config, |PossibleKeys|, d)
  {
    d := Infinite;
    for k := 0 to |PossibleKeys|
      invariant IsLeast(config, k, d)
    {
      var key := PossibleKeys[k];
      if key in config {
        var maxLen := config[key] as real;
        if d.Infinite? || maxLen < d.r {
          assert maxLen == config[PossibleKeys[k]] as real;
          d := Finite(maxLen);
        }
      }
    }
  }

  /** The limit from the keys and, when the sliding window is disabled, the window. */
  ghost predicate IsDerived(config: Config, window: Option<int>, d: Length) {
    exists k: Length :: IsLeast(config, |PossibleKeys|, k) && d == MinWith(k, window)
  }

  function MinWith(d: Length, window: Option<int>): (m: Length)
    ensures m.Infinite? <==> d.Infinite? && window.None?
    ensures m.Finite? ==> (d.Finite? ==> m.r <= d.r) && (window.Some? ==> m.r <= window.value as real)
    ensures m == d || (window.Some? && m == Finite(window.value as real))
  {
    if window.None? then d
    else if d.Infinite? || window.value as real < d.r then Finite(window.value as real)
    else d
  }

  /** Rounds towards zero. */
  function Trunc(x: real): (n: int)
    ensures x >= 0.0 ==> n as real <= x < (n + 1) as real
    ensures x < 0.0 ==> (n - 1) as real < x <= n as real
  {
    if x >= 0.0 then x.Floor else -((-x).Floor)
  }

  /** The effect of rope scaling on a limit.  Three types leave it alone; the others multiply it
      by the factor, or by one if none is given, and "yarn" starts from the original limit
      instead. */
  ghost predicate IsScaled(rope: Option<Rope>, disable: bool, d: real, r: Result<real>) {
    if rope.None? || rope.value.ropeType in ["su", "longrope", "llama3"] then r == Ok(d)
    else if disable then r == Err(NotImplementedError)
    else if rope.value.ropeType == "yarn" && rope.value.original.None? then r == Err(KeyError)
    else
      && r.Ok? && (rope.value.factor.None? ==> r.value == ScalesFrom(rope.value, d))
      && (rope.value.factor.Some? ==> r.value == ScalesFrom(rope.value, d) * rope.value.factor.value)
  }

  ghost function ScalesFrom(rope: Rope, d: real): real
    requires rope.ropeType == "yarn" ==> rope.original.Some?
  {
    if rope.ropeType == "yarn" then rope.original.value as real else d
  }

  method ScaleByRope(rope: Option<Rope>, disable: bool, d: real) returns (r: Result<real>)
    ensures IsScaled(rope, disable, d, r)
  {
    var derived := d;
    if rope.Some? && rope.value.ropeType !in ["su", "longrope", "llama3"] {
      if disable {
        return Err(NotImplementedError);
      }
      var factor := if rope.value.factor.Some? then rope.value.factor.value else 1.0;
      if rope.value.ropeType == "yarn" {
        if rope.value.original.None? {
          return Err(KeyError);
        }
        derived := rope.value.original.value as real;
      }
      derived := derived * factor;
    }
    r := Ok(derived);
  }

  /** The part after the limit is known: the user's wish against the limit. */
  method Choose(config: Config, maxModelLen: Option<int>, disable: bool, allowLong: bool,
                limit: real) returns (r: Result<int>)
    ensures maxModelLen.None? ==> r == Ok(Trunc(limit))
    ensures maxModelLen.Some? && r.Ok? ==> r.value == maxModelLen.value
    ensures maxModelLen.Some? ==>
              var m, key := maxModelLen.value, "model_max_length";
              var overridden := key in config && m <= config[key];
              && (r.Ok? <==> m as real <= limit || (if overridden then !disable else allowLong))
              && (r.Err? ==> r.error == if overridden then NotImplementedError else ValueError)
  {
    if maxModelLen.None? {
      return Ok(Trunc(limit));
    }
    var m := maxModelLen.value;
    if m as real > limit {
      if "model_max_length" in config && m <= config["model_max_length"] {
        if disable {
          return Err(NotImplementedError);
        }
      } else if !allowLong {
        return Err(ValueError);
      }
    }
    return Ok(m);
  }

  /** The first part: the least limit of the config and, if the sliding window is disabled, of
      the windows. */
  method DeriveLimit(config: Config, disable: bool, window: Option<Window>) returns (d: Result<Length>,
                                                                                     ghost w: Option<int>)
    ensures w.Some? ==> disable && window.Some? && SmallestWindow(window.value, w.value)
    ensures if disable && window.Some? && w.None? then
              && window.value.PerLayer? && (forall i :: 0 <= i < |window.value.ws| ==> window.value.ws[i].None?)
              && d == Err(ValueError)
            else
              && d.Ok? && IsDerived(config, w, d.value)
              && (w.Some? ==> d.value.Finite? && d.value.r <= w.value as real)
  {
    hide IsLeast;
    w := None;
    var least := SmallestKey(config);
    var bound := None;
    if disable && window.Some? {
      var smallest := GetMinSlidingWindow(window.value);
      if smallest.Err? {
        d := Err(smallest.error);
        return;
      }
      bound := Some(smallest.value);
    }
    w := bound;
    d := Ok(MinWith(least, bound));
  }

  /** Every outcome from the derived limit `d`: without a limit the user's length is taken as
      it is, or that of the target model, and otherwise a default limit is scaled; an error of
      the scaling, whose result is `scaled`, comes first, also when the user gives a length. */
  ghost predicate IsOutcome(config: Config, rope: Option<Rope>, maxModelLen: Option<int>, disable: bool,
                            specTarget: Option<int>, encoderMax: Option<int>, allowLong: bool, d: Length,
                            scaled: Result<real>, r: Result<int>) {
    if d.Infinite? && maxModelLen.Some? then r == Ok(maxModelLen.value)
    else if d.Infinite? && specTarget.Some? then r == Ok(specTarget.value)
    else
      IsScaled(rope, disable, if d.Finite? then d.r else 2048.0, scaled) &&
      if scaled.Err? then r == Err(scaled.error)
      else
        var limit := if encoderMax.Some? then encoderMax.value as real else scaled.value;
        if maxModelLen.None? then r == Ok(Trunc(limit))
        else
          var m, key := maxModelLen.value, "model_max_length";
          var overridden := key in config && m <= config[key];
          if m as real <= limit || (if overridden then !disable else allowLong) then r == Ok(m)
          else r == Err(if overridden then NotImplementedError else ValueError)
  }

  /** `_get_and_verify_max_len`. */
  method GetAndVerifyMaxLen(config: Config, rope: Option<Rope>, maxModelLen: Option<int>, disable: bool,
                            window: Option<Window>, specTarget: Option<int>, encoderMax: Option<int>, allowLong: bool)
    returns (r: Result<int>, ghost w: Option<int>, ghost limit: Length, ghost scaled: Result<real>)
    // the smallest window counts only when the sliding window is disabled
    ensures w.Some? ==> disable && window.Some? && SmallestWindow(window.value, w.value)
    // no layer has a window, or the outcome follows from the derived limit
    ensures if disable && window.Some? && w.None? then
              && window.value.PerLayer? && (forall i :: 0 <= i < |window.value.ws| ==> window.value.ws[i].None?)
              && r == Err(ValueError)
            else
              && IsDerived(config, w, limit)
              && IsOutcome(config, rope, maxModelLen, disable, specTarget, encoderMax, allowLong, limit, scaled, r)
    // the user's length is returned as it is or refused
    ensures r.Ok? && maxModelLen.Some? ==> r.value == maxModelLen.value
    // with the sliding window disabled no length beyond the smallest window is returned
    ensures r.Ok? && disable && window.Some? && encoderMax.None? && !allowLong ==> r.value <= w.value
  {
    hide IsDerived, IsScaled, SmallestWindow;
    scaled := Err(ValueError);
    limit := Infinite;
    var derived;
    derived, w := DeriveLimit(config, disable, window);
    if derived.Err? {
      r := Err(derived.error);
      return;
    }
    var d := derived.value;
    limit := d;
    if d.Infinite? {
      if maxModelLen.Some? {
        r := Ok(maxModelLen.value);
        return;
      }
      if specTarget.Some? {
        r := Ok(specTarget.value);
        return;
      }
      d := Finite(DefaultMaxLen as real);
    }
    var byRope := ScaleByRope(rope, disable, d.r);
    scaled := byRope;
    if byRope.Err? {
      r := Err(byRope.error);
      return;
    }
    ScaledOrDisabled(rope, disable, d.r, byRope);
    r := Choose(config, maxModelLen, disable, allowLong,
                if encoderMax.Some? then encoderMax.value as real else byRope.value);
  }

  lemma ScaledOrDisabled(rope: Option<Rope>, disable: bool, d: real, r: Result<real>)
    requires IsScaled(rope, disable, d, r)
    ensures disable && r.Ok? ==> r.value == d
  {
  }

  /** The config and the window determine the limit. */
  lemma DerivedUnique(config: Config, w: Option<int>, d: Length, e: Length)
    requires IsDerived(config, w, d) && IsDerived(config, w, e)
    ensures d == e
  {
    hide IsLeast;
    var j: Length :| IsLeast(config, |PossibleKeys|, j) && d == MinWith(j, w);
    var k: Length :| IsLeast(config, |PossibleKeys|, k) && e == MinWith(k, w);
    LeastUnique(config, j, k);
  }

  lemma LeastUnique(config: Config, a: Length, b: Length)
    requires IsLeast(config, |PossibleKeys|, a) && IsLeast(config, |PossibleKeys|, b)
    ensures a == b
  {
  }
}
