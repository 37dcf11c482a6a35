/** The start/stop event sweep that `SummarizeEntries` runs over the targets of a
    ninja build log (tools/report_build_time_ninja.py).

    The sweep keeps one accumulated "weighted time" and reads a target's weight off
    as a difference of two of its values.  The reference it is proved against never
    mentions events or accumulators: `Weight` adds up, over the elementary intervals
    between consecutive end points, the interval's length divided by the number of
    targets that span it.  Times are real numbers. */
module NinjaSweep {
  import opened Sequences
  import opened Grids

  /** One build step, with the fields the sweep reads and writes. */
  class Target {
    const start: real
    const end: real
    var weightedDuration: real

    constructor (start: real, end: real)
      ensures this.start == start && this.end == end && weightedDuration == 0.0
    {
      this.start, this.end, weightedDuration := start, end, 0.0;
    }

    function Duration(): real {
      end - start
    }
  }

  datatype Event = Start(target: Target) | Stop(target: Target) {
    function Time(): real {
      if Start? then target.start else target.end
    }

    /** The sort key is (time, action name), and "start" precedes "stop". */
    predicate Precedes(other: Event) {
      Time() < other.Time() || (Time() == other.Time() && (Start? || other.Stop?))
    }
  }

  datatype Outcome =
    | Done(length: real, weightedTotal: real, cpuTime: real)
    | MissingKey
    | EmptyLog

  // ----- the reference: weights integrated interval by interval

  /** The targets that are running during the whole of [a, b]. */
  ghost function Covering(all: set<Target>, a: real, b: real): set<Target> {
    set t | t in all && t.start <= a && b <= t.end
  }

  /** `x` divided by `n`, and nothing when there is nobody to share with. */
  function Share(x: real, n: nat): real {
    if n == 0 then 0.0 else x / n as real
  }

  /** What `t` receives of [a, b]: an equal share among the targets running there. */
  ghost function Piece(all: set<Target>, t: Target, a: real, b: real): real {
    if a < b && t in Covering(all, a, b) then Share(b - a, |Covering(all, a, b)|) else 0.0
  }

  ghost function Pieces(all: set<Target>, t: Target): (real, real) -> real {
    (a, b) => Piece(all, t, a, b)
  }

  ghost function Busy(all: set<Target>, a: real, b: real): real {
    if Covering(all, a, b) != {} then b - a else 0.0
  }

  ghost function Idle(all: set<Target>, a: real, b: real): real {
    if Covering(all, a, b) == {} then b - a else 0.0
  }

  ghost function Weight(all: set<Target>, t: Target, ts: seq<real>): real {
    Integral(Pieces(all, t), ts)
  }

  /** The length of the union of all target intervals. */
  ghost function BusyTime(all: set<Target>, ts: seq<real>): real {
    Integral((a, b) => Busy(all, a, b), ts)
  }

  ghost function IdleTime(all: set<Target>, ts: seq<real>): real {
    Integral((a, b) => Idle(all, a, b), ts)
  }

  ghost function WeightSum(all: set<Target>, s: seq<Target>, ts: seq<real>): real {
    if s == [] then 0.0
    else WeightSum(all, s[..|s| - 1], ts) + Weight(all, s[|s| - 1], ts)
  }

  ghost function DurationSum(s: seq<Target>): real {
    if s == [] then 0.0 else DurationSum(s[..|s| - 1]) + s[|s| - 1].Duration()
  }

  ghost predicate IsEndpoint(all: set<Target>, x: real) {
    exists t :: t in all && (x == t.start || x == t.end)
  }

  /** An ascending list of exactly the end points of the targets; repeats are allowed,
      since they only add intervals of length zero. */
  ghost predicate IsGrid(ts: seq<real>, all: set<Target>) {
    && Increasing(ts)
    && forall x :: x in ts <==> IsEndpoint(all, x)
  }

  // ----- facts about the reference

  /** `x` moved into [start, end]. */
  ghost function Clamped(t: Target, x: real): real {
    if x <= t.start then t.start else if x >= t.end then t.end else x
  }

  /** A target's weight lies between its duration divided by the number of targets
      and its duration. */
  lemma WeightBounds(all: set<Target>, t: Target, ts: seq<real>)
    requires IsGrid(ts, all) && t in all && t.start <= t.end
    ensures t.Duration() / |all| as real <= Weight(all, t, ts) <= t.Duration()
  {
    assert IsEndpoint(all, t.start) && IsEndpoint(all, t.end);
    WeightTimesCount(all, t, ts);
    ShareFromProduct(t.Duration(), |all|, Weight(all, t, ts));
  }

  lemma WeightTimesCount(all: set<Target>, t: Target, ts: seq<real>)
    requires t.start in ts && t.end in ts && Increasing(ts) && t in all && t.start <= t.end
    ensures Weight(all, t, ts) <= t.Duration() <= |all| as real * Weight(all, t, ts)
  {
    hide Pieces, ClampedGap, Integral, OnGap, Increasing;
    var f, d := Pieces(all, t), ClampedGap(t);
    GapBounds(all, t, ts, f, d);
    ClampedGapsAddUp(t, ts);
    IntegralBounds(|all| as real, f, d, ts);
  }

  ghost function ClampedGap(t: Target): (real, real) -> real {
    (a, b) => Clamped(t, b) - Clamped(t, a)
  }

  lemma ClampedGapsAddUp(t: Target, ts: seq<real>)
    requires t.start in ts && t.end in ts && Increasing(ts) && t.start <= t.end
    ensures Integral(ClampedGap(t), ts) == t.Duration()
  {
    Telescope(x => Clamped(t, x), ClampedGap(t), ts);
    Extremes(ts, t.start);
    Extremes(ts, t.end);
  }

  lemma GapBounds(all: set<Target>, t: Target, ts: seq<real>, f: (real, real) -> real, d: (real, real) -> real)
    requires t.start in ts && t.end in ts && Increasing(ts) && t in all && t.start <= t.end
    requires f == Pieces(all, t) && d == ClampedGap(t)
    ensures forall k :: 1 <= k < |ts| ==> OnGap(f, ts, k) <= OnGap(d, ts, k) <= |all| as real * OnGap(f, ts, k)
  {
    forall k | 1 <= k < |ts|
      ensures OnGap(f, ts, k) <= OnGap(d, ts, k) <= |all| as real * OnGap(f, ts, k)
    {
      NoneInBetween(ts, k, t.start);
      NoneInBetween(ts, k, t.end);
      PieceBounds(all, t, ts[k - 1], ts[k]);
    }
  }

  lemma PieceBounds(all: set<Target>, t: Target, a: real, b: real)
    requires t in all && t.start <= t.end && a <= b
    requires t.start <= a || b <= t.start
    requires t.end <= a || b <= t.end
    ensures var d := Clamped(t, b) - Clamped(t, a);
            Piece(all, t, a, b) <= d <= |all| as real * Piece(all, t, a, b)
  {
    var c := Covering(all, a, b);
    if t in c && a < b {
      SubsetSize(c, all);
      ShareBounds(b - a, |c|, |all|);
    }
  }

  ghost function PieceSum(all: set<Target>, s: seq<Target>, a: real, b: real): real {
    SumOver((t: Target) => Piece(all, t, a, b), s)
  }

  /** Double counting over one interval: the shares of its targets fill it. */
  lemma PiecesFillInterval(all: set<Target>, s: seq<Target>, a: real, b: real)
    requires NoDup(s) && Elements(s) == all && a <= b
    ensures PieceSum(all, s, a, b) == Busy(all, a, b)
  {
    var c := Covering(all, a, b);
    var share := if a < b && c != {} then (b - a) / |c| as real else 0.0;
    CountAll(c, s);
    SumShares((t: Target) => Piece(all, t, a, b), c, s, share);
  }

  lemma {:induction false} WeightSumAsIntegral(all: set<Target>, s: seq<Target>, ts: seq<real>)
    ensures WeightSum(all, s, ts) == Integral((a, b) => PieceSum(all, s, a, b), ts)
  {
    var h := (a, b) => PieceSum(all, s, a, b);
    if s == [] {
      IntegralZero(h, ts);
    } else {
      var r, t := s[..|s| - 1], s[|s| - 1];
      WeightSumAsIntegral(all, r, ts);
      IntegralSum((a, b) => PieceSum(all, r, a, b), Pieces(all, t), h, ts);
    }
  }

  /** Conservation: the weights of all targets add up to the busy time. */
  lemma WeightsAddUp(all: set<Target>, s: seq<Target>, ts: seq<real>)
    requires NoDup(s) && Elements(s) == all && Increasing(ts)
    ensures WeightSum(all, s, ts) == BusyTime(all, ts)
  {
    WeightSumAsIntegral(all, s, ts);
    var f := (a, b) => PieceSum(all, s, a, b);
    var g := (a, b) => Busy(all, a, b);
    forall k | 1 <= k < |ts|
      ensures OnGap(f, ts, k) == OnGap(g, ts, k)
    {
      PiecesFillInterval(all, s, ts[k - 1], ts[k]);
    }
    IntegralMonotone(f, g, ts);
    IntegralMonotone(g, f, ts);
  }

  ghost predicate IdleGap(all: set<Target>, ts: seq<real>, k: nat)
    requires 1 <= k < |ts|
  {
    ts[k - 1] < ts[k] && Covering(all, ts[k - 1], ts[k]) == {}
  }

  /** Busy and idle time split the whole stretch, and there is no idle time exactly
      when every gap between end points is spanned by some target. */
  lemma BusyAndIdle(all: set<Target>, ts: seq<real>)
    requires |ts| >= 1 && Increasing(ts)
    ensures BusyTime(all, ts) + IdleTime(all, ts) == ts[|ts| - 1] - ts[0]
    ensures IdleTime(all, ts) >= 0.0
    ensures IdleTime(all, ts) == 0.0 <==>
            forall k :: 1 <= k < |ts| ==> !IdleGap(all, ts, k)
  {
    var idle := (a, b) => Idle(all, a, b);
    var whole := (a: real, b: real) => b - a;
    IntegralSum((a, b) => Busy(all, a, b), idle, whole, ts);
    Telescope(x => x, whole, ts);
    forall k | 1 <= k < |ts|
      ensures OnGap(idle, ts, k) >= 0.0
      ensures OnGap(idle, ts, k) == 0.0 <==> !IdleGap(all, ts, k)
    {
    }
    IntegralZeroIff(idle, ts);
  }

  // ----- the sweep

  /** The events of `entries` in the order the first loop appends them. */
  ghost function Events(entries: seq<Target>): seq<Event> {
    if entries == [] then []
    else Events(entries[..|entries| - 1]) + [Start(entries[|entries| - 1]), Stop(entries[|entries| - 1])]
  }

  ghost predicate Sorted(ev: seq<Event>) {
    forall i, j :: 0 <= i < j < |ev| ==> ev[i].Precedes(ev[j])
  }

  lemma {:induction false} EventsOf(entries: seq<Target>)
    requires NoDup(entries)
    ensures NoDup(Events(entries))
    ensures forall e :: e in Events(entries) <==> e.target in entries
  {
    if entries != [] {
      var r, t := entries[..|entries| - 1], entries[|entries| - 1];
      EventsOf(r);
      assert entries == r + [t];
      assert t !in r;
      var ev := Events(entries);
      forall e
        ensures e in ev <==> e.target in entries
      {
        assert e in ev <==> e in Events(r) || e == Start(t) || e == Stop(t);
      }
    }
  }

  method Insert(s: seq<Event>, e: Event) returns (r: seq<Event>)
    requires Sorted(s)
    ensures Sorted(r) && multiset(r) == multiset(s) + multiset{e}
  {
    var j := |s|;
    while j > 0 && !s[j - 1].Precedes(e)
      invariant 0 <= j <= |s|
      invariant forall k :: j <= k < |s| ==> e.Precedes(s[k])
    {
      j := j - 1;
    }
    r := s[..j] + [e] + s[j..];
    assert multiset(r) == multiset(s) + multiset{e} by {
      assert s == s[..j] + s[j..];
    }
    InsertSorted(s, j, e);
  }

  lemma InsertSorted(s: seq<Event>, j: nat, e: Event)
    requires Sorted(s) && j <= |s|
    requires j > 0 ==> s[j - 1].Precedes(e)
    requires forall k :: j <= k < |s| ==> e.Precedes(s[k])
    ensures Sorted(s[..j] + [e] + s[j..])
  {
    forall k | 0 <= k < j
      ensures s[k].Precedes(e)
    {
      assert k == j - 1 || s[k].Precedes(s[j - 1]);
    }
  }

  /** Sorting by key; entries with equal keys may end up in any order. */
  method Sort(ev: seq<Event>) returns (s: seq<Event>)
    ensures Sorted(s) && multiset(s) == multiset(ev)
  {
    s := [];
    for i := 0 to |ev|
      invariant Sorted(s) && multiset(s) == multiset(ev[..i])
    {
      s := Insert(s, ev[i]);
      assert ev[..i + 1] == ev[..i] + [ev[i]];
    }
    assert ev[..|ev|] == ev;
  }

  ghost function Times(ev: seq<Event>): seq<real> {
    seq(|ev|, i requires 0 <= i < |ev| => ev[i].Time())
  }

  /** The targets whose start event lies among the first `k` and whose stop does not. */
  ghost predicate RunningAt(ev: seq<Event>, k: nat, t: Target)
    requires k <= |ev|
  {
    Start(t) in ev[..k] && Stop(t) !in ev[..k]
  }

  /** Across an interval of positive length the running table holds exactly the
      targets that span the interval. */
  lemma RunningIsCovering(ev: seq<Event>, k: nat, all: set<Target>, t: Target)
    requires Sorted(ev) && 1 <= k < |ev| && ev[k - 1].Time() < ev[k].Time()
    requires t in all && Start(t) in ev && Stop(t) in ev
    ensures RunningAt(ev, k, t) <==> t in Covering(all, ev[k - 1].Time(), ev[k].Time())
  {
    Position(ev, k, Start(t));
    Position(ev, k, Stop(t));
  }

  lemma Position(ev: seq<Event>, k: nat, e: Event)
    requires Sorted(ev) && 1 <= k < |ev| && ev[k - 1].Time() < ev[k].Time() && e in ev
    ensures e in ev[..k] <==> e.Time() <= ev[k - 1].Time()
    ensures e !in ev[..k] <==> e.Time() >= ev[k].Time()
  {
    var i :| 0 <= i < |ev| && ev[i] == e;
    if i < k {
      assert ev[..k][i] == e;
      assert i == k - 1 || ev[i].Precedes(ev[k - 1]);
    } else {
      assert i == k || ev[k].Precedes(ev[i]);
    }
  }

  ghost predicate EventsFor(ev: seq<Event>, all: set<Target>) {
    && ev != [] && Sorted(ev) && NoDup(ev)
    && (forall e :: e in ev ==> e.target in all)
    && (forall t :: t in all ==> Start(t) in ev && Stop(t) in ev)
  }

  /** What the running table and the accumulator hold after `k` events: a running
      target's entry is its weight so far, counted back from the accumulator. */
  ghost predicate TableInv(ev: seq<Event>, k: nat, all: set<Target>, running: map<Target, real>, w: real)
    requires k <= |ev|
  {
    && (forall t :: t in running ==> t in all && RunningAt(ev, k, t))
    && (forall t :: t in all && RunningAt(ev, k, t) ==> t in running)
    && (forall t :: t in running ==> running[t] + Weight(all, t, Times(ev)[..k]) == w)
    && (forall t :: t in all && Start(t) !in ev[..k] ==> Weight(all, t, Times(ev)[..k]) == 0.0)
  }

  ghost predicate IsLastTime(ev: seq<Event>, k: nat, time: real)
    requires k <= |ev| && ev != []
  {
    time == ev[if k == 0 then 0 else k - 1].Time()
  }

  lemma WeightUnfold(all: set<Target>, t: Target, ts: seq<real>, k: nat)
    requires k < |ts|
    ensures Weight(all, t, ts[..k + 1]) ==
            Weight(all, t, ts[..k]) + if k == 0 then 0.0 else Piece(all, t, ts[k - 1], ts[k])
  {
    hide Share, Piece;
    assert ts[..k + 1][..k] == ts[..k];
  }

  /** Passing from event `k - 1` to event `k` gives each running target one share. */
  lemma WeightStep(ev: seq<Event>, k: nat, all: set<Target>, running: map<Target, real>, w: real,
                   lastTime: real, t: Target)
    requires EventsFor(ev, all) && k < |ev| && TableInv(ev, k, all, running, w) && IsLastTime(ev, k, lastTime)
    ensures Weight(all, t, Times(ev)[..k + 1]) == Weight(all, t, Times(ev)[..k]) +
            if t in running then Share(ev[k].Time() - lastTime, |running|) else 0.0
  {
    hide Weight, Share, Piece, Covering;
    WeightUnfold(all, t, Times(ev), k);
    if k > 0 {
      assert ev[k - 1].Precedes(ev[k]);
      RunningSet(ev, k, all, running.Keys);
      PieceAsShare(all, t, ev[k - 1].Time(), ev[k].Time(), running.Keys);
    }
  }

  lemma RunningSet(ev: seq<Event>, k: nat, all: set<Target>, running: set<Target>)
    requires EventsFor(ev, all) && 1 <= k < |ev|
    requires forall t :: t in all ==> (t in running <==> RunningAt(ev, k, t))
    requires running <= all
    ensures ev[k - 1].Time() < ev[k].Time() ==> running == Covering(all, ev[k - 1].Time(), ev[k].Time())
  {
    if ev[k - 1].Time() < ev[k].Time() {
      forall x | x in all
        ensures x in running <==> x in Covering(all, ev[k - 1].Time(), ev[k].Time())
      {
        RunningIsCovering(ev, k, all, x);
      }
    }
  }

  lemma PieceAsShare(all: set<Target>, t: Target, a: real, b: real, running: set<Target>)
    requires a <= b && (a < b ==> running == Covering(all, a, b))
    ensures Piece(all, t, a, b) == if t in running then Share(b - a, |running|) else 0.0
  {
  }

  /** `w` is the accumulator at event `k`, and the weights have moved on with it. */
  ghost predicate Advanced(ev: seq<Event>, k: nat, all: set<Target>, running: map<Target, real>, w: real)
    requires k < |ev|
  {
    && (forall t :: t in running ==> running[t] + Weight(all, t, Times(ev)[..k + 1]) == w)
    && (forall t :: t in all && t !in running ==>
          Weight(all, t, Times(ev)[..k + 1]) == Weight(all, t, Times(ev)[..k]))
  }

  lemma TableStep(ev: seq<Event>, k: nat, all: set<Target>, running: map<Target, real>, w: real, lastTime: real)
    requires EventsFor(ev, all) && k < |ev| && TableInv(ev, k, all, running, w) && IsLastTime(ev, k, lastTime)
    ensures Advanced(ev, k, all, running, w + Share(ev[k].Time() - lastTime, |running|))
  {
    hide Weight, Share, RunningAt, EventsFor, IsLastTime;
    forall t | t in all
      ensures Weight(all, t, Times(ev)[..k + 1]) == Weight(all, t, Times(ev)[..k]) +
              if t in running then Share(ev[k].Time() - lastTime, |running|) else 0.0
    {
      WeightStep(ev, k, all, running, w, lastTime, t);
    }
  }

  /** The targets that have stopped, in order, and what their weights add up to. */
  ghost predicate DoneInv(ev: seq<Event>, k: nat, all: set<Target>, done: seq<Target>, total: real)
    requires k <= |ev|
  {
    && NoDup(done)
    && (forall t :: t in done ==> Stop(t) in ev[..k])
    && (forall e :: e in ev[..k] && e.Stop? ==> e.target in done)
    && (forall t :: t in done ==> Start(t) in ev[..k] && t.start <= t.end)
    && total == WeightSum(all, done, Times(ev)[..k])
  }

  lemma {:induction false} SameWeightSum(all: set<Target>, s: seq<Target>, ts: seq<real>, us: seq<real>)
    requires forall t :: t in s ==> Weight(all, t, ts) == Weight(all, t, us)
    ensures WeightSum(all, s, ts) == WeightSum(all, s, us)
  {
    if s != [] {
      SameWeightSum(all, s[..|s| - 1], ts, us);
    }
  }

  /** A stop event whose start lies ahead belongs to a target that ends before it
      starts, and the other way round. */
  lemma StartBeforeStop(ev: seq<Event>, k: nat, all: set<Target>, t: Target)
    requires EventsFor(ev, all) && k < |ev| && ev[k] == Stop(t)
    ensures Start(t) in ev[..k] <==> t.start <= t.end
    ensures Stop(t) !in ev[..k]
  {
    assert ev[k] in ev;
    assert Start(t) in ev;
    var i :| 0 <= i < |ev| && ev[i] == Start(t);
    if i < k {
      assert ev[..k][i] == Start(t);
      assert ev[i].Precedes(ev[k]);
    } else {
      assert ev[k].Precedes(ev[i]);
    }
  }

  lemma StartStep(ev: seq<Event>, k: nat, all: set<Target>, running: map<Target, real>, w: real, w': real, t: Target)
    requires EventsFor(ev, all) && k < |ev| && TableInv(ev, k, all, running, w) && ev[k] == Start(t)
    requires Advanced(ev, k, all, running, w') && Stop(t) !in ev[..k]
    ensures TableInv(ev, k + 1, all, running[t := w'], w')
  {
    hide Weight;
    assert ev[..k + 1] == ev[..k] + [ev[k]];
    assert ev[k] !in ev[..k];
    assert ev[k] in ev;
  }

  lemma StopStep(ev: seq<Event>, k: nat, all: set<Target>, running: map<Target, real>, w: real, w': real, t: Target)
    requires EventsFor(ev, all) && k < |ev| && TableInv(ev, k, all, running, w)
    requires Advanced(ev, k, all, running, w') && ev[k] == Stop(t) && t in running
    ensures TableInv(ev, k + 1, all, running - {t}, w')
    ensures w' - running[t] == Weight(all, t, Times(ev)[..k + 1])
  {
    hide Weight;
    assert ev[..k + 1] == ev[..k] + [ev[k]];
  }

  lemma EntryOfStop(ev: seq<Event>, k: nat, all: set<Target>, running: map<Target, real>, w: real, t: Target)
    requires EventsFor(ev, all) && k < |ev| && TableInv(ev, k, all, running, w) && ev[k] == Stop(t)
    ensures t in all
    ensures t in running <==> t.start <= t.end
    ensures t in running ==> Start(t) in ev[..k]
  {
    assert ev[k] in ev;
    StartBeforeStop(ev, k, all, t);
  }

  /** Targets that have stopped keep their weight. */
  lemma DoneKeepWeight(ev: seq<Event>, k: nat, all: set<Target>, running: map<Target, real>, w: real, w': real,
                       done: seq<Target>, total: real)
    requires EventsFor(ev, all) && k < |ev| && TableInv(ev, k, all, running, w)
    requires Advanced(ev, k, all, running, w') && DoneInv(ev, k, all, done, total)
    ensures forall t :: t in done ==>
              t !in running && Weight(all, t, Times(ev)[..k + 1]) == Weight(all, t, Times(ev)[..k])
    ensures total == WeightSum(all, done, Times(ev)[..k + 1])
  {
    hide Weight, Sorted, NoDup, WeightSum;
    forall t | t in done
      ensures t !in running && Weight(all, t, Times(ev)[..k + 1]) == Weight(all, t, Times(ev)[..k])
    {
      assert Stop(t) in ev;
    }
    SameWeightSum(all, done, Times(ev)[..k], Times(ev)[..k + 1]);
  }

  lemma DoneStep(ev: seq<Event>, k: nat, all: set<Target>, running: map<Target, real>, w: real, w': real,
                 done: seq<Target>, total: real)
    requires EventsFor(ev, all) && k < |ev| && TableInv(ev, k, all, running, w)
    requires Advanced(ev, k, all, running, w') && DoneInv(ev, k, all, done, total)
    ensures forall t :: t in done ==> Weight(all, t, Times(ev)[..k + 1]) == Weight(all, t, Times(ev)[..k])
    ensures ev[k].Start? ==> DoneInv(ev, k + 1, all, done, total)
    ensures ev[k].Stop? && ev[k].target in running ==>
              var t := ev[k].target;
              && t !in done
              && DoneInv(ev, k + 1, all, done + [t], total + Weight(all, t, Times(ev)[..k + 1]))
  {
    hide Weight, Sorted, TableInv, Advanced, EventsFor;
    DoneKeepWeight(ev, k, all, running, w, w', done, total);
    assert ev[..k + 1] == ev[..k] + [ev[k]];
    if ev[k].Stop? && ev[k].target in running {
      var t := ev[k].target;
      EntryOfStop(ev, k, all, running, w, t);
      assert (done + [t])[..|done|] == done;
    }
  }

  lemma NotYetStopped(ev: seq<Event>, k: nat, all: set<Target>, done: seq<Target>, total: real, t: Target)
    requires EventsFor(ev, all) && k < |ev| && DoneInv(ev, k, all, done, total) && ev[k] == Start(t)
    ensures Stop(t) !in ev[..k]
  {
    forall i | 0 <= i < k
      ensures ev[i] != Stop(t)
    {
      assert ev[i].Precedes(ev[k]);
      assert ev[i] in ev[..k];
    }
  }

  lemma NobodyShares(x: real)
    ensures Share(x, 0) == 0.0
  {
  }

  /** The state of the sweep between events. */
  ghost predicate SweepInv(ev: seq<Event>, k: nat, all: set<Target>, running: map<Target, real>, w: real,
                           lastTime: real, done: seq<Target>, total: real, weights: map<Target, real>) {
    && EventsFor(ev, all) && k <= |ev|
    && TableInv(ev, k, all, running, w)
    && IsLastTime(ev, k, lastTime)
    && DoneInv(ev, k, all, done, total)
    && (forall t :: t in done ==> t in weights)
    && (forall t :: t in weights ==> t in done && t in all && weights[t] == Weight(all, t, Times(ev)[..k]))
  }

  lemma StartCase(ev: seq<Event>, k: nat, all: set<Target>, running: map<Target, real>, w: real,
                  lastTime: real, done: seq<Target>, total: real, weights: map<Target, real>, w': real)
    requires k < |ev| && SweepInv(ev, k, all, running, w, lastTime, done, total, weights) && ev[k].Start?
    requires w' == w + Share(ev[k].Time() - lastTime, |running|)
    ensures SweepInv(ev, k + 1, all, running[ev[k].target := w'], w', ev[k].Time(), done, total, weights)
  {
    hide Weight, Share, TableInv, Advanced, DoneInv;
    TableStep(ev, k, all, running, w, lastTime);
    DoneStep(ev, k, all, running, w, w', done, total);
    NotYetStopped(ev, k, all, done, total, ev[k].target);
    StartStep(ev, k, all, running, w, w', ev[k].target);
  }

  lemma StopCase(ev: seq<Event>, k: nat, all: set<Target>, running: map<Target, real>, w: real,
                 lastTime: real, done: seq<Target>, total: real,
                  weights: map<Target, real>, w': real)
    requires k < |ev| && SweepInv(ev, k, all, running, w, lastTime, done, total, weights) && ev[k].Stop?
    requires w' == w + Share(ev[k].Time() - lastTime, |running|)
    ensures var t := ev[k].target;
            && t in all
            && (t in running <==> t.start <= t.end)
            && (t in running ==>
                SweepInv(ev, k + 1, all, running - {t}, w', ev[k].Time(), done + [t],
                         total + (w' - running[t]), weights[t := w' - running[t]]))
  {
    hide Sorted, NoDup, RunningAt, Weight, Share, TableInv, Advanced, DoneInv;
    var t := ev[k].target;
    EntryOfStop(ev, k, all, running, w, t);
    TableStep(ev, k, all, running, w, lastTime);
    DoneStep(ev, k, all, running, w, w', done, total);
    if t in running {
      StopStep(ev, k, all, running, w, w', t);
    }
  }

  lemma FirstEvent(ev: seq<Event>, all: set<Target>)
    requires EventsFor(ev, all)
    ensures SweepInv(ev, 0, all, map[], 0.0, ev[0].Time(), [], 0.0, map[])
  {
  }

  lemma AllStopped(ev: seq<Event>, all: set<Target>, running: map<Target, real>, w: real,
                   lastTime: real, done: seq<Target>, total: real, weights: map<Target, real>)
    requires SweepInv(ev, |ev|, all, running, w, lastTime, done, total, weights)
    ensures forall t :: t in all ==> t.start <= t.end && t in weights && weights[t] == Weight(all, t, Times(ev))
    ensures total == BusyTime(all, Times(ev))
    ensures running == map[]
  {
    hide Weight;
    assert ev[..|ev|] == ev && Times(ev)[..|ev|] == Times(ev);
    forall t | t in all
      ensures t in done && t !in running
    {
      assert Stop(t) in ev;
    }
    assert Elements(done) == all;
    TimesIncrease(ev);
    WeightsAddUp(all, done, Times(ev));
  }

  lemma TimesIncrease(ev: seq<Event>)
    requires Sorted(ev)
    ensures Increasing(Times(ev))
  {
    forall i, j | 0 <= i <= j < |ev|
      ensures ev[i].Time() <= ev[j].Time()
    {
      assert i == j || ev[i].Precedes(ev[j]);
    }
  }

  /** The sweep over sorted events.  `ok` is false when a stop event finds no entry in
      the running table; otherwise the table is empty at the end. */
  method Sweep(ev: seq<Event>, ghost all: set<Target>) returns (ok: bool, total: real)
    requires ev != [] && EventsFor(ev, all)
    modifies all
    ensures ok <==> forall t :: t in all ==> t.start <= t.end
    ensures ok ==> forall t :: t in all ==> t.weightedDuration == Weight(all, t, Times(ev))
    ensures ok ==> total == BusyTime(all, Times(ev))
  {
    hide *;
    var running: map<Target, real> := map[];
    var lastTime, w := ev[0].Time(), 0.0;
    total := 0.0;
    ghost var done: seq<Target>, weights: map<Target, real> := [], map[];
    FirstEvent(ev, all);
    for k := 0 to |ev|
      invariant SweepInv(ev, k, all, running, w, lastTime, done, total, weights)
      invariant forall t :: t in weights ==> t.weightedDuration == weights[t]
    {
      ghost var w0 := w;
      NobodyShares(ev[k].Time() - lastTime);
      if |running| > 0 {
        w := w + Share(ev[k].Time() - lastTime, |running|);
      }
      match ev[k] {
        case Start(t) =>
          StartCase(ev, k, all, running, w0, lastTime, done, total, weights, w);
          running := running[t := w];
        case Stop(t) =>
          StopCase(ev, k, all, running, w0, lastTime, done, total, weights, w);
          if t !in running {
            return false, total;
          }
          var weightedDuration := w - running[t];
          t.weightedDuration := weightedDuration;
          total := total + weightedDuration;
          running := running - {t};
          done, weights := done + [t], weights[t := weightedDuration];
      }
      lastTime := ev[k].Time();
    }
    AllStopped(ev, all, running, w, lastTime, done, total, weights);
    assert |running| == 0;
    ok := true;
  }

  lemma TimesFormGrid(ev: seq<Event>, all: set<Target>)
    requires EventsFor(ev, all)
    ensures IsGrid(Times(ev), all)
  {
    TimesIncrease(ev);
    var ts := Times(ev);
    forall x
      ensures x in ts <==> IsEndpoint(all, x)
    {
      if x in ts {
        var i :| 0 <= i < |ts| && ts[i] == x;
        assert ev[i] in ev && ev[i].Time() == x;
      }
      if IsEndpoint(all, x) {
        var t :| t in all && (x == t.start || x == t.end);
        var e := if x == t.start then Start(t) else Stop(t);
        assert e in ev;
        var i :| 0 <= i < |ev| && ev[i] == e;
        assert ts[i] == x;
      }
    }
  }

  /** Weights, busy time and idle time are the same on every list of the end points. */
  lemma GridIndependent(all: set<Target>, ts: seq<real>, us: seq<real>)
    requires IsGrid(ts, all) && IsGrid(us, all)
    ensures forall t :: t in all ==> Weight(all, t, ts) == Weight(all, t, us)
    ensures BusyTime(all, ts) == BusyTime(all, us)
    ensures IdleTime(all, ts) == IdleTime(all, us)
  {
    forall t | t in all
      ensures Weight(all, t, ts) == Weight(all, t, us)
    {
      IntegralOfSameTimes(Pieces(all, t), ts, us);
    }
    IntegralOfSameTimes((a, b) => Busy(all, a, b), ts, us);
    IntegralOfSameTimes((a, b) => Idle(all, a, b), ts, us);
  }

  /** The extent of the log as the first loop computes it.  The initial -1 stands for
      "no start seen yet", so it needs start times that are not negative. */
  ghost predicate IsExtent(entries: seq<Target>, earliest: real, latest: real) {
    (forall t :: t in entries ==> 0.0 <= t.start <= t.end) ==>
      && (forall t :: t in entries ==> earliest <= t.start && t.end <= latest)
      && (entries == [] ==> earliest < 0.0 && latest == 0.0)
      && (entries != [] ==>
          (exists t :: t in entries && t.start == earliest) && exists t :: t in entries && t.end == latest)
  }

  /** The first loop: extent, processor time and the unsorted events. */
  method CollectEvents(entries: seq<Target>)
    returns (ev: seq<Event>, earliest: real, latest: real, cpuTime: real)
    ensures ev == Events(entries)
    ensures IsExtent(entries, earliest, latest)
    ensures cpuTime == DurationSum(entries)
  {
    ev, earliest, latest, cpuTime := [], -1.0, 0.0, 0.0;
    assert IsExtent([], -1.0, 0.0);
    hide IsExtent;
    for i := 0 to |entries|
      invariant ev == Events(entries[..i])
      invariant IsExtent(entries[..i], earliest, latest)
      invariant cpuTime == DurationSum(entries[..i])
    {
      var target := entries[i];
      ghost var was, e0, l0 := entries[..i], earliest, latest;
      if earliest < 0.0 || target.start < earliest {
        earliest := target.start;
      }
      if target.end > latest {
        latest := target.end;
      }
      cpuTime := cpuTime + target.Duration();
      ev := ev + [Start(target), Stop(target)];
      assert entries[..i + 1] == was + [target];
      ExtendExtent(was, e0, l0, target);
    }
    assert entries[..|entries|] == entries;
  }

  lemma ExtendExtent(s: seq<Target>, earliest: real, latest: real, t: Target)
    requires IsExtent(s, earliest, latest)
    ensures IsExtent(s + [t], if earliest < 0.0 || t.start < earliest then t.start else earliest,
                     if t.end > latest then t.end else latest)
  {
    var r := s + [t];
    if forall x :: x in r ==> 0.0 <= x.start <= x.end {
      assert forall x :: x in s ==> x in r;
      assert r[|s|] == t;
    }
  }

  /** `SummarizeEntries` up to its printing.  For every list of distinct targets:
      the sweep fails exactly when some target stops before it starts; otherwise every
      target gets its reference weight, which lies between its duration shared with all
      others and its duration, and the total is the length of the union. */
  method Summarize(entries: seq<Target>) returns (r: Outcome)
    requires NoDup(entries)
    modifies entries
    ensures r.EmptyLog? <==> entries == []
    ensures r.MissingKey? <==> exists t :: t in entries && t.start > t.end
    ensures r.Done? ==> forall ts :: IsGrid(ts, Elements(entries)) ==>
              && (forall t :: t in entries ==> t.weightedDuration == Weight(Elements(entries), t, ts))
              && r.weightedTotal == BusyTime(Elements(entries), ts)
    ensures r.Done? ==> forall t :: t in entries ==>
              t.Duration() / |entries| as real <= t.weightedDuration <= t.Duration()
    ensures r.Done? ==> r.cpuTime == DurationSum(entries)
    ensures r.Done? && (forall t :: t in entries ==> 0.0 <= t.start) ==>
              forall ts :: IsGrid(ts, Elements(entries)) ==>
                && r.length == r.weightedTotal + IdleTime(Elements(entries), ts)
                && r.weightedTotal <= r.length
  {
    var unsorted, earliest, latest, cpuTime := CollectEvents(entries);
    if entries == [] {
      return EmptyLog;
    }
    var ev := Sort(unsorted);
    ghost var all := Elements(entries);
    SortedEvents(entries, ev);
    var ok, total := Sweep(ev, all);
    if !ok {
      return MissingKey;
    }
    r := Done(latest - earliest, total, cpuTime);
    TimesFormGrid(ev, all);
    forall ts | IsGrid(ts, all)
      ensures forall t :: t in entries ==> t.weightedDuration == Weight(all, t, ts)
      ensures total == BusyTime(all, ts)
    {
      GridIndependent(all, Times(ev), ts);
    }
    forall t | t in entries
      ensures t.Duration() / |entries| as real <= t.weightedDuration <= t.Duration()
    {
      DistinctSize(entries);
      WeightBounds(all, t, Times(ev));
    }
    if forall t :: t in entries ==> 0.0 <= t.start {
      forall ts | IsGrid(ts, all)
        ensures latest - earliest == total + IdleTime(all, ts) && total <= latest - earliest
      {
        LengthOfLog(entries, earliest, latest, ts);
      }
    }
  }

  lemma SortedEvents(entries: seq<Target>, ev: seq<Event>)
    requires NoDup(entries) && entries != [] && Sorted(ev) && multiset(ev) == multiset(Events(entries))
    ensures EventsFor(ev, Elements(entries))
  {
    EventsOf(entries);
    SamePermutation(Events(entries), ev);
    assert Start(entries[0]) in Events(entries);
    forall t | t in Elements(entries)
      ensures Start(t) in ev && Stop(t) in ev
    {
      assert Start(t).target in entries && Stop(t).target in entries;
    }
  }

  lemma LengthOfLog(entries: seq<Target>, earliest: real, latest: real, ts: seq<real>)
    requires entries != [] && IsExtent(entries, earliest, latest) && IsGrid(ts, Elements(entries))
    requires forall t :: t in entries ==> 0.0 <= t.start <= t.end
    ensures latest - earliest == BusyTime(Elements(entries), ts) + IdleTime(Elements(entries), ts)
    ensures IdleTime(Elements(entries), ts) >= 0.0
  {
    var all := Elements(entries);
    var a :| a in entries && a.start == earliest;
    var b :| b in entries && b.end == latest;
    assert IsEndpoint(all, earliest) && IsEndpoint(all, latest);
    assert IsEndpoint(all, ts[0]) && IsEndpoint(all, ts[|ts| - 1]);
    BusyAndIdle(all, ts);
  }
}
