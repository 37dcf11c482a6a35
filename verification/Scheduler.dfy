/** vllm/v1/core/scheduler.py: one scheduling step and the update after the model has run,
    without lookahead and encoder inputs.  What the KV-cache manager answers is arbitrary:
    the answers are parameters, in the order of the calls.

    `Ready` is the state between steps: all running requests but the last one have exactly
    one token to compute.  It makes the scheduler's assertions hold, and a step followed by
    an update restores it, whatever the memory allows and whichever requests stop.  So it
    holds throughout every run of steps, arrivals and aborts (`Serve`), and what becomes of
    every request in every step is determined by the answers (`Scheduled`). */
module Schedulers {
  import opened Numbers
  import opened Options

  datatype Status = Waiting | Preempted | Swapped | Running

  datatype Request = Request(id: nat, numTokens: nat, numComputed: nat, status: Status)

  function Pending(r: Request): int {
    r.numTokens - r.numComputed
  }

  ghost function Ids(s: seq<Request>): multiset<nat> {
    if s == [] then multiset{} else Ids(s[..|s| - 1]) + multiset{s[|s| - 1].id}
  }

  lemma IdsPush(s: seq<Request>, r: Request)
    ensures Ids(s + [r]) == Ids(s) + multiset{r.id}
  {
    assert (s + [r])[..|s|] == s;
  }

  lemma {:induction false} IdsFirst(a: seq<Request>)
    requires a != []
    ensures Ids(a) == Ids(a[1..]) + multiset{a[0].id}
  {
    var n := |a| - 1;
    if n > 0 {
      IdsFirst(a[..n]);
      assert a[..n][1..] == a[1..][..n - 1];
    }
  }

  lemma {:induction false} IdsAppend(a: seq<Request>, b: seq<Request>)
    ensures Ids(a + b) == Ids(a) + Ids(b)
    decreases |b|
  {
    if b == [] {
      assert a + b == a;
    } else {
      var n := |b| - 1;
      assert (a + b)[..|a + b| - 1] == a + b[..n];
      IdsAppend(a, b[..n]);
    }
  }

  function Sum(s: seq<nat>): nat {
    if s == [] then 0 else Sum(s[..|s| - 1]) + s[|s| - 1]
  }

  lemma SumAppend(s: seq<nat>, n: nat)
    ensures Sum(s + [n]) == Sum(s) + n
  {
    assert (s + [n])[..|s|] == s;
  }

  /** All requests have something to compute. */
  ghost predicate Busy(s: seq<Request>) {
    forall i :: 0 <= i < |s| ==> Pending(s[i]) > 0
  }

  /** All requests have been run before. */
  ghost predicate Started(s: seq<Request>) {
    forall i :: 0 <= i < |s| ==> s[i].numComputed > 0
  }

  /** All but the last have one token to compute. */
  ghost predicate OneTokenEach(s: seq<Request>) {
    forall i :: 0 <= i < |s| - 1 ==> Pending(s[i]) == 1
  }

  /** Each request is given tokens, not more than it needs; all but the last are given all
      they need. */
  ghost predicate Given(running: seq<Request>, tokens: seq<nat>) {
    && |tokens| == |running|
    && (forall i :: 0 <= i < |tokens| ==> 0 < tokens[i] <= Pending(running[i]))
    && (forall i :: 0 <= i < |tokens| - 1 ==> tokens[i] == Pending(running[i]))
  }

  ghost predicate LastIsPartial(running: seq<Request>, tokens: seq<nat>) {
    |tokens| == |running| && running != [] && tokens[|tokens| - 1] < Pending(running[|running| - 1])
  }

  // ----- preemption

  /** How many of the first `n` answers are granted. */
  function Granted(answers: nat -> bool, n: nat): nat {
    if n == 0 then 0 else Granted(answers, n - 1) + if answers(n - 1) then 1 else 0
  }

  lemma {:induction false} GrantedStays(answers: nat -> bool, m: nat, n: nat)
    requires m <= n && forall k :: m <= k < n ==> !answers(k)
    ensures Granted(answers, n) == Granted(answers, m)
  {
    if m < n {
      GrantedStays(answers, m, n - 1);
    }
  }

  /** All requests keep their place exactly when every answer is granted. */
  lemma {:induction false} AllGrantedIff(answers: nat -> bool, n: nat)
    ensures Granted(answers, n) <= n
    ensures Granted(answers, n) == n <==> forall k :: 0 <= k < n ==> answers(k)
  {
    if n > 0 {
      AllGrantedIff(answers, n - 1);
    }
  }

  function Victim(r: Request, recompute: bool): Request {
    if recompute then r.(status := Preempted, numComputed := 0) else r.(status := Swapped)
  }

  /** Requests preempted from the end of the list, in the order in which they join the
      waiting ones. */
  function Victims(s: seq<Request>, recompute: bool): seq<Request> {
    if s == [] then [] else Victims(s[1..], recompute) + [Victim(s[0], recompute)]
  }

  /** A preempted request has lost what it has computed, or it is swapped out with it. */
  ghost predicate PreemptedAs(r: Request, v: Request, recompute: bool) {
    && v.id == r.id && v.numTokens == r.numTokens
    && if recompute then v.status.Preempted? && v.numComputed == 0
       else v.status.Swapped? && v.numComputed == r.numComputed
  }

  /** The requests from place `n` on have joined the waiting ones, the last one first. */
  ghost predicate JoinedFromEnd(running: seq<Request>, n: nat, recompute: bool, before: seq<Request>,
                                after: seq<Request>) {
    && n <= |running| && |after| == |before| + |running| - n && before <= after
    && forall k :: n <= k < |running| ==> PreemptedAs(running[k], after[|after| - 1 - (k - n)], recompute)
  }

  lemma {:induction false} VictimsAre(s: seq<Request>, recompute: bool)
    ensures |Victims(s, recompute)| == |s|
    ensures forall k :: 0 <= k < |s| ==> PreemptedAs(s[k], Victims(s, recompute)[|s| - 1 - k], recompute)
  {
    if s != [] {
      VictimsAre(s[1..], recompute);
      var rest, all := Victims(s[1..], recompute), Victims(s, recompute);
      forall k | 0 <= k < |s|
        ensures PreemptedAs(s[k], all[|s| - 1 - k], recompute)
      {
        if k > 0 {
          assert s[1..][k - 1] == s[k] && all[|s| - 1 - k] == rest[|s[1..]| - 1 - (k - 1)];
        }
      }
    }
  }

  lemma VictimsJoin(running: seq<Request>, n: nat, recompute: bool, before: seq<Request>)
    requires n <= |running|
    ensures JoinedFromEnd(running, n, recompute, before, before + Victims(running[n..], recompute))
  {
    hide Victims, PreemptedAs;
    var s := running[n..];
    var after := before + Victims(s, recompute);
    VictimsAre(s, recompute);
    forall k | n <= k < |running|
      ensures PreemptedAs(running[k], after[|after| - 1 - (k - n)], recompute)
    {
      assert s[k - n] == running[k];
      assert after[|after| - 1 - (k - n)] == Victims(s, recompute)[|s| - 1 - (k - n)];
    }
  }

  lemma {:induction false} VictimsSplit(s: seq<Request>, n: nat, recompute: bool)
    requires n <= |s|
    ensures Victims(s, recompute) == Victims(s[n..], recompute) + Victims(s[..n], recompute)
  {
    if n == 0 {
      assert s[0..] == s && s[..0] == [];
    } else {
      VictimsSplit(s[1..], n - 1, recompute);
      assert s[1..][n - 1..] == s[n..] && s[1..][..n - 1] == s[..n][1..];
    }
  }

  lemma {:induction false} VictimsKeep(s: seq<Request>, recompute: bool)
    requires Busy(s)
    ensures Busy(Victims(s, recompute)) && Ids(Victims(s, recompute)) == Ids(s)
  {
    hide Ids, Busy;
    if s == [] {
      NoIds(multiset{});
    } else {
      BusySuffix(s);
      BusyAt(s, 0);
      VictimsKeep(s[1..], recompute);
      IdsFirst(s);
      IdsPush(Victims(s[1..], recompute), Victim(s[0], recompute));
      BusyPush(Victims(s[1..], recompute), Victim(s[0], recompute));
    }
  }

  /** The running requests as far as the answers reach, and the others waiting. */
  ghost predicate RunDone(answers: nat -> bool, recompute: bool, before: Snap, after: Snap) {
    var n := Granted(answers, |before.running|);
    && n <= |before.running| && after.running == before.running[..n]
    && after.waiting == before.waiting + Victims(before.running[n..], recompute)
    && JoinedFromEnd(before.running, n, recompute, before.waiting, after.waiting)
  }

  lemma RunIsDone(answers: nat -> bool, recompute: bool, before: Snap, after: Snap)
    requires Granted(answers, |before.running|) == |after.running| <= |before.running|
    requires after.running == before.running[..|after.running|]
    requires after.waiting == before.waiting + Victims(before.running[|after.running|..], recompute)
    ensures RunDone(answers, recompute, before, after)
  {
    hide Granted, Victims, JoinedFromEnd;
    VictimsJoin(before.running, |after.running|, recompute, before.waiting);
  }

  lemma RunKeepsIds(answers: nat -> bool, recompute: bool, before: Snap, after: Snap)
    requires RunDone(answers, recompute, before, after) && Busy(before.running) && Busy(before.waiting)
    ensures Busy(after.running) && Busy(after.waiting)
    ensures Ids(after.running) + Ids(after.waiting) == Ids(before.running) + Ids(before.waiting)
  {
    hide Ids, Granted, Victims, JoinedFromEnd;
    var all, n := before.running, |after.running|;
    VictimsKeep(all[n..], recompute);
    IdsAppend(all[..n], all[n..]);
    assert all[..n] + all[n..] == all;
    IdsAppend(before.waiting, Victims(all[n..], recompute));
  }

  // ----- swapping out early

  /** The waiting requests in a new order, and the running ones to be swapped out, by their
      places and in the order in which they join the waiting ones. */
  datatype Early = Early(order: seq<Request>, out: seq<nat>)

  ghost predicate EarlyFits(e: Early, running: seq<Request>, waiting: seq<Request>) {
    && multiset(e.order) == multiset(waiting)
    && (forall k :: 0 <= k < |e.out| ==> e.out[k] < |running| && Pending(running[e.out[k]]) == 1)
    && forall k, l :: 0 <= k < l < |e.out| ==> e.out[k] != e.out[l]
  }

  /** The requests at other places. */
  function Remaining(s: seq<Request>, gone: seq<nat>): seq<Request> {
    if s == [] then []
    else Remaining(s[..|s| - 1], gone) + if |s| - 1 in gone then [] else [s[|s| - 1]]
  }

  function SwappedOf(s: seq<Request>, out: seq<nat>): seq<Request>
    requires forall k :: 0 <= k < |out| ==> out[k] < |s|
  {
    seq(|out|, k requires 0 <= k < |out| => s[out[k]].(status := Swapped))
  }

  lemma {:induction false} RemainingAll(s: seq<Request>)
    ensures Remaining(s, []) == s
  {
    if s != [] {
      RemainingAll(s[..|s| - 1]);
    }
  }

  /** The requests at some places, in order. */
  ghost predicate AtPlaces(part: seq<Request>, s: seq<Request>, places: seq<nat>) {
    && |part| == |places| && (forall k :: 0 <= k < |places| ==> places[k] < |s| && part[k] == s[places[k]])
    && forall k, l :: 0 <= k < l < |places| ==> places[k] < places[l]
  }

  lemma AtOnePlaceMore(part: seq<Request>, s: seq<Request>, places: seq<nat>, more: bool)
    requires s != [] && AtPlaces(part, s[..|s| - 1], places)
    ensures AtPlaces(part + (if more then [s[|s| - 1]] else []), s, places + if more then [|s| - 1] else [])
  {
  }

  lemma {:induction false} RemainingAre(s: seq<Request>, gone: seq<nat>) returns (places: seq<nat>)
    ensures AtPlaces(Remaining(s, gone), s, places) && forall i: nat :: i in places <==> i < |s| && i !in gone
  {
    places := [];
    if s != [] {
      var n := |s| - 1;
      places := RemainingAre(s[..n], gone);
      AtOnePlaceMore(Remaining(s[..n], gone), s, places, n !in gone);
      places := places + if n !in gone then [n] else [];
    }
  }

  lemma {:induction false} RemainingKeeps(s: seq<Request>, gone: seq<nat>)
    ensures |Remaining(s, gone)| <= |s|
    ensures Busy(s) ==> Busy(Remaining(s, gone))
    ensures Started(s) ==> Started(Remaining(s, gone))
    ensures AllOne(s) ==> AllOne(Remaining(s, gone))
    ensures OneTokenEach(s) ==> OneTokenEach(Remaining(s, gone))
  {
    if s != [] {
      var n := |s| - 1;
      RemainingKeeps(s[..n], gone);
      if OneTokenEach(s) {
        assert AllOne(s[..n]);
      }
    }
  }

  lemma {:induction false} RemainingLess(s: seq<Request>, gone: seq<nat>, v: nat)
    requires v !in gone
    ensures Ids(Remaining(s, gone)) == Ids(Remaining(s, gone + [v])) + if v < |s| then multiset{s[v].id} else multiset{}
  {
    hide Ids;
    if s != [] {
      var n := |s| - 1;
      var kept, fewer := Remaining(s[..n], gone), Remaining(s[..n], gone + [v]);
      RemainingLess(s[..n], gone, v);
      if n in gone {
        assert kept + [] == kept && fewer + [] == fewer;
      } else if n == v {
        assert fewer + [] == fewer;
        IdsPush(kept, s[n]);
      } else {
        IdsPush(kept, s[n]);
        IdsPush(fewer, s[n]);
      }
    }
  }

  lemma IdsRemove(b: seq<Request>, j: nat)
    requires j < |b|
    ensures var c := b[..j] + b[j + 1..];
            multiset(c) == multiset(b) - multiset{b[j]} && Ids(b) == Ids(c) + multiset{b[j].id}
  {
    hide Ids;
    assert b == b[..j] + [b[j]] + b[j + 1..];
    IdsAppend(b[..j], b[j + 1..]);
    IdsAppend(b[..j] + [b[j]], b[j + 1..]);
    IdsPush(b[..j], b[j]);
  }

  lemma {:induction false} IdsPermuted(a: seq<Request>, b: seq<Request>)
    requires multiset(a) == multiset(b)
    ensures Ids(a) == Ids(b)
  {
    hide Ids;
    if a == [] {
      assert |multiset(b)| == 0;
    } else {
      var n := |a| - 1;
      IdsRemove(a, n);
      assert a[..n] + a[n + 1..] == a[..n];
      assert a[n] in multiset(b);
      var j :| 0 <= j < |b| && b[j] == a[n];
      IdsRemove(b, j);
      IdsPermuted(a[..n], b[..j] + b[j + 1..]);
    }
  }

  lemma BusyPermuted(a: seq<Request>, b: seq<Request>)
    requires multiset(a) == multiset(b)
    ensures Busy(a) <==> Busy(b)
  {
    forall i | 0 <= i < |a|
      ensures a[i] in b
    {
      assert a[i] in multiset(a);
    }
    forall i | 0 <= i < |b|
      ensures b[i] in a
    {
      assert b[i] in multiset(b);
    }
  }

  ghost predicate EarlyDone(early: Option<Early>, before: Snap, after: Snap) {
    match early
    case None => after == before
    case Some(e) =>
      && EarlyFits(e, before.running, before.waiting)
      && after.running == Remaining(before.running, e.out)
      && after.waiting == e.order + SwappedOf(before.running, e.out)
  }

  // ----- admission

  /** A new request is passed over while the CPU blocks are nearly used up. */
  predicate Skipped(r: Request, cpuFull: bool) {
    cpuFull && r.status.Waiting?
  }

  function Taken(s: seq<Request>, cpuFull: bool): seq<Request> {
    if s == [] then []
    else Taken(s[..|s| - 1], cpuFull) + if Skipped(s[|s| - 1], cpuFull) then [] else [s[|s| - 1]]
  }

  function PassedOver(s: seq<Request>, cpuFull: bool): seq<Request> {
    if s == [] then []
    else PassedOver(s[..|s| - 1], cpuFull) + if Skipped(s[|s| - 1], cpuFull) then [s[|s| - 1]] else []
  }

  /** An admitted request: a swapped-out one may have computed more than the cache knows. */
  function StartOf(r: Request, cached: nat): Request {
    r.(status := Running, numComputed := if r.status.Swapped? && r.numComputed > cached then r.numComputed else cached)
  }

  ghost predicate AllAdmitted(s: seq<Request>, admitted: (nat, Request) -> Option<nat>) {
    forall k :: 0 <= k < |s| ==> admitted(k, s[k]).Some?
  }

  ghost function Starts(s: seq<Request>, admitted: (nat, Request) -> Option<nat>): seq<Request>
    requires AllAdmitted(s, admitted)
  {
    seq(|s|, k requires 0 <= k < |s| => StartOf(s[k], admitted(k, s[k]).value))
  }

  /** An admitted request goes on from what the cache knows, or from where it was swapped out
      if that is further. */
  ghost predicate AdmittedAs(r: Request, v: Request, cached: nat) {
    && v.id == r.id && v.numTokens == r.numTokens && v.status.Running?
    && cached <= v.numComputed && (r.status.Swapped? ==> r.numComputed <= v.numComputed)
    && (v.numComputed == cached || (r.status.Swapped? && v.numComputed == r.numComputed))
  }

  lemma StartsAre(s: seq<Request>, admitted: (nat, Request) -> Option<nat>, k: nat)
    requires AllAdmitted(s, admitted) && k < |s|
    ensures AdmittedAs(s[k], Starts(s, admitted)[k], admitted(k, s[k]).value)
  {
  }

  /** Only new requests are passed over, and only while CPU blocks are scarce. */
  lemma {:induction false} TakenAre(s: seq<Request>, cpuFull: bool)
    ensures forall r :: r in Taken(s, cpuFull) <==> r in s && !(cpuFull && r.status.Waiting?)
    ensures forall r :: r in PassedOver(s, cpuFull) <==> r in s && cpuFull && r.status.Waiting?
    ensures !cpuFull ==> Taken(s, cpuFull) == s && PassedOver(s, cpuFull) == []
  {
    if s != [] {
      var n := |s| - 1;
      TakenAre(s[..n], cpuFull);
      assert s == s[..n] + [s[n]];
    }
  }

  /** Some of the waiting requests have been considered, in order: those not passed over now
      run, the others wait behind the rest. */
  ghost predicate WaitDone(admitted: (nat, Request) -> Option<nat>, cpuFull: bool, considered: nat, before: Snap,
                           after: Snap) {
    && considered <= |before.waiting|
    && var seen := before.waiting[..considered];
    && AllAdmitted(Taken(seen, cpuFull), admitted)
    && after.running == before.running + Starts(Taken(seen, cpuFull), admitted)
    && after.waiting == before.waiting[considered..] + PassedOver(seen, cpuFull)
  }

  /** Every request that has started was waiting, was not passed over, and goes on from where
      it should; every request passed over is new. */
  ghost predicate StartedRightly(admitted: (nat, Request) -> Option<nat>, cpuFull: bool, considered: nat, before: Snap,
                                 after: Snap) {
    var n := |before.running|;
    && considered <= |before.waiting| && before.running <= after.running
    && (forall k :: n <= k < |after.running| ==>
          StartedFrom(admitted, cpuFull, before.waiting, k - n, after.running[k]))
    && (!cpuFull ==> |after.running| == n + considered && after.waiting == before.waiting[considered..])
    && |after.waiting| >= |before.waiting| - considered
    && forall k :: |before.waiting| - considered <= k < |after.waiting| ==>
         cpuFull && after.waiting[k].status.Waiting? && after.waiting[k] in before.waiting
  }

  ghost predicate StartedFrom(admitted: (nat, Request) -> Option<nat>, cpuFull: bool, waiting: seq<Request>, k: nat,
                              v: Request) {
    exists r :: r in waiting && !(cpuFull && r.status.Waiting?) && admitted(k, r).Some? &&
                AdmittedAs(r, v, admitted(k, r).value)
  }

  lemma WaitDoneMeans(admitted: (nat, Request) -> Option<nat>, cpuFull: bool, considered: nat, before: Snap,
                      after: Snap)
    requires WaitDone(admitted, cpuFull, considered, before, after)
    ensures StartedRightly(admitted, cpuFull, considered, before, after)
  {
    hide Taken, PassedOver, AdmittedAs, Starts;
    var seen, n := before.waiting[..considered], |before.running|;
    var taken := Taken(seen, cpuFull);
    TakenAre(seen, cpuFull);
    StartsLength(taken, admitted);
    forall k | n <= k < |after.running|
      ensures StartedFrom(admitted, cpuFull, before.waiting, k - n, after.running[k])
    {
      StartsAre(taken, admitted, k - n);
      assert taken[k - n] in taken;
      assert taken[k - n] in before.waiting;
    }
    var rest := |before.waiting| - considered;
    forall k | rest <= k < |after.waiting|
      ensures cpuFull && after.waiting[k].status.Waiting? && after.waiting[k] in before.waiting
    {
      assert after.waiting[k] == PassedOver(seen, cpuFull)[k - rest];
      assert after.waiting[k] in PassedOver(seen, cpuFull);
    }
  }

  lemma StartsLength(s: seq<Request>, admitted: (nat, Request) -> Option<nat>)
    requires AllAdmitted(s, admitted)
    ensures |Starts(s, admitted)| == |s|
  {
  }

  /** Nothing more can be admitted. */
  ghost predicate Full(running: seq<Request>, tokens: seq<nat>, budget: nat, maxRunning: nat) {
    LastIsPartial(running, tokens) || |running| == maxRunning || budget == 0
  }

  /** Why the next waiting request was not considered, or refused; and that the last one was
      considered rightly. */
  ghost predicate StoppedRightly(admitted: (nat, Request) -> Option<nat>, cpuFull: bool, considered: nat,
                                 waiting: seq<Request>, full: bool) {
    && considered <= |waiting|
    && (considered < |waiting| && !full ==>
          && !Skipped(waiting[considered], cpuFull)
          && admitted(|Taken(waiting[..considered], cpuFull)|, waiting[considered]).None?)
    && (0 < considered && Skipped(waiting[considered - 1], cpuFull) ==> !full)
  }

  lemma TakenNext(s: seq<Request>, n: nat, cpuFull: bool)
    requires n < |s|
    ensures Taken(s[..n + 1], cpuFull) == Taken(s[..n], cpuFull) + if Skipped(s[n], cpuFull) then [] else [s[n]]
    ensures PassedOver(s[..n + 1], cpuFull) ==
            PassedOver(s[..n], cpuFull) + if Skipped(s[n], cpuFull) then [s[n]] else []
  {
    assert s[..n + 1][..n] == s[..n];
  }

  lemma StartsNext(s: seq<Request>, r: Request, admitted: (nat, Request) -> Option<nat>)
    requires AllAdmitted(s, admitted) && admitted(|s|, r).Some?
    ensures AllAdmitted(s + [r], admitted)
    ensures Starts(s + [r], admitted) == Starts(s, admitted) + [StartOf(r, admitted(|s|, r).value)]
  {
  }

  lemma {:induction false} TakenIds(s: seq<Request>, cpuFull: bool)
    ensures Ids(Taken(s, cpuFull)) + Ids(PassedOver(s, cpuFull)) == Ids(s)
  {
    hide Ids;
    if s == [] {
      NoIds(Ids([]));
    } else {
      var n := |s| - 1;
      var taken, over := Taken(s[..n], cpuFull), PassedOver(s[..n], cpuFull);
      TakenIds(s[..n], cpuFull);
      assert taken + [] == taken && over + [] == over;
      assert s == s[..n] + [s[n]];
      IdsPush(s[..n], s[n]);
      IdsPush(taken, s[n]);
      IdsPush(over, s[n]);
      OneMore(Ids(taken), Ids(over), s[n].id);
    }
  }

  lemma {:induction false} SameIds(s: seq<Request>, t: seq<Request>)
    requires |s| == |t| && forall k :: 0 <= k < |s| ==> s[k].id == t[k].id
    ensures Ids(s) == Ids(t)
  {
    if s != [] {
      SameIds(s[..|s| - 1], t[..|t| - 1]);
    }
  }

  lemma WaitKeepsIds(admitted: (nat, Request) -> Option<nat>, cpuFull: bool, considered: nat, before: Snap, after: Snap)
    requires WaitDone(admitted, cpuFull, considered, before, after)
    ensures Ids(after.running) + Ids(after.waiting) == Ids(before.running) + Ids(before.waiting)
  {
    hide Ids, Taken, PassedOver;
    var seen, rest := before.waiting[..considered], before.waiting[considered..];
    var taken := Taken(seen, cpuFull);
    TakenIds(seen, cpuFull);
    SameIds(taken, Starts(taken, admitted));
    IdsAppend(before.running, Starts(taken, admitted));
    IdsAppend(rest, PassedOver(seen, cpuFull));
    IdsAppend(seen, rest);
    assert seen + rest == before.waiting;
  }

  // ----- a step

  /** Running and waiting requests. */
  datatype Snap = Snap(running: seq<Request>, waiting: seq<Request>)

  /** One scheduling step: the state before it, after swapping out early, after the loop over
      the running requests, and after that over the waiting ones; how many of these were
      considered; and the tokens given to each request that runs. */
  datatype Step = Step(before: Snap, early: Snap, ran: Snap, planned: Snap, considered: nat, tokens: seq<nat>)

  /** What the world answers in a step. */
  datatype World = World(early: (seq<Request>, seq<Request>) -> Option<Early>, answers: nat -> bool, recompute: bool,
                         admitted: (nat, Request) -> Option<nat>, cpuFull: bool, stops: Request -> bool)

  /** The manager never finds all tokens of a waiting request cached, and the choice of
      requests to be swapped out early is one of running requests that need one token. */
  ghost predicate Sensible(w: World) {
    && (forall k, r :: w.admitted(k, r).Some? ==> w.admitted(k, r).value < r.numTokens)
    && forall running, waiting :: w.early(running, waiting).Some? ==>
         EarlyFits(w.early(running, waiting).value, running, waiting)
  }

  /** Waiting requests are considered unless some request was preempted for lack of room; but
      if any was swapped out early, they are considered in any case. */
  ghost predicate Admitting(early: Option<Early>, st: Step) {
    |st.ran.running| == |st.early.running| || (early.Some? && early.value.out != [])
  }

  ghost predicate Scheduled(early: Option<Early>, answers: nat -> bool, recompute: bool,
                            admitted: (nat, Request) -> Option<nat>,
                            cpuFull: bool, maxRunning: nat, maxScheduled: nat, st: Step) {
    && EarlyDone(early, st.before, st.early) && RunDone(answers, recompute, st.early, st.ran)
    && Given(st.planned.running, st.tokens) && Sum(st.tokens) <= maxScheduled && |st.planned.running| <= maxRunning
    && (LastIsPartial(st.planned.running, st.tokens) ==> Sum(st.tokens) == maxScheduled)
    && if Admitting(early, st) then
         && WaitDone(admitted, cpuFull, st.considered, st.ran, st.planned)
         && StartedRightly(admitted, cpuFull, st.considered, st.ran, st.planned)
         && StoppedRightly(admitted, cpuFull, st.considered, st.ran.waiting,
                           Full(st.planned.running, st.tokens, maxScheduled - Sum(st.tokens), maxRunning))
       else st.planned == st.ran
  }

  /** When nothing is swapped out early and the manager grants everything, all running
      requests go on. */
  lemma NobodyPreempted(answers: nat -> bool, recompute: bool, admitted: (nat, Request) -> Option<nat>, cpuFull: bool,
                        maxRunning: nat, maxScheduled: nat, st: Step)
    requires Scheduled(None, answers, recompute, admitted, cpuFull, maxRunning, maxScheduled, st)
    ensures (forall k :: 0 <= k < |st.before.running| ==> answers(k)) <==> st.before.running <= st.planned.running
  {
    hide Granted, Victims, Given, Sum, StoppedRightly, Taken, PassedOver;
    AllGrantedIff(answers, |st.before.running|);
  }

  datatype Event = Arrive(id: nat, numTokens: nat) | Abort(ids: set<nat>) | Cycle(world: World)

  function Without(s: seq<Request>, ids: set<nat>): seq<Request> {
    if s == [] then []
    else Without(s[..|s| - 1], ids) + if s[|s| - 1].id in ids then [] else [s[|s| - 1]]
  }

  lemma {:induction false} WithoutKeeps(s: seq<Request>, ids: set<nat>)
    ensures |Without(s, ids)| <= |s|
    ensures Busy(s) ==> Busy(Without(s, ids))
    ensures Started(s) ==> Started(Without(s, ids))
    ensures AllOne(s) ==> AllOne(Without(s, ids))
    ensures OneTokenEach(s) ==> OneTokenEach(Without(s, ids))
  {
    if s != [] {
      var n := |s| - 1;
      WithoutKeeps(s[..n], ids);
      if OneTokenEach(s) {
        assert AllOne(s[..n]);
      }
    }
  }

  /** The others keep their order. */
  lemma {:induction false} WithoutAre(s: seq<Request>, ids: set<nat>) returns (places: seq<nat>)
    ensures AtPlaces(Without(s, ids), s, places) && forall i: nat :: i in places <==> i < |s| && s[i].id !in ids
  {
    places := [];
    if s != [] {
      var n := |s| - 1;
      places := WithoutAre(s[..n], ids);
      AtOnePlaceMore(Without(s[..n], ids), s, places, s[n].id !in ids);
      places := places + if s[n].id !in ids then [n] else [];
    }
  }

  /** Exactly the aborted requests are gone. */
  lemma {:induction false} WithoutIds(s: seq<Request>, ids: set<nat>, id: nat)
    ensures Ids(Without(s, ids))[id] == if id in ids then 0 else Ids(s)[id]
  {
    if s != [] {
      var n := |s| - 1;
      WithoutIds(s[..n], ids, id);
      assert Without(s[..n], ids) + [] == Without(s[..n], ids);
      IdsPush(Without(s[..n], ids), s[n]);
    }
  }

  ghost predicate ReadyAt(maxRunning: nat, maxScheduled: nat, s: Snap) {
    && 0 < maxRunning <= maxScheduled && |s.running| <= maxRunning
    && Busy(s.running) && OneTokenEach(s.running) && Started(s.running) && Busy(s.waiting)
  }

  /** What an event does. */
  ghost predicate Happened(maxRunning: nat, maxScheduled: nat, e: Event, st: Step, after: Snap) {
    match e
    case Arrive(id, numTokens) =>
      after == if numTokens == 0 then st.before
               else st.before.(waiting := st.before.waiting + [Request(id, numTokens, 0, Waiting)])
    case Abort(ids) => after == Snap(Without(st.before.running, ids), Without(st.before.waiting, ids))
    case Cycle(w) =>
      && Scheduled(w.early(st.before.running, st.before.waiting), w.answers, w.recompute, w.admitted, w.cpuFull,
                   maxRunning, maxScheduled, st)
      && |st.planned.running| == |st.tokens|
      && after == Snap(After(st.planned.running, st.tokens, w.stops, |st.tokens|), st.planned.waiting)
  }

  class Scheduler {
    const maxRunning: nat
    const maxScheduled: nat
    var running: seq<Request>
    var waiting: seq<Request>

    ghost function Now(): Snap
      reads this
    {
      Snap(running, waiting)
    }

    ghost predicate Ready()
      reads this
    {
      ReadyAt(maxRunning, maxScheduled, Now())
    }

    /** The configuration is refused unless the token budget covers one token for each
        running request. */
    constructor (maxRunning: nat, maxScheduled: nat)
      requires 0 < maxRunning <= maxScheduled
      ensures Ready() && running == [] && waiting == []
      ensures this.maxRunning == maxRunning && this.maxScheduled == maxScheduled
    {
      this.maxRunning, this.maxScheduled := maxRunning, maxScheduled;
      running, waiting := [], [];
    }

    method AddRequest(id: nat, numTokens: nat)
      requires Ready() && numTokens > 0
      modifies this`waiting
      ensures Ready() && waiting == old(waiting) + [Request(id, numTokens, 0, Waiting)]
    {
      waiting := waiting + [Request(id, numTokens, 0, Waiting)];
    }

    /** `finish_requests`: the requests are taken out of both lists. */
    method FinishRequests(ids: set<nat>)
      requires Ready()
      modifies this`running, this`waiting
      ensures Ready() && running == Without(old(running), ids) && waiting == Without(old(waiting), ids)
      ensures forall id :: Ids(running)[id] == (if id in ids then 0 else Ids(old(running))[id])
      ensures forall id :: Ids(waiting)[id] == (if id in ids then 0 else Ids(old(waiting))[id])
    {
      hide Busy, OneTokenEach, Started, Without, Ids;
      WithoutKeeps(running, ids);
      WithoutKeeps(waiting, ids);
      forall id
        ensures Ids(Without(running, ids))[id] == if id in ids then 0 else Ids(running)[id]
        ensures Ids(Without(waiting, ids))[id] == if id in ids then 0 else Ids(waiting)[id]
      {
        WithoutIds(running, ids, id);
        WithoutIds(waiting, ids, id);
      }
      running, waiting := Without(running, ids), Without(waiting, ids);
    }

    /** `schedule_early`: the waiting requests are sorted, and some of the running ones that
        need one token are swapped out. */
    method SwapOutEarly(e: Early)
      requires Ready() && EarlyFits(e, running, waiting)
      modifies this`running, this`waiting
      ensures Ready() && EarlyDone(Some(e), old(Now()), Now())
      ensures Ids(running) + Ids(waiting) == old(Ids(running) + Ids(waiting))
    {
      hide Ids, Busy, OneTokenEach, Started, Remaining;
      var all := running;
      IdsPermuted(e.order, waiting);
      BusyPermuted(e.order, waiting);
      RemainingAll(all);
      waiting := e.order;
      for k := 0 to |e.out|
        invariant running == Remaining(all, e.out[..k]) && Busy(waiting)
        invariant waiting == e.order + SwappedOf(all, e.out[..k])
        invariant Ids(running) + Ids(waiting) == old(Ids(running) + Ids(waiting))
      {
        var v := e.out[k];
        var r := all[v].(status := Swapped);
        assert e.out[..k + 1] == e.out[..k] + [v];
        RemainingLess(all, e.out[..k], v);
        IdsPush(waiting, r);
        BusyPush(waiting, r);
        waiting := waiting + [r];
        running := Remaining(all, e.out[..k + 1]);
      }
      assert e.out[..|e.out|] == e.out;
      RemainingKeeps(all, e.out);
    }

    /** The loop of `schedule_single_running_request`: requests are preempted from the end
        of the list until there is room for request `i`, or it has been preempted itself.
        The answers of the manager are numbered from `call` on. */
    method MakeRoom(i: nat, answers: nat -> bool, call: nat, recompute: bool) returns (can: bool, next: nat)
      requires i < |running|
      modifies this`running, this`waiting
      ensures running <= old(running) && i <= |running| && (can <==> i < |running|)
      ensures waiting == old(waiting) + Victims(old(running)[|running|..], recompute)
      ensures JoinedFromEnd(old(running), |running|, recompute, old(waiting), waiting)
      // one refusal for each victim, and then a grant
      ensures next == call + |old(running)| - |running| + if can then 1 else 0
      ensures forall k :: call <= k < call + |old(running)| - |running| ==> !answers(k)
      ensures can ==> answers(next - 1)
    {
      next := call;
      ghost var all := running;
      assert all[|all|..] == [];
      while true
        invariant running == all[..|running|] && i < |running| <= |all| && next == call + |all| - |running|
        invariant waiting == old(waiting) + Victims(all[|running|..], recompute)
        invariant forall k :: call <= k < next ==> !answers(k)
        decreases |running|
      {
        next := next + 1;
        if answers(next - 1) {
          VictimsJoin(all, |running|, recompute, old(waiting));
          return true, next;
        }
        var n := |running| - 1;
        assert all[n..][1..] == all[n + 1..];
        waiting := waiting + [Victim(running[n], recompute)];
        running := running[..n];
        if |running| == i {
          VictimsJoin(all, |running|, recompute, old(waiting));
          return false, next;
        }
      }
    }

    /** The loop over the running requests.  Its assertions hold: no request is partial and
        the budget is not used up when another one is considered.  The manager is asked once
        for each request, and as many of them go on as it grants. */
    method ScheduleRunning(answers: nat -> bool, recompute: bool) returns (tokens: seq<nat>, budget: nat, partial: bool)
      requires Ready()
      modifies this`running, this`waiting
      ensures RunDone(answers, recompute, old(Now()), Now())
      ensures Given(running, tokens) && Started(running) && Busy(running) && Busy(waiting)
      ensures (partial <==> LastIsPartial(running, tokens)) && (partial ==> budget == 0)
      ensures Sum(tokens) + budget == maxScheduled
      ensures Ids(running) + Ids(waiting) == old(Ids(running) + Ids(waiting))
    {
      hide Ids, Busy, OneTokenEach, Sum, Granted, Victims, Passed, Given, LastIsPartial, Started, JoinedFromEnd,
           RunDone;
      var all := running;
      tokens, budget, partial := [], maxScheduled, false;
      var call := 0;
      RunStarts(answers, recompute, all, maxScheduled);
      while |tokens| < |running|
        invariant |tokens| <= |running| <= |all| && running == all[..|running|]
        invariant waiting == old(waiting) + Victims(all[|running|..], recompute)
        invariant call == |tokens| + |all| - |running| && Granted(answers, call) == |tokens|
        invariant Passed(all, tokens, budget, partial, maxScheduled)
        decreases |running| - |tokens|
      {
        var i := |tokens|;
        PassedSoFar(all, tokens, budget, partial, maxScheduled, maxRunning);
        assert !partial;
        assert budget > 0;
        var request := running[i];
        var numNew := Min(Pending(request), budget);
        assert numNew > 0;
        ghost var before, asked := running, call;
        var can;
        can, call := MakeRoom(i, answers, call, recompute);
        MoreVictims(all, |before|, |running|, recompute);
        AskedAgain(answers, asked, call, can);
        if !can {
          break;
        }
        PassedNext(all, tokens, budget, partial, maxScheduled, numNew);
        tokens := tokens + [numNew];
        budget := budget - numNew;
        partial := request.numComputed + numNew < request.numTokens;
      }
      PassedAll(all, running, tokens, budget, partial, maxScheduled);
      RunIsDone(answers, recompute, old(Now()), Now());
      RunKeepsIds(answers, recompute, old(Now()), Now());
    }

    /** The loop over the waiting requests.  `admitted` says how many tokens of a request
        are computed already when the manager finds room for it. */
    method ScheduleWaiting(given: seq<nat>, left: nat, partialBefore: bool, admitted: (nat, Request) -> Option<nat>,
                           cpuFull: bool)
      returns (tokens: seq<nat>, budget: nat, ghost considered: nat)
      requires Given(running, given) && |running| <= maxRunning && Busy(running) && Busy(waiting)
      requires (partialBefore <==> LastIsPartial(running, given)) && (partialBefore ==> left == 0)
      requires Sum(given) + left == maxScheduled
      requires forall k, r :: admitted(k, r).Some? ==> admitted(k, r).value < r.numTokens
      modifies this`running, this`waiting
      ensures WaitDone(admitted, cpuFull, considered, old(Now()), Now())
      ensures StartedRightly(admitted, cpuFull, considered, old(Now()), Now())
      ensures StoppedRightly(admitted, cpuFull, considered, old(waiting), Full(running, tokens, budget, maxRunning))
      ensures Given(running, tokens) && |running| <= maxRunning && Busy(running) && Busy(waiting)
      ensures given <= tokens && Sum(tokens) + budget == maxScheduled
      ensures (LastIsPartial(running, tokens) ==> budget == 0)
      ensures Ids(running) + Ids(waiting) == old(Ids(running) + Ids(waiting))
    {
      hide Ids, Busy, Sum, Given, LastIsPartial, Taken, PassedOver, Starts, AllAdmitted, Skipped, Min;
      tokens, budget := given, left;
      var partial, excluded, call := partialBefore, [], 0;
      ghost var all, was := waiting, running;
      ghost var taken: seq<Request> := [];
      considered := 0;
      NoIds(multiset{});
      NothingTaken(all, was, cpuFull, admitted);
      while waiting != []
        invariant Given(running, tokens) && |running| <= maxRunning && Busy(running) && Busy(waiting) && Busy(excluded)
        invariant (partial <==> LastIsPartial(running, tokens)) && (partial ==> budget == 0)
        invariant given <= tokens && Sum(tokens) + budget == maxScheduled
        invariant considered <= |all| && waiting == all[considered..]
        invariant excluded == PassedOver(all[..considered], cpuFull)
        invariant taken == Taken(all[..considered], cpuFull) && call == |taken|
        invariant AllAdmitted(taken, admitted) && running == was + Starts(taken, admitted)
        invariant 0 < considered && Skipped(all[considered - 1], cpuFull) ==>
                    !partial && |running| < maxRunning && budget > 0
        decreases |waiting|
      {
        if partial || |running| == maxRunning || budget == 0 {
          break;
        }
        var request := waiting[0];
        BusyAt(waiting, 0);
        BusySuffix(waiting);
        TakenNext(all, considered, cpuFull);
        assert request == all[considered] && waiting[1..] == all[considered + 1..];
        if Skipped(request, cpuFull) {
          BusyPush(excluded, request);
          excluded := excluded + [request];
          waiting := waiting[1..];
          considered := considered + 1;
          continue;
        }
        var a := admitted(call, request);
        if a.None? {
          break;
        }
        StartsNext(taken, request, admitted);
        var started := StartOf(request, a.value);
        var numNew := Min(request.numTokens - started.numComputed, budget);
        SumAppend(tokens, numNew);
        BusyPush(running, started);
        GivenPush(running, tokens, started, numNew);
        taken := taken + [request];
        call := call + 1;
        running := running + [started];
        waiting := waiting[1..];
        considered := considered + 1;
        tokens := tokens + [numNew];
        budget := budget - numNew;
        partial := started.numComputed + numNew < request.numTokens;
      }
      BusyAppend(waiting, excluded);
      waiting := waiting + excluded;
      WaitKeepsIds(admitted, cpuFull, considered, old(Now()), Now());
      WaitDoneMeans(admitted, cpuFull, considered, old(Now()), Now());
    }

    /** `schedule`: every running request is given tokens, within the budget, and only the
        last one may be given fewer than it needs.  No request is lost. */
    method Schedule(early: Option<Early>, answers: nat -> bool, recompute: bool,
                    admitted: (nat, Request) -> Option<nat>, cpuFull: bool) returns (tokens: seq<nat>, ghost st: Step)
      requires Ready() && (early.Some? ==> EarlyFits(early.value, running, waiting))
      requires forall k, r :: admitted(k, r).Some? ==> admitted(k, r).value < r.numTokens
      modifies this`running, this`waiting
      ensures Scheduled(early, answers, recompute, admitted, cpuFull, maxRunning, maxScheduled, st)
      ensures st.before == old(Now()) && st.planned == Now() && st.tokens == tokens && |tokens| == |running|
      ensures Busy(running) && Busy(waiting)
      ensures Ids(running) + Ids(waiting) == old(Ids(running) + Ids(waiting))
    {
      hide Ids, Busy, OneTokenEach, Given, Sum, RunDone, WaitDone, StoppedRightly, LastIsPartial, EarlyFits, Started;
      ghost var before := Now();
      if early.Some? {
        SwapOutEarly(early.value);
      }
      ghost var swapped := Now();
      var n, budget, partial := |running|, 0, false;
      tokens, budget, partial := ScheduleRunning(answers, recompute);
      ghost var ran := Now();
      ghost var considered := 0;
      RanLength(answers, recompute, swapped, ran);
      if |running| == n || (early.Some? && early.value.out != []) {
        tokens, budget, considered := ScheduleWaiting(tokens, budget, partial, admitted, cpuFull);
      }
      GivenLength(running, tokens);
      st := Step(before, swapped, ran, Now(), considered, tokens);
    }

    /** `update_from_output`: the given tokens are computed; a request without further
        tokens gets a new one from the model and may stop. */
    method Update(tokens: seq<nat>, stops: Request -> bool)
      requires 0 < maxRunning <= maxScheduled && |running| <= maxRunning && Given(running, tokens) && Busy(waiting)
      modifies this`running
      ensures Ready() && running == After(old(running), tokens, stops, |tokens|)
    {
      hide Busy, OneTokenEach, After;
      var all, kept := running, [];
      NothingYet();
      AfterNothing(all, tokens, stops);
      for i := 0 to |all|
        invariant kept == After(all, tokens, stops, i)
        invariant |kept| <= i && Busy(kept) && Started(kept) && (if i < |all| then AllOne(kept) else OneTokenEach(kept))
      {
        AfterOne(all, tokens, stops, i);
        var r := all[i].(numComputed := all[i].numComputed + tokens[i]);
        var sampled := r.numComputed == r.numTokens;
        if sampled {
          r := r.(numTokens := r.numTokens + 1);
        }
        if !(sampled && stops(r)) {
          BusyPush(kept, r);
          OnePush(kept, r);
          kept := kept + [r];
        } else {
          AllOneIsOne(kept);
        }
      }
      AllOneIsOne(kept);
      running := kept;
    }

    /** One event; a request without tokens is turned away before it gets here. */
    method Handle(e: Event) returns (ghost st: Step)
      requires Ready() && (e.Cycle? ==> Sensible(e.world))
      modifies this`running, this`waiting
      ensures Ready() && st.before == old(Now()) && Happened(maxRunning, maxScheduled, e, st, Now())
    {
      hide ReadyAt, Scheduled, Without, After, Ids, EarlyFits, Given, Busy;
      ghost var before := Now();
      st := Step(before, before, before, before, 0, []);
      match e {
        case Arrive(id, numTokens) =>
          if numTokens > 0 {
            AddRequest(id, numTokens);
          }
        case Abort(ids) =>
          FinishRequests(ids);
        case Cycle(w) =>
          var tokens;
          tokens, st := Schedule(w.early(running, waiting), w.answers, w.recompute, w.admitted, w.cpuFull);
          PlanFits(w.early(before.running, before.waiting), w.answers, w.recompute, w.admitted, w.cpuFull, maxRunning,
                   maxScheduled, st);
          SizesStay(maxRunning, maxScheduled, before);
          Update(tokens, w.stops);
      }
    }

    /** Any run of steps, arrivals and aborts, from any state between steps: the scheduler is
        between steps after each of them, and each step is determined by what the memory and
        the model answer. */
    method Serve(events: seq<Event>) returns (ghost steps: seq<Step>)
      requires Ready() && forall k :: 0 <= k < |events| && events[k].Cycle? ==> Sensible(events[k].world)
      modifies this`running, this`waiting
      ensures Ready() && |steps| == |events|
      ensures forall k :: 0 <= k < |events| ==> ReadyAt(maxRunning, maxScheduled, steps[k].before)
      ensures Follows(maxRunning, maxScheduled, events, steps, old(Now()), Now())
    {
      hide ReadyAt, Happened, Sensible;
      steps := [];
      for n := 0 to |events|
        invariant Ready() && |steps| == n
        invariant forall k :: 0 <= k < n ==> ReadyAt(maxRunning, maxScheduled, steps[k].before)
        invariant Follows(maxRunning, maxScheduled, events[..n], steps, old(Now()), Now())
      {
        ghost var before := Now();
        ghost var st := Handle(events[n]);
        FollowsNext(maxRunning, maxScheduled, events, n, steps, old(Now()), before, st, Now());
        steps := steps + [st];
      }
      assert events[..|events|] == events;
    }
  }

  /** Each event happens in the state that the one before it has left. */
  ghost predicate Follows(maxRunning: nat, maxScheduled: nat, events: seq<Event>, steps: seq<Step>, first: Snap,
                          last: Snap) {
    if events == [] then steps == [] && last == first
    else
      var n := |events| - 1;
      && |steps| == n + 1 && Happened(maxRunning, maxScheduled, events[n], steps[n], last)
      && Follows(maxRunning, maxScheduled, events[..n], steps[..n], first, steps[n].before)
  }

  lemma FollowsNext(maxRunning: nat, maxScheduled: nat, events: seq<Event>, n: nat, steps: seq<Step>, first: Snap,
                    before: Snap, st: Step, last: Snap)
    requires n < |events| && Follows(maxRunning, maxScheduled, events[..n], steps, first, before) && st.before == before
    requires Happened(maxRunning, maxScheduled, events[n], st, last) && |steps| == n
    ensures Follows(maxRunning, maxScheduled, events[..n + 1], steps + [st], first, last)
  {
    hide Happened;
    assert events[..n + 1][..n] == events[..n] && (steps + [st])[..n] == steps;
  }

  /** The first running requests have been given tokens, out of the budget; if not all have,
      each of them needed one. */
  ghost predicate Passed(all: seq<Request>, tokens: seq<nat>, budget: nat, partial: bool, maxScheduled: nat) {
    && |tokens| <= |all| && Given(all[..|tokens|], tokens) && Sum(tokens) + budget == maxScheduled
    && (partial ==> budget == 0)
    && (|tokens| < |all| ==> !partial && Sum(tokens) == |tokens|)
    && (partial <==> LastIsPartial(all[..|tokens|], tokens))
  }

  lemma RunStarts(answers: nat -> bool, recompute: bool, all: seq<Request>, maxScheduled: nat)
    ensures Passed(all, [], maxScheduled, false, maxScheduled)
    ensures all[|all|..] == [] && Victims([], recompute) == [] && all[..|all|] == all && Granted(answers, 0) == 0
  {
  }

  lemma PassedSoFar(all: seq<Request>, tokens: seq<nat>, budget: nat, partial: bool, maxScheduled: nat, maxRunning: nat)
    requires Passed(all, tokens, budget, partial, maxScheduled) && |tokens| < |all| <= maxRunning <= maxScheduled
    requires Busy(all)
    ensures !partial && budget > 0 && Pending(all[|tokens|]) > 0
  {
    hide Sum;
  }

  lemma PassedAll(all: seq<Request>, running: seq<Request>, tokens: seq<nat>, budget: nat, partial: bool,
                  maxScheduled: nat)
    requires Passed(all, tokens, budget, partial, maxScheduled) && |tokens| == |running| <= |all|
    requires running == all[..|running|]
    requires Started(all)
    ensures Given(running, tokens) && (partial <==> LastIsPartial(running, tokens)) && (partial ==> budget == 0)
    ensures Sum(tokens) + budget == maxScheduled && Started(running)
  {
    hide Sum, Given, LastIsPartial;
  }

  lemma PassedNext(all: seq<Request>, tokens: seq<nat>, budget: nat, partial: bool, maxScheduled: nat, numNew: nat)
    requires Passed(all, tokens, budget, partial, maxScheduled) && |tokens| < |all| && Busy(all) && OneTokenEach(all)
    requires budget > 0 && numNew == Min(Pending(all[|tokens|]), budget)
    ensures Passed(all, tokens + [numNew], budget - numNew, numNew < Pending(all[|tokens|]), maxScheduled)
  {
    hide Sum, Given, LastIsPartial;
    var i := |tokens|;
    NeedsOne(all, i);
    SumAppend(tokens, numNew);
    GivenPush(all[..i], tokens, all[i], numNew);
    assert all[..i + 1] == all[..i] + [all[i]];
  }

  /** The victims of one more request join those before. */
  lemma MoreVictims(all: seq<Request>, n: nat, m: nat, recompute: bool)
    requires m <= n <= |all|
    ensures Victims(all[m..], recompute) == Victims(all[n..], recompute) + Victims(all[..n][m..], recompute)
  {
    hide Victims;
    VictimsSplit(all[m..], n - m, recompute);
    assert all[m..][n - m..] == all[n..] && all[m..][..n - m] == all[..n][m..];
  }

  lemma AskedAgain(answers: nat -> bool, asked: nat, next: nat, can: bool)
    requires asked <= next - (if can then 1 else 0)
    requires forall k :: asked <= k < next - (if can then 1 else 0) ==> !answers(k)
    requires can ==> answers(next - 1)
    ensures Granted(answers, next) == Granted(answers, asked) + if can then 1 else 0
  {
    GrantedStays(answers, asked, next - if can then 1 else 0);
  }

  lemma NothingTaken(all: seq<Request>, was: seq<Request>, cpuFull: bool, admitted: (nat, Request) -> Option<nat>)
    ensures all[0..] == all && all[..0] == [] && Taken([], cpuFull) == [] && PassedOver([], cpuFull) == []
    ensures AllAdmitted([], admitted) && was + Starts([], admitted) == was
  {
  }

  lemma RanLength(answers: nat -> bool, recompute: bool, before: Snap, after: Snap)
    requires RunDone(answers, recompute, before, after)
    ensures |after.running| <= |before.running|
  {
  }

  lemma GivenLength(running: seq<Request>, tokens: seq<nat>)
    requires Given(running, tokens)
    ensures |tokens| == |running|
  {
  }

  lemma PlanFits(early: Option<Early>, answers: nat -> bool, recompute: bool, admitted: (nat, Request) -> Option<nat>,
                 cpuFull: bool, maxRunning: nat, maxScheduled: nat, st: Step)
    requires Scheduled(early, answers, recompute, admitted, cpuFull, maxRunning, maxScheduled, st)
    ensures Given(st.planned.running, st.tokens) && |st.planned.running| <= maxRunning
  {
  }

  lemma SizesStay(maxRunning: nat, maxScheduled: nat, s: Snap)
    requires ReadyAt(maxRunning, maxScheduled, s)
    ensures 0 < maxRunning <= maxScheduled
  {
  }

  /** A request after its tokens have been computed: one without further tokens gets a new
      one from the model. */
  ghost function Advanced(r: Request, given: nat): Request {
    var computed := r.numComputed + given;
    r.(numComputed := computed, numTokens := if computed == r.numTokens then r.numTokens + 1 else r.numTokens)
  }

  /** The first `n` requests after an update, without those that stop. */
  ghost function After(running: seq<Request>, tokens: seq<nat>, stops: Request -> bool, n: nat): seq<Request>
    requires n <= |running| == |tokens|
  {
    if n == 0 then []
    else
      var r := running[n - 1];
      var a := Advanced(r, tokens[n - 1]);
      After(running, tokens, stops, n - 1) + if a.numTokens > r.numTokens && stops(a) then [] else [a]
  }

  lemma AfterNothing(running: seq<Request>, tokens: seq<nat>, stops: Request -> bool)
    requires |running| == |tokens|
    ensures After(running, tokens, stops, 0) == []
  {
  }

  lemma AfterOne(running: seq<Request>, tokens: seq<nat>, stops: Request -> bool, n: nat)
    requires n < |running| == |tokens|
    ensures var r := running[n];
            var a := Advanced(r, tokens[n]);
            After(running, tokens, stops, n + 1) ==
            After(running, tokens, stops, n) + if a.numTokens > r.numTokens && stops(a) then [] else [a]
  {
  }

  lemma NoIds(m: multiset<nat>)
    ensures m + Ids([]) == m && Busy([])
  {
  }

  lemma BusyAt(s: seq<Request>, i: nat)
    requires Busy(s) && i < |s|
    ensures Pending(s[i]) > 0
  {
  }

  lemma BusySuffix(s: seq<Request>)
    requires Busy(s) && s != []
    ensures Busy(s[1..])
  {
  }

  lemma BusyAppend(a: seq<Request>, b: seq<Request>)
    requires Busy(a) && Busy(b)
    ensures Busy(a + b)
  {
  }

  /** After requests that were given all they need, another one may be given tokens. */
  lemma GivenPush(running: seq<Request>, tokens: seq<nat>, r: Request, n: nat)
    requires Given(running, tokens) && !LastIsPartial(running, tokens) && 0 < n <= Pending(r)
    ensures Given(running + [r], tokens + [n])
    ensures LastIsPartial(running + [r], tokens + [n]) <==> n < Pending(r)
    ensures forall k :: 0 <= k < |tokens| ==> tokens[k] == Pending(running[k])
  {
  }

  lemma OneMore(a: multiset<nat>, b: multiset<nat>, x: nat)
    ensures (a + multiset{x}) + b == (a + b) + multiset{x} && a + (b + multiset{x}) == (a + b) + multiset{x}
  {
  }

  ghost predicate AllOne(s: seq<Request>) {
    forall i :: 0 <= i < |s| ==> Pending(s[i]) == 1
  }

  lemma NothingYet()
    ensures Ids([]) == multiset{} && Busy([]) && AllOne([]) && OneTokenEach([])
  {
  }

  lemma NeedsOne(s: seq<Request>, i: nat)
    requires Busy(s) && OneTokenEach(s) && i < |s|
    ensures Pending(s[i]) > 0 && (i < |s| - 1 ==> Pending(s[i]) == 1)
  {
  }

  lemma BusyPush(s: seq<Request>, r: Request)
    requires Busy(s) && Pending(r) > 0
    ensures Busy(s + [r])
  {
  }

  lemma OnePush(s: seq<Request>, r: Request)
    requires AllOne(s)
    ensures OneTokenEach(s + [r]) && (Pending(r) == 1 ==> AllOne(s + [r]))
  {
  }

  lemma AllOneIsOne(s: seq<Request>)
    ensures AllOne(s) ==> OneTokenEach(s)
  {
  }
}
