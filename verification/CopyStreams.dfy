/** What becomes of the queued copies when the copies out and the copies in are made on two
    streams at once, as `swap` and `swap_block_first` of vllm/v1/swapper/native/swapper.cpp
    do.  `swap` keeps the order of each list; the batched copies of `swap_block_first` keep
    none.  The result is that of making all copies out first, whatever the memory holds,
    exactly when the copies do not get in each other's way. */
module CopyStreams {
  import opened Options
  import opened SwapCopies

  datatype Copy = Out(src: nat, dst: nat) | In(src: nat, dst: nat)

  datatype Mem<T> = Mem(gpu: seq<T>, cpu: seq<T>)

  function OutsOf(s: seq<Copy>): Pairs {
    if s == [] then []
    else
      var n := |s| - 1;
      OutsOf(s[..n]) + if s[n].Out? then [(s[n].src, s[n].dst)] else []
  }

  function InsOf(s: seq<Copy>): Pairs {
    if s == [] then []
    else
      var n := |s| - 1;
      InsOf(s[..n]) + if s[n].In? then [(s[n].src, s[n].dst)] else []
  }

  ghost predicate Within(s: seq<Copy>, numGpu: nat, numCpu: nat) {
    forall k :: 0 <= k < |s| ==> Fits(s[k], numGpu, numCpu)
  }

  ghost predicate Fits(c: Copy, numGpu: nat, numCpu: nat) {
    if c.Out? then c.src < numGpu && c.dst < numCpu else c.src < numCpu && c.dst < numGpu
  }

  ghost function MakeOne<T>(m: Mem<T>, c: Copy): (r: Mem<T>)
    requires Fits(c, |m.gpu|, |m.cpu|)
    ensures |r.gpu| == |m.gpu| && |r.cpu| == |m.cpu|
  {
    if c.Out? then m.(cpu := m.cpu[c.dst := m.gpu[c.src]]) else m.(gpu := m.gpu[c.dst := m.cpu[c.src]])
  }

  /** The memory after the copies, made one after the other. */
  ghost function Made<T>(m: Mem<T>, s: seq<Copy>): (r: Mem<T>)
    requires Within(s, |m.gpu|, |m.cpu|)
    ensures |r.gpu| == |m.gpu| && |r.cpu| == |m.cpu|
  {
    if s == [] then m else MakeOne(Made(m, s[..|s| - 1]), s[|s| - 1])
  }

  /** The memory after all copies out and then all copies in, as in `swap_naive`. */
  ghost function OutsThenIns<T>(m: Mem<T>, outs: Pairs, ins: Pairs): Mem<T>
    requires InBounds(outs, |m.gpu|, |m.cpu|) && InBounds(ins, |m.cpu|, |m.gpu|)
  {
    var cpu := Copied(m.gpu, m.cpu, outs);
    Mem(Copied(cpu, m.gpu, ins), cpu)
  }

  // ----- what a list of copies writes

  /** The source of the copy that writes a place last. */
  function LastSource(pairs: Pairs, d: nat): Option<nat> {
    if pairs == [] then None
    else if pairs[|pairs| - 1].1 == d then Some(pairs[|pairs| - 1].0)
    else LastSource(pairs[..|pairs| - 1], d)
  }

  lemma {:induction false} LastSourceIs(pairs: Pairs, d: nat)
    ensures LastSource(pairs, d).Some? <==> Writes(pairs, d)
    ensures LastSource(pairs, d).Some? ==> (LastSource(pairs, d).value, d) in pairs
  {
    if pairs != [] {
      var n := |pairs| - 1;
      assert pairs == pairs[..n] + [pairs[n]];
      LastSourceIs(pairs[..n], d);
      if pairs[n].1 != d {
        WritesMore(pairs[..n], pairs[n], d);
      }
    }
  }

  lemma WritesMore(pairs: Pairs, p: (nat, nat), d: nat)
    ensures Writes(pairs + [p], d) <==> Writes(pairs, d) || p.1 == d
  {
    var all := pairs + [p];
    assert all[|pairs|] == p;
    if Writes(pairs, d) {
      var k :| 0 <= k < |pairs| && pairs[k].1 == d;
      assert all[k].1 == d;
    }
    if Writes(all, d) && p.1 != d {
      var k :| 0 <= k < |all| && all[k].1 == d;
      assert pairs[k].1 == d;
    }
  }

  lemma {:induction false} CopiedLast<T>(from: seq<T>, to: seq<T>, pairs: Pairs, d: nat)
    requires InBounds(pairs, |from|, |to|) && d < |to|
    ensures LastSource(pairs, d).Some? ==> LastSource(pairs, d).value < |from|
    ensures Copied(from, to, pairs)[d] ==
            if LastSource(pairs, d).Some? then from[LastSource(pairs, d).value] else to[d]
  {
    if pairs != [] {
      CopiedLast(from, to, pairs[..|pairs| - 1], d);
    }
  }

  // ----- copies in any order

  lemma {:induction false} GpuKept<T>(m: Mem<T>, s: seq<Copy>, b: nat)
    requires Within(s, |m.gpu|, |m.cpu|) && b < |m.gpu| && !Writes(InsOf(s), b)
    ensures Made(m, s).gpu[b] == m.gpu[b]
  {
    if s != [] {
      var n := |s| - 1;
      StillUnwritten(s, b);
      GpuKept(m, s[..n], b);
    }
  }

  lemma StillUnwritten(s: seq<Copy>, b: nat)
    requires s != [] && !Writes(InsOf(s), b)
    ensures !Writes(InsOf(s[..|s| - 1]), b) && (s[|s| - 1].In? ==> s[|s| - 1].dst != b)
  {
    var n := |s| - 1;
    WritesMore(InsOf(s[..n]), (s[n].src, s[n].dst), b);
    assert InsOf(s[..n]) + [] == InsOf(s[..n]);
  }

  lemma {:induction false} CpuKept<T>(m: Mem<T>, s: seq<Copy>, c: nat)
    requires Within(s, |m.gpu|, |m.cpu|) && c < |m.cpu| && !Writes(OutsOf(s), c)
    ensures Made(m, s).cpu[c] == m.cpu[c]
  {
    if s != [] {
      var n := |s| - 1;
      WritesMore(OutsOf(s[..n]), (s[n].src, s[n].dst), c);
      assert OutsOf(s[..n]) + [] == OutsOf(s[..n]);
      CpuKept(m, s[..n], c);
    }
  }

  /** A CPU block ends up with the block it was last copied from, if nothing is copied into
      that one. */
  lemma {:induction false} CpuFinal<T>(m: Mem<T>, s: seq<Copy>, c: nat)
    requires Within(s, |m.gpu|, |m.cpu|) && c < |m.cpu|
    requires var l := LastSource(OutsOf(s), c); l.Some? ==> l.value < |m.gpu| && !Writes(InsOf(s), l.value)
    ensures Made(m, s).cpu[c] ==
            var l := LastSource(OutsOf(s), c); if l.Some? then m.gpu[l.value] else m.cpu[c]
  {
    if s != [] {
      var n := |s| - 1;
      assert OutsOf(s[..n]) + [] == OutsOf(s[..n]);
      var l := LastSource(OutsOf(s), c);
      if s[n].Out? {
        assert OutsOf(s)[..|OutsOf(s)| - 1] == OutsOf(s[..n]);
      }
      if l.Some? {
        StillUnwritten(s, l.value);
      }
      if s[n].Out? && s[n].dst == c {
        GpuKept(m, s[..n], s[n].src);
      } else {
        CpuFinal(m, s[..n], c);
      }
    }
  }

  lemma {:induction false} GpuFinal<T>(m: Mem<T>, s: seq<Copy>, b: nat)
    requires Within(s, |m.gpu|, |m.cpu|) && b < |m.gpu|
    requires var l := LastSource(InsOf(s), b); l.Some? ==> l.value < |m.cpu| && !Writes(OutsOf(s), l.value)
    ensures Made(m, s).gpu[b] ==
            var l := LastSource(InsOf(s), b); if l.Some? then m.cpu[l.value] else m.gpu[b]
  {
    if s != [] {
      var n := |s| - 1;
      assert InsOf(s[..n]) + [] == InsOf(s[..n]);
      var l := LastSource(InsOf(s), b);
      if s[n].In? {
        assert InsOf(s)[..|InsOf(s)| - 1] == InsOf(s[..n]);
      }
      if l.Some? {
        WritesMore(OutsOf(s[..n]), (s[n].src, s[n].dst), l.value);
        assert OutsOf(s[..n]) + [] == OutsOf(s[..n]);
      }
      if s[n].In? && s[n].dst == b {
        CpuKept(m, s[..n], s[n].src);
      } else {
        GpuFinal(m, s[..n], b);
      }
    }
  }

  // ----- the condition

  /** No copy of the second list writes what a copy of the first reads, unless that copy is
      overwritten by a later one of its own list. */
  predicate Undisturbed(pairs: Pairs, others: Pairs) {
    forall k :: 0 <= k < |pairs| ==>
      var l := LastSource(pairs, pairs[k].1);
      l.Some? ==> !Writes(others, l.value)
  }

  predicate Apart(outs: Pairs, ins: Pairs) {
    Undisturbed(outs, ins) && Undisturbed(ins, outs)
  }

  lemma UndisturbedAt(pairs: Pairs, others: Pairs, d: nat)
    requires Undisturbed(pairs, others)
    ensures LastSource(pairs, d).Some? ==> !Writes(others, LastSource(pairs, d).value)
  {
    hide LastSource;
    LastSourceIs(pairs, d);
    if LastSource(pairs, d).Some? {
      var k :| 0 <= k < |pairs| && pairs[k].1 == d;
    }
  }

  lemma SourceInBounds(pairs: Pairs, from: nat, to: nat, d: nat)
    requires InBounds(pairs, from, to)
    ensures LastSource(pairs, d).Some? ==> LastSource(pairs, d).value < from
  {
    hide LastSource;
    LastSourceIs(pairs, d);
    if LastSource(pairs, d).Some? {
      var k :| 0 <= k < |pairs| && pairs[k] == (LastSource(pairs, d).value, d);
    }
  }

  /** Copies that are apart give the same result in every interleaving. */
  lemma ApartMeans<T>(m: Mem<T>, s: seq<Copy>)
    requires Within(s, |m.gpu|, |m.cpu|) && Apart(OutsOf(s), InsOf(s))
    requires InBounds(OutsOf(s), |m.gpu|, |m.cpu|) && InBounds(InsOf(s), |m.cpu|, |m.gpu|)
    ensures Made(m, s) == OutsThenIns(m, OutsOf(s), InsOf(s))
  {
    hide LastSource, OutsOf, InsOf, Undisturbed, Made, Copied, Writes;
    var outs, ins, r := OutsOf(s), InsOf(s), OutsThenIns(m, OutsOf(s), InsOf(s));
    forall c | 0 <= c < |m.cpu|
      ensures Made(m, s).cpu[c] == r.cpu[c]
    {
      UndisturbedAt(outs, ins, c);
      SourceInBounds(outs, |m.gpu|, |m.cpu|, c);
      CpuFinal(m, s, c);
      CopiedLast(m.gpu, m.cpu, outs, c);
    }
    forall b | 0 <= b < |m.gpu|
      ensures Made(m, s).gpu[b] == r.gpu[b]
    {
      UndisturbedAt(ins, outs, b);
      SourceInBounds(ins, |m.cpu|, |m.gpu|, b);
      GpuFinal(m, s, b);
      CopiedLast(r.cpu, m.gpu, ins, b);
      if LastSource(ins, b).Some? {
        LastSourceIs(outs, LastSource(ins, b).value);
        CopiedLast(m.gpu, m.cpu, outs, LastSource(ins, b).value);
      }
    }
  }

  // ----- lists of copies in some order

  function OutCopies(outs: Pairs): seq<Copy> {
    seq(|outs|, k requires 0 <= k < |outs| => Out(outs[k].0, outs[k].1))
  }

  function InCopies(ins: Pairs): seq<Copy> {
    seq(|ins|, k requires 0 <= k < |ins| => In(ins[k].0, ins[k].1))
  }

  lemma {:induction false} OutCopiesAre(outs: Pairs)
    ensures OutsOf(OutCopies(outs)) == outs && InsOf(OutCopies(outs)) == []
  {
    if outs != [] {
      var n := |outs| - 1;
      assert OutCopies(outs)[..n] == OutCopies(outs[..n]);
      OutCopiesAre(outs[..n]);
    }
  }

  lemma {:induction false} InCopiesAre(ins: Pairs)
    ensures InsOf(InCopies(ins)) == ins && OutsOf(InCopies(ins)) == []
  {
    if ins != [] {
      var n := |ins| - 1;
      assert InCopies(ins)[..n] == InCopies(ins[..n]);
      InCopiesAre(ins[..n]);
    }
  }

  lemma {:induction false} OutsOfBoth(a: seq<Copy>, b: seq<Copy>)
    ensures OutsOf(a + b) == OutsOf(a) + OutsOf(b) && InsOf(a + b) == InsOf(a) + InsOf(b)
    decreases |b|
  {
    if b == [] {
      assert a + b == a;
    } else {
      var n := |b| - 1;
      assert (a + b)[..|a + b| - 1] == a + b[..n];
      OutsOfBoth(a, b[..n]);
    }
  }

  lemma {:induction false} WithinIs(s: seq<Copy>, numGpu: nat, numCpu: nat)
    ensures Within(s, numGpu, numCpu) <==> InBounds(OutsOf(s), numGpu, numCpu) && InBounds(InsOf(s), numCpu, numGpu)
  {
    if s != [] {
      var n := |s| - 1;
      WithinIs(s[..n], numGpu, numCpu);
      assert s == s[..n] + [s[n]];
      InBoundsMore(OutsOf(s[..n]), (s[n].src, s[n].dst), numGpu, numCpu);
      InBoundsMore(InsOf(s[..n]), (s[n].src, s[n].dst), numCpu, numGpu);
      assert OutsOf(s[..n]) + [] == OutsOf(s[..n]) && InsOf(s[..n]) + [] == InsOf(s[..n]);
      WithinMore(s[..n], s[n], numGpu, numCpu);
    }
  }

  lemma InBoundsMore(pairs: Pairs, p: (nat, nat), from: nat, to: nat)
    ensures InBounds(pairs + [p], from, to) <==> InBounds(pairs, from, to) && p.0 < from && p.1 < to
  {
    var all := pairs + [p];
    assert all[|pairs|] == p;
    assert forall k :: 0 <= k < |pairs| ==> all[k] == pairs[k];
  }

  lemma WithinMore(s: seq<Copy>, c: Copy, numGpu: nat, numCpu: nat)
    ensures Within(s + [c], numGpu, numCpu) <==> Within(s, numGpu, numCpu) && Fits(c, numGpu, numCpu)
  {
    var all := s + [c];
    assert all[|s|] == c;
    assert forall k :: 0 <= k < |s| ==> all[k] == s[k];
  }

  lemma {:induction false} MadeInTwo<T>(m: Mem<T>, a: seq<Copy>, b: seq<Copy>)
    requires Within(a, |m.gpu|, |m.cpu|) && Within(b, |m.gpu|, |m.cpu|)
    ensures Within(a + b, |m.gpu|, |m.cpu|) && Made(m, a + b) == Made(Made(m, a), b)
    decreases |b|
  {
    if b == [] {
      assert a + b == a;
    } else {
      var n := |b| - 1;
      MadeInTwo(m, a, b[..n]);
      assert (a + b)[..|a + b| - 1] == a + b[..n];
    }
  }

  lemma {:induction false} MadeOuts<T>(m: Mem<T>, outs: Pairs)
    requires InBounds(outs, |m.gpu|, |m.cpu|)
    ensures Within(OutCopies(outs), |m.gpu|, |m.cpu|)
    ensures Made(m, OutCopies(outs)) == m.(cpu := Copied(m.gpu, m.cpu, outs))
  {
    if outs != [] {
      var n := |outs| - 1;
      assert OutCopies(outs)[..n] == OutCopies(outs[..n]);
      MadeOuts(m, outs[..n]);
    }
  }

  lemma {:induction false} MadeIns<T>(m: Mem<T>, ins: Pairs)
    requires InBounds(ins, |m.cpu|, |m.gpu|)
    ensures Within(InCopies(ins), |m.gpu|, |m.cpu|)
    ensures Made(m, InCopies(ins)) == m.(gpu := Copied(m.cpu, m.gpu, ins))
  {
    if ins != [] {
      var n := |ins| - 1;
      assert InCopies(ins)[..n] == InCopies(ins[..n]);
      MadeIns(m, ins[..n]);
    }
  }

  /** The order of `swap_naive`. */
  function OutsFirst(outs: Pairs, ins: Pairs): seq<Copy> {
    OutCopies(outs) + InCopies(ins)
  }

  function InsFirst(outs: Pairs, ins: Pairs): seq<Copy> {
    InCopies(ins) + OutCopies(outs)
  }

  lemma BothOrders(outs: Pairs, ins: Pairs)
    ensures OutsOf(OutsFirst(outs, ins)) == outs && InsOf(OutsFirst(outs, ins)) == ins
    ensures OutsOf(InsFirst(outs, ins)) == outs && InsOf(InsFirst(outs, ins)) == ins
  {
    hide OutsOf, InsOf;
    OutCopiesAre(outs);
    InCopiesAre(ins);
    OutsOfBoth(OutCopies(outs), InCopies(ins));
    OutsOfBoth(InCopies(ins), OutCopies(outs));
  }

  lemma OutsFirstIs<T>(m: Mem<T>, outs: Pairs, ins: Pairs)
    requires InBounds(outs, |m.gpu|, |m.cpu|) && InBounds(ins, |m.cpu|, |m.gpu|)
    ensures Within(OutsFirst(outs, ins), |m.gpu|, |m.cpu|)
    ensures Made(m, OutsFirst(outs, ins)) == OutsThenIns(m, outs, ins)
  {
    hide Made, Copied;
    MadeOuts(m, outs);
    var after := m.(cpu := Copied(m.gpu, m.cpu, outs));
    MadeIns(after, ins);
    MadeInTwo(m, OutCopies(outs), InCopies(ins));
  }

  lemma InsFirstIs<T>(m: Mem<T>, outs: Pairs, ins: Pairs)
    requires InBounds(outs, |m.gpu|, |m.cpu|) && InBounds(ins, |m.cpu|, |m.gpu|)
    ensures Within(InsFirst(outs, ins), |m.gpu|, |m.cpu|)
    ensures var gpu := Copied(m.cpu, m.gpu, ins);
            Made(m, InsFirst(outs, ins)) == Mem(gpu, Copied(gpu, m.cpu, outs))
  {
    hide Made, Copied;
    MadeIns(m, ins);
    var after := m.(gpu := Copied(m.cpu, m.gpu, ins));
    MadeOuts(after, outs);
    MadeInTwo(m, InCopies(ins), OutCopies(outs));
  }

  // ----- interleavings

  /** Whatever the memory holds, these copies give the result of the naive order. */
  ghost predicate Harmonious<T(!new)>(s: seq<Copy>, outs: Pairs, ins: Pairs, numGpu: nat, numCpu: nat)
    requires Within(s, numGpu, numCpu) && InBounds(outs, numGpu, numCpu) && InBounds(ins, numCpu, numGpu)
  {
    forall m: Mem<T> :: |m.gpu| == numGpu && |m.cpu| == numCpu ==> Made(m, s) == OutsThenIns(m, outs, ins)
  }

  ghost predicate IsInterleaving(s: seq<Copy>, outs: Pairs, ins: Pairs) {
    OutsOf(s) == outs && InsOf(s) == ins
  }

  /** If copies get in each other's way, making the copies in first gives another result. */
  lemma ClashShows<T(!new)>(outs: Pairs, ins: Pairs, numGpu: nat, numCpu: nat, x: T, y: T)
    requires InBounds(outs, numGpu, numCpu) && InBounds(ins, numCpu, numGpu) && x != y && !Apart(outs, ins)
    ensures Within(InsFirst(outs, ins), numGpu, numCpu)
    ensures !Harmonious<T>(InsFirst(outs, ins), outs, ins, numGpu, numCpu)
  {
    hide LastSource, Copied, Made, InsFirst, Writes;
    var m := Mem(seq(numGpu, k => x), seq(numCpu, k => y));
    InsFirstIs(m, outs, ins);
    var gpu, cpu := Copied(m.cpu, m.gpu, ins), Copied(m.gpu, m.cpu, outs);
    if !Undisturbed(outs, ins) {
      var k :| 0 <= k < |outs| && LastSource(outs, outs[k].1).Some? && Writes(ins, LastSource(outs, outs[k].1).value);
      var d, b := outs[k].1, LastSource(outs, outs[k].1).value;
      SourceInBounds(outs, numGpu, numCpu, d);
      LastSourceIs(ins, b);
      SourceInBounds(ins, numCpu, numGpu, b);
      CopiedLast(m.cpu, m.gpu, ins, b);
      CopiedLast(gpu, m.cpu, outs, d);
      CopiedLast(m.gpu, m.cpu, outs, d);
      assert Made(m, InsFirst(outs, ins)).cpu[d] == y && OutsThenIns(m, outs, ins).cpu[d] == x;
    } else {
      var k :| 0 <= k < |ins| && LastSource(ins, ins[k].1).Some? && Writes(outs, LastSource(ins, ins[k].1).value);
      var d, c := ins[k].1, LastSource(ins, ins[k].1).value;
      SourceInBounds(ins, numCpu, numGpu, d);
      LastSourceIs(outs, c);
      SourceInBounds(outs, numGpu, numCpu, c);
      CopiedLast(m.cpu, m.gpu, ins, d);
      CopiedLast(cpu, m.gpu, ins, d);
      CopiedLast(m.gpu, m.cpu, outs, c);
      assert Made(m, InsFirst(outs, ins)).gpu[d] == y && OutsThenIns(m, outs, ins).gpu[d] == x;
    }
  }

  /** Two streams that keep the order of their lists: every interleaving is right, for all
      contents, exactly when no copy that counts in the end has its source written by the
      other list. */
  lemma InterleavingIff<T(!new)>(outs: Pairs, ins: Pairs, numGpu: nat, numCpu: nat, x: T, y: T)
    requires InBounds(outs, numGpu, numCpu) && InBounds(ins, numCpu, numGpu) && x != y
    ensures (forall s :: IsInterleaving(s, outs, ins) ==>
               Within(s, numGpu, numCpu) && Harmonious<T>(s, outs, ins, numGpu, numCpu)) <==>
            Apart(outs, ins)
  {
    hide Apart, OutsOf, InsOf, Made, OutsThenIns, InsFirst, Within;
    if Apart(outs, ins) {
      forall s | IsInterleaving(s, outs, ins)
        ensures Within(s, numGpu, numCpu) && Harmonious<T>(s, outs, ins, numGpu, numCpu)
      {
        WithinIs(s, numGpu, numCpu);
        forall m: Mem<T> | |m.gpu| == numGpu && |m.cpu| == numCpu
          ensures Made(m, s) == OutsThenIns(m, outs, ins)
        {
          ApartMeans(m, s);
        }
      }
    } else {
      BothOrders(outs, ins);
      ClashShows(outs, ins, numGpu, numCpu, x, y);
      assert IsInterleaving(InsFirst(outs, ins), outs, ins);
    }
  }

  // ----- any order

  /** Copies to one place have one source. */
  predicate SingleSource(pairs: Pairs) {
    forall i, j :: 0 <= i < |pairs| && 0 <= j < |pairs| && pairs[i].1 == pairs[j].1 ==> pairs[i].0 == pairs[j].0
  }

  ghost predicate IsReordering(s: seq<Copy>, outs: Pairs, ins: Pairs) {
    multiset(OutsOf(s)) == multiset(outs) && multiset(InsOf(s)) == multiset(ins)
  }

  lemma SameMembers(a: Pairs, b: Pairs)
    requires multiset(a) == multiset(b)
    ensures forall p :: p in a <==> p in b
  {
    forall p
      ensures p in a <==> p in b
    {
      assert p in a <==> p in multiset(a);
      assert p in b <==> p in multiset(b);
    }
  }

  lemma SameWrites(a: Pairs, b: Pairs, d: nat)
    requires multiset(a) == multiset(b) && Writes(a, d)
    ensures Writes(b, d)
  {
    SameMembers(a, b);
    var i :| 0 <= i < |a| && a[i].1 == d;
    assert a[i] in b;
  }

  /** With one source for each place the order does not matter within a list. */
  lemma SameLast(a: Pairs, b: Pairs, d: nat)
    requires multiset(a) == multiset(b) && SingleSource(b)
    ensures LastSource(a, d) == LastSource(b, d) && (Writes(a, d) <==> Writes(b, d))
  {
    hide LastSource, Writes;
    LastSourceIs(a, d);
    LastSourceIs(b, d);
    if Writes(b, d) {
      SameWrites(b, a, d);
    }
    if Writes(a, d) {
      SameWrites(a, b, d);
      SameMembers(a, b);
      var i :| 0 <= i < |b| && b[i] == (LastSource(a, d).value, d);
      var j :| 0 <= j < |b| && b[j] == (LastSource(b, d).value, d);
      assert b[i].1 == b[j].1;
    }
  }

  lemma SameUndisturbed(a: Pairs, b: Pairs, others: Pairs, same: Pairs)
    requires multiset(a) == multiset(b) && SingleSource(b) && Undisturbed(b, others)
    requires multiset(same) == multiset(others) && SingleSource(others)
    ensures Undisturbed(a, same)
  {
    hide LastSource, SingleSource, Writes;
    forall k | 0 <= k < |a| && LastSource(a, a[k].1).Some?
      ensures !Writes(same, LastSource(a, a[k].1).value)
    {
      SameLast(a, b, a[k].1);
      UndisturbedAt(b, others, a[k].1);
      SameLast(same, others, LastSource(a, a[k].1).value);
    }
  }

  lemma SameBounds(a: Pairs, b: Pairs, from: nat, to: nat)
    requires multiset(a) == multiset(b) && InBounds(b, from, to)
    ensures InBounds(a, from, to)
  {
    SameMembers(a, b);
    forall k | 0 <= k < |a|
      ensures a[k].0 < from && a[k].1 < to
    {
      assert a[k] in b;
    }
  }

  lemma SameCopies<T>(from: seq<T>, to: seq<T>, a: Pairs, b: Pairs)
    requires InBounds(a, |from|, |to|) && InBounds(b, |from|, |to|) && multiset(a) == multiset(b) && SingleSource(b)
    ensures Copied(from, to, a) == Copied(from, to, b)
  {
    hide Copied, LastSource, SingleSource;
    forall d | 0 <= d < |to|
      ensures Copied(from, to, a)[d] == Copied(from, to, b)[d]
    {
      SameLast(a, b, d);
      CopiedLast(from, to, a, d);
      CopiedLast(from, to, b, d);
    }
  }

  lemma AnyOrderMeans<T>(m: Mem<T>, s: seq<Copy>, outs: Pairs, ins: Pairs)
    requires InBounds(outs, |m.gpu|, |m.cpu|) && InBounds(ins, |m.cpu|, |m.gpu|) && IsReordering(s, outs, ins)
    requires SingleSource(outs) && SingleSource(ins) && Apart(outs, ins)
    ensures Within(s, |m.gpu|, |m.cpu|) && Made(m, s) == OutsThenIns(m, outs, ins)
  {
    hide Copied, LastSource, SingleSource, Undisturbed, Made, OutsOf, InsOf, Within;
    var outs', ins' := OutsOf(s), InsOf(s);
    SameBounds(outs', outs, |m.gpu|, |m.cpu|);
    SameBounds(ins', ins, |m.cpu|, |m.gpu|);
    WithinIs(s, |m.gpu|, |m.cpu|);
    SameUndisturbed(outs', outs, ins, ins');
    SameUndisturbed(ins', ins, outs, outs');
    ApartMeans(m, s);
    SameCopies(m.gpu, m.cpu, outs', outs);
    SameCopies(Copied(m.gpu, m.cpu, outs), m.gpu, ins', ins);
  }

  /** The list with one copy moved to the end. */
  function MovedLast(pairs: Pairs, i: nat): Pairs
    requires i < |pairs|
  {
    pairs[..i] + pairs[i + 1..] + [pairs[i]]
  }

  lemma MovedLastIs(pairs: Pairs, i: nat)
    requires i < |pairs|
    ensures multiset(MovedLast(pairs, i)) == multiset(pairs)
    ensures LastSource(MovedLast(pairs, i), pairs[i].1) == Some(pairs[i].0)
  {
    assert pairs == pairs[..i] + [pairs[i]] + pairs[i + 1..];
  }

  lemma NotHarmonious<T(!new)>(m: Mem<T>, s: seq<Copy>, outs: Pairs, ins: Pairs)
    requires Within(s, |m.gpu|, |m.cpu|) && InBounds(outs, |m.gpu|, |m.cpu|) && InBounds(ins, |m.cpu|, |m.gpu|)
    requires Made(m, s) != OutsThenIns(m, outs, ins)
    ensures !Harmonious<T>(s, outs, ins, |m.gpu|, |m.cpu|)
  {
    hide Made, OutsThenIns, Within;
  }

  lemma LastOutDecides<T>(m: Mem<T>, outs: Pairs, ins: Pairs, i: nat)
    requires InBounds(outs, |m.gpu|, |m.cpu|) && InBounds(ins, |m.cpu|, |m.gpu|) && i < |outs|
    ensures var s := OutsFirst(MovedLast(outs, i), ins);
            && IsReordering(s, outs, ins) && Within(s, |m.gpu|, |m.cpu|)
            && Made(m, s).cpu[outs[i].1] == m.gpu[outs[i].0]
  {
    hide LastSource, Copied, Made, OutsFirst, OutsOf, InsOf, MovedLast, Within;
    var a := MovedLast(outs, i);
    MovedLastIs(outs, i);
    SameBounds(a, outs, |m.gpu|, |m.cpu|);
    OutsFirstIs(m, a, ins);
    BothOrders(a, ins);
    CopiedLast(m.gpu, m.cpu, a, outs[i].1);
  }

  lemma LastInDecides<T>(m: Mem<T>, outs: Pairs, ins: Pairs, i: nat)
    requires InBounds(outs, |m.gpu|, |m.cpu|) && InBounds(ins, |m.cpu|, |m.gpu|) && i < |ins|
    ensures var s := InsFirst(outs, MovedLast(ins, i));
            && IsReordering(s, outs, ins) && Within(s, |m.gpu|, |m.cpu|)
            && Made(m, s).gpu[ins[i].1] == m.cpu[ins[i].0]
  {
    hide LastSource, Copied, Made, InsFirst, OutsOf, InsOf, MovedLast, Within;
    var a := MovedLast(ins, i);
    MovedLastIs(ins, i);
    SameBounds(a, ins, |m.cpu|, |m.gpu|);
    InsFirstIs(m, outs, a);
    BothOrders(outs, a);
    CopiedLast(m.cpu, m.gpu, a, ins[i].1);
  }

  /** Two copies out of different blocks to one CPU block: the order of the list decides. */
  lemma TwoOutsShow<T(!new)>(outs: Pairs, ins: Pairs, numGpu: nat, numCpu: nat, i: nat, j: nat, x: T, y: T)
    returns (s: seq<Copy>)
    requires InBounds(outs, numGpu, numCpu) && InBounds(ins, numCpu, numGpu) && x != y
    requires i < |outs| && j < |outs| && outs[i].1 == outs[j].1 && outs[i].0 != outs[j].0
    ensures IsReordering(s, outs, ins) && Within(s, numGpu, numCpu)
    ensures !Harmonious<T>(s, outs, ins, numGpu, numCpu)
  {
    hide Made, OutsThenIns, OutsFirst, MovedLast, Within, IsReordering, Harmonious;
    var m := Mem(seq(numGpu, k => if k == outs[i].0 then x else y), seq(numCpu, k => y));
    LastOutDecides(m, outs, ins, i);
    LastOutDecides(m, outs, ins, j);
    s := OutsFirst(MovedLast(outs, i), ins);
    if Made(m, s) == OutsThenIns(m, outs, ins) {
      s := OutsFirst(MovedLast(outs, j), ins);
    }
    NotHarmonious(m, s, outs, ins);
  }

  lemma TwoInsShow<T(!new)>(outs: Pairs, ins: Pairs, numGpu: nat, numCpu: nat, i: nat, j: nat, x: T, y: T)
    returns (s: seq<Copy>)
    requires InBounds(outs, numGpu, numCpu) && InBounds(ins, numCpu, numGpu) && x != y
    requires i < |ins| && j < |ins| && ins[i].1 == ins[j].1 && ins[i].0 != ins[j].0
    ensures IsReordering(s, outs, ins) && Within(s, numGpu, numCpu)
    ensures !Harmonious<T>(s, outs, ins, numGpu, numCpu)
  {
    hide Made, OutsThenIns, InsFirst, MovedLast, Within, IsReordering, Harmonious;
    var m := Mem(seq(numGpu, k => y), seq(numCpu, k => if k == ins[i].0 then x else y));
    LastInDecides(m, outs, ins, i);
    LastInDecides(m, outs, ins, j);
    s := InsFirst(outs, MovedLast(ins, i));
    if Made(m, s) == OutsThenIns(m, outs, ins) {
      s := InsFirst(outs, MovedLast(ins, j));
    }
    NotHarmonious(m, s, outs, ins);
  }

  /** Copies that may be made in any order. */
  predicate Orderless(outs: Pairs, ins: Pairs) {
    SingleSource(outs) && SingleSource(ins) && Apart(outs, ins)
  }

  /** Batched copies: every order is right, for all contents, exactly when copies to one
      place have one source and no copy has its source written by the other list. */
  lemma AnyOrderIff<T(!new)>(outs: Pairs, ins: Pairs, numGpu: nat, numCpu: nat, x: T, y: T)
    requires InBounds(outs, numGpu, numCpu) && InBounds(ins, numCpu, numGpu) && x != y
    ensures (forall s :: IsReordering(s, outs, ins) ==>
               Within(s, numGpu, numCpu) && Harmonious<T>(s, outs, ins, numGpu, numCpu)) <==>
            Orderless(outs, ins)
  {
    hide Apart, Made, OutsThenIns, InsFirst, Within, IsReordering;
    if Orderless(outs, ins) {
      forall s | IsReordering(s, outs, ins)
        ensures Within(s, numGpu, numCpu) && Harmonious<T>(s, outs, ins, numGpu, numCpu)
      {
        AnyOrderFits(s, outs, ins, numGpu, numCpu);
        forall m: Mem<T> | |m.gpu| == numGpu && |m.cpu| == numCpu
          ensures Made(m, s) == OutsThenIns(m, outs, ins)
        {
          AnyOrderMeans(m, s, outs, ins);
        }
      }
    } else if !SingleSource(outs) {
      var i, j :| 0 <= i < |outs| && 0 <= j < |outs| && outs[i].1 == outs[j].1 && outs[i].0 != outs[j].0;
      var s := TwoOutsShow(outs, ins, numGpu, numCpu, i, j, x, y);
    } else if !SingleSource(ins) {
      var i, j :| 0 <= i < |ins| && 0 <= j < |ins| && ins[i].1 == ins[j].1 && ins[i].0 != ins[j].0;
      var s := TwoInsShow(outs, ins, numGpu, numCpu, i, j, x, y);
    } else {
      ClashShows(outs, ins, numGpu, numCpu, x, y);
      InsFirstReorders(outs, ins);
    }
  }

  lemma AnyOrderFits(s: seq<Copy>, outs: Pairs, ins: Pairs, numGpu: nat, numCpu: nat)
    requires IsReordering(s, outs, ins) && InBounds(outs, numGpu, numCpu) && InBounds(ins, numCpu, numGpu)
    ensures Within(s, numGpu, numCpu)
  {
    hide OutsOf, InsOf, Within;
    SameBounds(OutsOf(s), outs, numGpu, numCpu);
    SameBounds(InsOf(s), ins, numCpu, numGpu);
    WithinIs(s, numGpu, numCpu);
  }

  lemma InsFirstReorders(outs: Pairs, ins: Pairs)
    ensures IsReordering(InsFirst(outs, ins), outs, ins)
  {
    hide OutsOf, InsOf, InsFirst;
    BothOrders(outs, ins);
  }

  /** No copy reads what a copy of the other list writes. */
  predicate Disjoint(outs: Pairs, ins: Pairs) {
    forall i, j :: 0 <= i < |outs| && 0 <= j < |ins| ==> outs[i].0 != ins[j].1 && outs[i].1 != ins[j].0
  }

  lemma DisjointIsApart(outs: Pairs, ins: Pairs)
    requires Disjoint(outs, ins)
    ensures Apart(outs, ins)
  {
    hide LastSource;
    forall k | 0 <= k < |outs|
      ensures LastSource(outs, outs[k].1).Some? ==> !Writes(ins, LastSource(outs, outs[k].1).value)
    {
      LastSourceIs(outs, outs[k].1);
    }
    forall k | 0 <= k < |ins|
      ensures LastSource(ins, ins[k].1).Some? ==> !Writes(outs, LastSource(ins, ins[k].1).value)
    {
      LastSourceIs(ins, ins[k].1);
    }
  }

  /** When copies to one place have one source, that is the whole condition. */
  lemma DisjointIff(outs: Pairs, ins: Pairs)
    requires SingleSource(outs) && SingleSource(ins)
    ensures Apart(outs, ins) <==> Disjoint(outs, ins)
  {
    hide LastSource;
    if Disjoint(outs, ins) {
      DisjointIsApart(outs, ins);
    }
    if Apart(outs, ins) {
      forall i, j | 0 <= i < |outs| && 0 <= j < |ins|
        ensures outs[i].0 != ins[j].1 && outs[i].1 != ins[j].0
      {
        SingleIsLast(outs, i);
        SingleIsLast(ins, j);
        UndisturbedAt(outs, ins, outs[i].1);
        UndisturbedAt(ins, outs, ins[j].1);
      }
    }
  }

  lemma SingleIsLast(pairs: Pairs, i: nat)
    requires SingleSource(pairs) && i < |pairs|
    ensures LastSource(pairs, pairs[i].1) == Some(pairs[i].0)
  {
    hide LastSource;
    LastSourceIs(pairs, pairs[i].1);
    assert Writes(pairs, pairs[i].1);
    var j :| 0 <= j < |pairs| && pairs[j] == (LastSource(pairs, pairs[i].1).value, pairs[i].1);
  }

  /** Otherwise it is more than is needed: block 0 is copied out and copied into, and its copy
      is overwritten in any case. */
  lemma OverwrittenDoesNotCount(outs: Pairs, ins: Pairs)
    requires outs == [(0, 0), (1, 0)] && ins == [(1, 0)]
    ensures Apart(outs, ins) && !Disjoint(outs, ins)
  {
    assert outs[0].0 == ins[0].1;
    assert LastSource(outs, 0) == Some(1);
    assert ins[..0] == [] && LastSource(ins, 0) == Some(1);
  }
}
