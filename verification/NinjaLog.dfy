/** `ReadTargets` of tools/report_build_time_ninja.py: reading a .ninja_log, with the
    two rules that throw away the records of earlier builds. */
module NinjaLog {

  /** One line after the header, split at its tabs: a line without exactly five fields,
      a line whose times are not integers, or a record.  Times are in seconds. */
  datatype Line = Malformed | Unparsable | Record(entry: Entry)
  datatype Entry = Entry(start: real, end: real, name: string, hash: string)

  /** A target, stored under its command hash in an insertion-ordered dictionary. */
  datatype Target = Target(hash: string, start: real, end: real, names: seq<string>)

  datatype Outcome = Targets(targets: seq<Target>) | UnrecognizedVersion | ValueError

  const HEADER := "# ninja log v5\n"

  // ----- the reference: which records count, and how they are grouped

  ghost function Entries(lines: seq<Line>): seq<Entry> {
    if lines == [] then []
    else Entries(lines[..|lines| - 1]) +
         if lines[|lines| - 1].Record? then [lines[|lines| - 1].entry] else []
  }

  /** The record cannot belong to the same build as the given ones: one of them ended
      later, or the same command ran at other times. */
  ghost predicate Conflicts(build: seq<Entry>, e: Entry) {
    exists x :: x in build && (x.end > e.end || (x.hash == e.hash && (x.start != e.start || x.end != e.end)))
  }

  /** Where the last build begins. */
  ghost function Cut(entries: seq<Entry>): (k: nat)
    ensures k <= |entries|
  {
    if entries == [] then 0
    else
      var earlier := entries[..|entries| - 1];
      if Conflicts(earlier[Cut(earlier)..], entries[|entries| - 1]) then |entries| - 1 else Cut(earlier)
  }

  /** The records of one build are compatible with each other. */
  ghost predicate Consistent(build: seq<Entry>) {
    && (forall i, j :: 0 <= i < j < |build| ==> build[i].end <= build[j].end)
    && (forall i, j :: 0 <= i < j < |build| && build[i].hash == build[j].hash ==>
          build[i].start == build[j].start && build[i].end == build[j].end)
  }

  ghost function NamesOf(entries: seq<Entry>, hash: string): seq<string> {
    if entries == [] then []
    else NamesOf(entries[..|entries| - 1], hash) +
         if entries[|entries| - 1].hash == hash then [entries[|entries| - 1].name] else []
  }

  /** The first record with the given hash, which fixes the target's times and place. */
  ghost predicate IsFirst(entries: seq<Entry>, i: nat, t: Target) {
    && i < |entries| && entries[i].hash == t.hash
    && entries[i].start == t.start && entries[i].end == t.end
    && forall j :: 0 <= j < i ==> entries[j].hash != t.hash
  }

  /** The targets are the records grouped by command hash: one target per hash, with
      all its names in order, the times of its first record, and in the order of the
      first records, which `firsts` lists. */
  ghost predicate Groups(entries: seq<Entry>, targets: seq<Target>, firsts: seq<nat>) {
    InOrder(entries, targets, firsts) && NamesRight(entries, targets) && CoversAll(entries, targets)
  }

  ghost predicate InOrder(entries: seq<Entry>, targets: seq<Target>, firsts: seq<nat>) {
    && |firsts| == |targets|
    && (forall k :: 0 <= k < |targets| ==> IsFirst(entries, firsts[k], targets[k]))
    && (forall j, k :: 0 <= j < k < |targets| ==> firsts[j] < firsts[k])
  }

  ghost predicate NamesRight(entries: seq<Entry>, targets: seq<Target>) {
    forall k :: 0 <= k < |targets| ==> targets[k].names == NamesOf(entries, targets[k].hash)
  }

  ghost predicate CoversAll(entries: seq<Entry>, targets: seq<Target>) {
    forall i :: 0 <= i < |entries| ==> HasHash(targets, entries[i].hash)
  }

  ghost predicate HasHash(targets: seq<Target>, hash: string) {
    exists k :: 0 <= k < |targets| && targets[k].hash == hash
  }

  // ----- facts about the reference

  /** Everything from the cut on belongs to one build. */
  lemma {:induction false} CutIsConsistent(entries: seq<Entry>)
    ensures Consistent(entries[Cut(entries)..])
    ensures entries != [] ==> Cut(entries) < |entries|
  {
    if entries != [] {
      var earlier, e := entries[..|entries| - 1], entries[|entries| - 1];
      CutIsConsistent(earlier);
      var c := Cut(earlier);
      if !Conflicts(earlier[c..], e) {
        ConsistentExtends(earlier[c..], e);
        assert entries[c..] == earlier[c..] + [e];
      }
    }
  }

  lemma ConsistentExtends(build: seq<Entry>, e: Entry)
    requires Consistent(build) && !Conflicts(build, e)
    ensures Consistent(build + [e])
  {
    forall i | 0 <= i < |build|
      ensures build[i].end <= e.end
      ensures build[i].hash == e.hash ==> build[i].start == e.start && build[i].end == e.end
    {
      assert build[i] in build;
    }
  }

  /** The record at the cut did not belong to the build before it. */
  lemma {:induction false} CutIsReset(entries: seq<Entry>)
    requires Cut(entries) > 0
    ensures Cut(entries) < |entries|
    ensures Conflicts(entries[Cut(entries[..Cut(entries)])..Cut(entries)], entries[Cut(entries)])
  {
    var earlier, e := entries[..|entries| - 1], entries[|entries| - 1];
    var c := Cut(earlier);
    if Conflicts(earlier[c..], e) {
      assert entries[Cut(earlier)..|entries| - 1] == earlier[c..];
    } else {
      CutIsReset(earlier);
      assert entries[..c] == earlier[..c];
      assert entries[Cut(entries[..c])..c] == earlier[Cut(earlier[..c])..c];
    }
  }

  /** In a consistent build a later record conflicts exactly when it ends before the
      last one or repeats a command at other times. */
  lemma ConflictTest(build: seq<Entry>, e: Entry)
    requires Consistent(build)
    ensures Conflicts(build, e) <==>
            || (build != [] && e.end < build[|build| - 1].end)
            || exists x :: x in build && x.hash == e.hash && (x.start != e.start || x.end != e.end)
  {
    if build != [] && e.end < build[|build| - 1].end {
      assert build[|build| - 1] in build;
    }
    if x :| x in build && x.end > e.end {
      var i :| 0 <= i < |build| && build[i] == x;
      assert i == |build| - 1 || build[i].end <= build[|build| - 1].end;
    }
  }

  lemma GroupOfNothing()
    ensures Groups([], [], [])
  {
  }

  /** A record with a new hash becomes a target at the end. */
  lemma GroupNew(entries: seq<Entry>, targets: seq<Target>, firsts: seq<nat>, e: Entry)
    requires Groups(entries, targets, firsts) && !HasHash(targets, e.hash)
    ensures Groups(entries + [e], targets + [Target(e.hash, e.start, e.end, [e.name])], firsts + [|entries|])
  {
    hide InOrder, NamesRight;
    var t := Target(e.hash, e.start, e.end, [e.name]);
    HashIsNew(entries, targets, e.hash);
    InOrderNew(entries, targets, firsts, e, t);
    NamesNew(entries, targets, e, t);
    CoversMore(entries, targets, targets + [t], e);
  }

  lemma HashIsNew(entries: seq<Entry>, targets: seq<Target>, hash: string)
    requires CoversAll(entries, targets) && !HasHash(targets, hash)
    ensures forall i :: 0 <= i < |entries| ==> entries[i].hash != hash
  {
  }

  lemma CoversMore(entries: seq<Entry>, targets: seq<Target>, grown: seq<Target>, e: Entry)
    requires CoversAll(entries, targets) && |targets| <= |grown|
    requires forall k :: 0 <= k < |targets| ==> grown[k].hash == targets[k].hash
    requires HasHash(targets, e.hash) || (|grown| == |targets| + 1 && grown[|targets|].hash == e.hash)
    ensures CoversAll(entries + [e], grown)
  {
    forall hash | HasHash(targets, hash)
      ensures HasHash(grown, hash)
    {
      var k :| 0 <= k < |targets| && targets[k].hash == hash;
      assert grown[k].hash == hash;
    }
    if !HasHash(targets, e.hash) {
      assert grown[|targets|].hash == e.hash;
    }
  }

  lemma InOrderNew(entries: seq<Entry>, targets: seq<Target>, firsts: seq<nat>, e: Entry, t: Target)
    requires InOrder(entries, targets, firsts) && t.hash == e.hash && t.start == e.start && t.end == e.end
    requires forall i :: 0 <= i < |entries| ==> entries[i].hash != e.hash
    ensures InOrder(entries + [e], targets + [t], firsts + [|entries|])
  {
    var more := entries + [e];
    forall k | 0 <= k < |targets|
      ensures IsFirst(more, firsts[k], targets[k])
    {
      assert IsFirst(entries, firsts[k], targets[k]);
    }
    assert IsFirst(more, |entries|, t);
  }

  lemma NamesNew(entries: seq<Entry>, targets: seq<Target>, e: Entry, t: Target)
    requires NamesRight(entries, targets) && t.hash == e.hash && t.names == [e.name] && !HasHash(targets, e.hash)
    requires forall i :: 0 <= i < |entries| ==> entries[i].hash != e.hash
    ensures NamesRight(entries + [e], targets + [t])
  {
    NoNames(entries, e.hash);
    assert (entries + [e])[..|entries|] == entries;
  }

  lemma {:induction false} NoNames(entries: seq<Entry>, hash: string)
    requires forall i :: 0 <= i < |entries| ==> entries[i].hash != hash
    ensures NamesOf(entries, hash) == []
  {
    if entries != [] {
      NoNames(entries[..|entries| - 1], hash);
    }
  }

  /** A record with a known hash adds its name to that target. */
  lemma GroupKnown(entries: seq<Entry>, targets: seq<Target>, firsts: seq<nat>, e: Entry, k: nat)
    requires Groups(entries, targets, firsts) && k < |targets| && targets[k].hash == e.hash
    ensures Groups(entries + [e], targets[k := targets[k].(names := targets[k].names + [e.name])], firsts)
  {
    hide InOrder, NamesRight, NamesOf;
    var more := entries + [e];
    var grown := targets[k := targets[k].(names := targets[k].names + [e.name])];
    InOrderKnown(entries, targets, grown, firsts, e);
    NamesKnown(entries, targets, firsts, e, k);
    CoversMore(entries, targets, grown, e);
  }

  lemma InOrderKnown(entries: seq<Entry>, targets: seq<Target>, grown: seq<Target>, firsts: seq<nat>, e: Entry)
    requires InOrder(entries, targets, firsts) && |grown| == |targets|
    requires forall k :: 0 <= k < |targets| ==> grown[k] == targets[k].(names := grown[k].names)
    ensures InOrder(entries + [e], grown, firsts)
  {
    forall k | 0 <= k < |targets|
      ensures IsFirst(entries + [e], firsts[k], grown[k])
    {
      assert IsFirst(entries, firsts[k], targets[k]);
    }
  }

  lemma NamesKnown(entries: seq<Entry>, targets: seq<Target>, firsts: seq<nat>, e: Entry, k: nat)
    requires Groups(entries, targets, firsts) && k < |targets| && targets[k].hash == e.hash
    ensures NamesRight(entries + [e], targets[k := targets[k].(names := targets[k].names + [e.name])])
  {
    hide InOrder, CoversAll;
    var grown := targets[k := targets[k].(names := targets[k].names + [e.name])];
    assert (entries + [e])[..|entries|] == entries;
    forall j | 0 <= j < |targets|
      ensures grown[j].names == NamesOf(entries + [e], grown[j].hash)
    {
      DistinctHashes(entries, targets, firsts, j, k);
    }
  }

  /** No two targets share a hash. */
  lemma DistinctHashes(entries: seq<Entry>, targets: seq<Target>, firsts: seq<nat>, j: nat, k: nat)
    requires Groups(entries, targets, firsts) && j < |targets| && k < |targets|
    ensures targets[j].hash == targets[k].hash <==> j == k
  {
    assert IsFirst(entries, firsts[j], targets[j]) && IsFirst(entries, firsts[k], targets[k]);
  }

  // ----- the reader

  /** The position of a hash in the dictionary, or its size when absent. */
  method Find(targets: seq<Target>, hash: string) returns (k: nat)
    ensures k <= |targets|
    ensures k < |targets| ==> targets[k].hash == hash
    ensures k == |targets| ==> !HasHash(targets, hash)
  {
    for i := 0 to |targets|
      invariant forall j :: 0 <= j < i ==> targets[j].hash != hash
    {
      if targets[i].hash == hash {
        return i;
      }
    }
    k := |targets|;
  }

  /** In one build, a known command at the same times is no conflict. */
  lemma SameTimes(build: seq<Entry>, targets: seq<Target>, firsts: seq<nat>, e: Entry, k: nat)
    requires Groups(build, targets, firsts) && Consistent(build)
    requires k <= |targets| && (k < |targets| ==> targets[k].hash == e.hash)
    requires k == |targets| ==> !HasHash(targets, e.hash)
    ensures (exists x :: x in build && x.hash == e.hash && (x.start != e.start || x.end != e.end)) <==>
            k < |targets| && (targets[k].start != e.start || targets[k].end != e.end)
  {
    if k < |targets| {
      var f := firsts[k];
      assert IsFirst(build, f, targets[k]);
      assert build[f] in build;
      forall x | x in build && x.hash == e.hash
        ensures x.start == targets[k].start && x.end == targets[k].end
      {
        var i :| 0 <= i < |build| && build[i] == x;
        assert i == f || f < i;
      }
    } else {
      forall x | x in build
        ensures x.hash != e.hash
      {
        var i :| 0 <= i < |build| && build[i] == x;
      }
    }
  }

  /** One record: the two resets, then the record joins its target or becomes a new one. */
  method AddRecord(ghost entries: seq<Entry>, e: Entry, showAll: bool, known: seq<Target>, ghost knownFirsts: seq<nat>,
                   lastEndSeen: real)
    returns (targets: seq<Target>, ghost firsts: seq<nat>)
    requires Reading(entries, showAll, known, knownFirsts, lastEndSeen)
    ensures Reading(entries + [e], showAll, targets, firsts, e.end)
  {
    hide Groups, Consistent, Conflicts, Cut, HasHash, Kept, Counted;
    targets, firsts := known, knownFirsts;
    ghost var kept := Kept(entries, e, showAll);
    GroupOfNothing();
    if showAll {
      KeptWhenAll(entries, e);
    }
    if !showAll && e.end < lastEndSeen {
      EarlierEnd(entries, targets, firsts, lastEndSeen, e);
      targets, firsts := [], [];
    }
    var k := Find(targets, e.hash);
    if !showAll && !(e.end < lastEndSeen) {
      LaterEnd(entries, targets, firsts, lastEndSeen, e, k);
    }
    if k < |targets| && !showAll && (targets[k].start != e.start || targets[k].end != e.end) {
      targets, firsts := [], [];
      k := 0;
      NoHash(e.hash);
    }
    assert Groups(kept, targets, firsts);
    if k == |targets| {
      GroupNew(kept, targets, firsts, e);
      firsts := firsts + [|kept|];
      targets := targets + [Target(e.hash, e.start, e.end, [e.name])];
    } else {
      GroupKnown(kept, targets, firsts, e, k);
      targets := targets[k := targets[k].(names := targets[k].names + [e.name])];
    }
    KeptGrows(entries, e, showAll);
  }

  lemma NoHash(hash: string)
    ensures !HasHash([], hash)
  {
  }

  lemma KeptWhenAll(entries: seq<Entry>, e: Entry)
    ensures Kept(entries, e, true) == Counted(entries, true)
  {
  }

  /** `ReadTargets`.  Without `showAll` the result is the grouping of exactly the records
      from the last reset on; with it, the grouping of all records. */
  method ReadTargets(header: string, lines: seq<Line>, showAll: bool) returns (r: Outcome, ghost firsts: seq<nat>)
    ensures r.UnrecognizedVersion? <==> header != HEADER
    ensures r.ValueError? <==> header == HEADER && Unparsable in lines
    ensures r.Targets? ==>
              var entries := Entries(lines);
              Groups(if showAll then entries else entries[Cut(entries)..], r.targets, firsts)
  {
    firsts := [];
    if header != HEADER {
      return UnrecognizedVersion, [];
    }
    hide Reading, Groups, Consistent, Conflicts, Entries, Cut;
    var targets: seq<Target> := [];
    var lastEndSeen := 0.0;
    NoLines(lines, showAll);
    for i := 0 to |lines|
      invariant Unparsable !in lines[..i]
      invariant Reading(Entries(lines[..i]), showAll, targets, firsts, lastEndSeen)
    {
      NextLine(lines, i);
      match lines[i] {
        case Malformed =>
          continue;
        case Unparsable =>
          assert lines[i] in lines;
          return ValueError, [];
        case Record(e) =>
          targets, firsts := AddRecord(Entries(lines[..i]), e, showAll, targets, firsts, lastEndSeen);
          lastEndSeen := e.end;
      }
    }
    assert lines[..|lines|] == lines;
    ReadingDone(Entries(lines), showAll, targets, firsts, lastEndSeen);
    r := Targets(targets);
  }

  /** The records that count so far. */
  ghost function Counted(entries: seq<Entry>, showAll: bool): seq<Entry> {
    if showAll then entries else entries[Cut(entries)..]
  }

  /** Those of them that still count when `e` has been seen. */
  ghost function Kept(entries: seq<Entry>, e: Entry, showAll: bool): seq<Entry> {
    if !showAll && Conflicts(entries[Cut(entries)..], e) then [] else Counted(entries, showAll)
  }

  ghost predicate Reading(entries: seq<Entry>, showAll: bool, targets: seq<Target>, firsts: seq<nat>, lastEnd: real) {
    && Groups(Counted(entries, showAll), targets, firsts)
    && (entries != [] ==> lastEnd == entries[|entries| - 1].end)
  }

  lemma NoLines(lines: seq<Line>, showAll: bool)
    ensures Reading(Entries(lines[..0]), showAll, [], [], 0.0)
  {
  }

  lemma ReadingDone(entries: seq<Entry>, showAll: bool, targets: seq<Target>, firsts: seq<nat>, lastEnd: real)
    requires Reading(entries, showAll, targets, firsts, lastEnd)
    ensures Groups(if showAll then entries else entries[Cut(entries)..], targets, firsts)
  {
    hide Groups;
  }

  lemma NextLine(lines: seq<Line>, i: nat)
    requires i < |lines|
    ensures lines[i].Record? ==> Entries(lines[..i + 1]) == Entries(lines[..i]) + [lines[i].entry]
    ensures !lines[i].Record? ==> Entries(lines[..i + 1]) == Entries(lines[..i])
    ensures Unparsable in lines[..i + 1] <==> Unparsable in lines[..i] || lines[i].Unparsable?
  {
    assert lines[..i + 1] == lines[..i] + [lines[i]];
    assert lines[..i + 1][..i] == lines[..i];
  }

  lemma KeptGrows(entries: seq<Entry>, e: Entry, showAll: bool)
    ensures Counted(entries + [e], showAll) == Kept(entries, e, showAll) + [e]
  {
    var more := entries + [e];
    assert more[..|entries|] == entries;
    assert more[Cut(entries)..] == entries[Cut(entries)..] + [e];
    assert more[|entries|..] == [e];
  }

  /** A record that ends before its predecessor starts a new build. */
  lemma EarlierEnd(entries: seq<Entry>, targets: seq<Target>, firsts: seq<nat>, lastEnd: real, e: Entry)
    requires Reading(entries, false, targets, firsts, lastEnd) && e.end < lastEnd
    ensures Kept(entries, e, false) == []
  {
    hide Groups;
    CutIsConsistent(entries);
    if entries != [] {
      var build := entries[Cut(entries)..];
      assert build[|build| - 1] == entries[|entries| - 1];
      assert build[|build| - 1] in build;
    }
  }

  /** Otherwise a new build starts exactly when the command is known at other times. */
  lemma LaterEnd(entries: seq<Entry>, targets: seq<Target>, firsts: seq<nat>, lastEnd: real, e: Entry, k: nat)
    requires Reading(entries, false, targets, firsts, lastEnd) && e.end >= lastEnd
    requires k <= |targets| && (k < |targets| ==> targets[k].hash == e.hash)
    requires k == |targets| ==> !HasHash(targets, e.hash)
    ensures Kept(entries, e, false) ==
            if k < |targets| && (targets[k].start != e.start || targets[k].end != e.end) then []
            else Counted(entries, false)
  {
    hide Groups, Consistent, Conflicts, Cut, HasHash;
    var build := entries[Cut(entries)..];
    CutIsConsistent(entries);
    ConflictTest(build, e);
    SameTimes(build, targets, firsts, e, k);
    if entries != [] {
      assert build[|build| - 1] == entries[|entries| - 1];
    }
  }
}
