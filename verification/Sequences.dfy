/** Sequences without repetition, and as parts of one another. */
module Sequences {
  ghost predicate NoDup<T>(s: seq<T>) {
    forall i, j :: 0 <= i < j < |s| ==> s[i] != s[j]
  }

  ghost function Elements<T>(s: seq<T>): set<T> {
    set x | x in s
  }

  ghost predicate OccursAt<T>(text: seq<T>, s: seq<T>, i: nat) {
    i + |s| <= |text| && text[i..i + |s|] == s
  }
}
