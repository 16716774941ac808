/** Datatypes and small facts about sequences that the other modules share. */
module Basics {
  datatype Option<+T> = None | Some(value: T)

  function Min(a: int, b: int): int { if a <= b then a else b }

  ghost predicate Distinct<T>(s: seq<T>) {
    forall i, j :: 0 <= i < j < |s| ==> s[i] != s[j]
  }

  /** There is always a number that is not used yet. */
  lemma {:induction false} Fresh(used: set<nat>) returns (c: nat)
    ensures c !in used && forall u :: u in used ==> u < c
    decreases |used|
  {
    if used == {} {
      c := 0;
    } else {
      var u :| u in used;
      var d := Fresh(used - {u});
      c := if u < d then d else u + 1;
      forall v | v in used ensures v < c {
        assert v == u || v in used - {u};
      }
    }
  }
}
