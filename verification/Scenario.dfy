/** The workload profile both generators read: a list of linear chunks (WorkloadLevel). */
module Scenario {
  const SECOND: int := 1_000_000_000 // nanoseconds

  // Levels are floating point in the program and exact reals here; the duration is in nanoseconds.
  datatype Level = Level(levelStart: real, levelEnd: real, duration: int)

  function TotalDuration(scn: seq<Level>): int {
    if scn == [] then 0 else scn[0].duration + TotalDuration(scn[1..])
  }

  lemma {:induction false} DurationAppend(a: seq<Level>, b: seq<Level>)
    ensures TotalDuration(a + b) == TotalDuration(a) + TotalDuration(b)
  {
    if a == [] {
      assert a + b == b;
    } else {
      assert (a + b)[1..] == a[1..] + b;
      DurationAppend(a[1..], b);
    }
  }

  lemma DurationSnoc(scn: seq<Level>, j: nat)
    requires j < |scn|
    ensures TotalDuration(scn[..j + 1]) == TotalDuration(scn[..j]) + scn[j].duration
  {
    assert scn[..j + 1] == scn[..j] + [scn[j]];
    DurationAppend(scn[..j], [scn[j]]);
  }
}
