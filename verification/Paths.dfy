/** Paths of the loop over stage positions: one step on, or a drop to an earlier position. */
module Paths {

  /** Each move is one position on, or back to a stage at or before the current position. */
  ghost predicate IsPath(visited: seq<nat>, n: nat) {
    && (forall i :: 0 <= i < |visited| ==> visited[i] <= n)
    && forall i :: 0 <= i < |visited| - 1 ==>
         visited[i + 1] == visited[i] + 1 || (visited[i + 1] <= visited[i] && visited[i + 1] < n)
  }

  /** How often the path drops. */
  ghost function Drops(visited: seq<nat>): nat {
    if |visited| <= 1 then 0
    else
      var last := |visited| - 1;
      Drops(visited[..last]) + (if visited[last] <= visited[last - 1] then 1 else 0)
  }

  /** How many positions of the path are stages; position `n` is the final attestation. */
  ghost function StageVisits(visited: seq<nat>, n: nat): nat {
    if visited == [] then 0
    else StageVisits(visited[..|visited| - 1], n) + (if visited[|visited| - 1] < n then 1 else 0)
  }

  lemma PathExtends(visited: seq<nat>, n: nat, next: nat)
    requires IsPath(visited, n) && visited != [] && next <= n
    requires next == visited[|visited| - 1] + 1 || (next <= visited[|visited| - 1] && next < n)
    ensures IsPath(visited + [next], n)
    ensures Drops(visited + [next]) == Drops(visited) + if next <= visited[|visited| - 1] then 1 else 0
    ensures StageVisits(visited + [next], n) == StageVisits(visited, n) + if next < n then 1 else 0
  {
    assert (visited + [next])[..|visited|] == visited;
  }

  lemma MulStep(n: nat, d: nat)
    ensures n * (d + 1) == n * d + n
  {
  }

  /** A path that starts anywhere visits at most `n` stages for each drop and for the first pass. */
  lemma {:induction false} StageVisitsAreBounded(visited: seq<nat>, n: nat)
    requires IsPath(visited, n) && visited != []
    ensures var last := visited[|visited| - 1];
            StageVisits(visited, n) <= n * Drops(visited) + if last < n then last + 1 else n
    decreases |visited|
  {
    if |visited| > 1 {
      var front, last := visited[..|visited| - 1], visited[|visited| - 1];
      StageVisitsAreBounded(front, n);
      MulStep(n, Drops(front));
    }
  }

  /** A path ends with an unbroken ascent, which begins at its start or right after its last drop. */
  lemma {:induction false} EndsInAscent(visited: seq<nat>, n: nat) returns (t: nat)
    requires IsPath(visited, n) && visited != []
    ensures t < |visited| && (t == 0 || visited[t] <= visited[t - 1])
    ensures forall i :: t <= i < |visited| ==> visited[i] == visited[t] + (i - t)
    decreases |visited|
  {
    var last := |visited| - 1;
    if last == 0 || visited[last] <= visited[last - 1] {
      t := last;
    } else {
      t := EndsInAscent(visited[..last], n);
    }
  }
}
