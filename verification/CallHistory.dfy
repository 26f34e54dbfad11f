/** What callers asked for and were answered, independent of how a structure keeps it. */
module CallHistory {

  /** Of a row of things with an owner each, those of one owner, in order. */
  ghost function OwnedBy<T>(xs: seq<T>, owners: seq<nat>, t: nat): seq<T>
    requires |xs| == |owners|
    decreases |xs|
  {
    if |xs| == 0 then [] else
    var last := |xs| - 1;
    OwnedBy(xs[..last], owners[..last], t) + if owners[last] == t then [xs[last]] else []
  }

  lemma OwnedByMore<T>(xs: seq<T>, owners: seq<nat>, x: T, owner: nat, t: nat)
    requires |xs| == |owners|
    ensures OwnedBy(xs + [x], owners + [owner], t) == OwnedBy(xs, owners, t) + if owner == t then [x] else []
  {
    assert (xs + [x])[..|xs|] == xs;
    assert (owners + [owner])[..|xs|] == owners;
  }

  /** The arguments of the calls that were answered with true. */
  ghost function Accepted<T>(calls: seq<T>, answers: seq<bool>): seq<T>
    requires |answers| <= |calls|
    decreases |answers|
  {
    if |answers| == 0 then [] else
    var last := |answers| - 1;
    Accepted(calls, answers[..last]) + if answers[last] then [calls[last]] else []
  }

  lemma AcceptedMore<T>(calls: seq<T>, answers: seq<bool>, more: seq<T>)
    requires |answers| <= |calls|
    ensures Accepted(calls + more, answers) == Accepted(calls, answers)
    decreases |answers|
  {
    if |answers| != 0 {
      AcceptedMore(calls, answers[..|answers| - 1], more);
    }
  }

  lemma AcceptedNext<T>(calls: seq<T>, answers: seq<bool>, answer: bool)
    requires |answers| < |calls|
    ensures Accepted(calls, answers + [answer])
         == Accepted(calls, answers) + if answer then [calls[|answers|]] else []
  {
    assert (answers + [answer])[..|answers|] == answers;
  }
}
