/**
  The policy publisher's wave scheduler. Wave 0 holds the policies without
  a base policy; each later wave holds the policies not yet added whose base
  policy has been added; the rounds stop when one adds nothing or when as
  many ids are added as there are policy files. The run fails when fewer
  distinct ids than policy files were added.
 */
module Scheduler {
  import opened Wrappers
  import opened Positions

  /** One policy file: its `PolicyId`, its `BasePolicy` id (`""` when none) and its file name. */
  datatype Policy = Policy(id: string, parentId: string, file: string)

  /** The reasons a publish run stops, one per failure message the publisher reports. */
  datatype PublishError = NoPolicyFiles | MissingBasePolicy | NoAccessToken | UploadFailed

  /** Which policies a wave takes. */
  datatype Filter = Roots | Ready(added: set<string>)

  predicate Keeps(f: Filter, p: Policy) {
    match f
    case Roots => p.parentId == ""
    case Ready(added) => p.id !in added && p.parentId in added
  }

  /** The ids of the policies `f` keeps, in input order (`filter` then `map`). */
  function Select(ps: seq<Policy>, f: Filter): (r: seq<string>)
    ensures |r| <= |ps|
    ensures forall i :: 0 <= i < |ps| && Keeps(f, ps[i]) ==> ps[i].id in r
    ensures forall x :: x in r ==> exists i :: 0 <= i < |ps| && Keeps(f, ps[i]) && ps[i].id == x
    ensures (forall i :: 0 <= i < |ps| ==> !Keeps(f, ps[i])) ==> r == []
  {
    if ps == [] then []
    else
      var rest := Select(ps[1..], f);
      assert forall i :: 1 <= i < |ps| ==> ps[i] == ps[1..][i - 1];
      (if Keeps(f, ps[0]) then [ps[0].id] else []) + rest
  }

  /** The positions of the policies `f` keeps, ascending. */
  function KeptIndices(ps: seq<Policy>, f: Filter): seq<nat>
    decreases |ps|
  {
    if ps == [] then []
    else (if Keeps(f, ps[0]) then [0] else []) + Bump(KeptIndices(ps[1..], f))
  }

  /**
    `r` lists the ids of `ps` at the ascending positions `idx`, and `idx`
    holds every position whose policy `f` keeps and no other.
   */
  predicate InOrder(ps: seq<Policy>, f: Filter, idx: seq<nat>, r: seq<string>) {
    && |idx| == |r|
    && (forall t :: 0 <= t < |idx| ==> idx[t] < |ps| && Keeps(f, ps[idx[t]]) && r[t] == ps[idx[t]].id)
    && Ascending(idx)
    && (forall i :: 0 <= i < |ps| && Keeps(f, ps[i]) ==> i in idx)
  }

  lemma KeptAllCons(ps: seq<Policy>, f: Filter, rest: seq<nat>)
    requires ps != []
    requires forall i :: 0 <= i < |ps[1..]| && Keeps(f, ps[1..][i]) ==> i in rest
    ensures forall i :: 0 <= i < |ps| && Keeps(f, ps[i]) ==>
      i in (if Keeps(f, ps[0]) then [0] else []) + Bump(rest)
  {
    var head: seq<nat> := if Keeps(f, ps[0]) then [0] else [];
    var bumped := Bump(rest);
    forall i | 0 <= i < |ps| && Keeps(f, ps[i]) ensures i in head + bumped {
      if i > 0 {
        assert ps[i] == ps[1..][i - 1];
        var t :| 0 <= t < |rest| && rest[t] == i - 1;
        assert bumped[t] == i;
        assert (head + bumped)[|head| + t] == i;
      } else {
        assert (head + bumped)[0] == 0;
      }
    }
  }

  lemma KeptAtCons(ps: seq<Policy>, f: Filter, rest: seq<nat>, rr: seq<string>, idx: seq<nat>, r: seq<string>)
    requires ps != [] && |rest| == |rr|
    requires forall t :: 0 <= t < |rest| ==>
      rest[t] < |ps| - 1 && Keeps(f, ps[rest[t] + 1]) && rr[t] == ps[rest[t] + 1].id
    requires idx == (if Keeps(f, ps[0]) then [0] else []) + Bump(rest)
    requires r == (if Keeps(f, ps[0]) then [ps[0].id] else []) + rr
    ensures |idx| == |r|
    ensures forall t :: 0 <= t < |idx| ==> idx[t] < |ps| && Keeps(f, ps[idx[t]]) && r[t] == ps[idx[t]].id
  {
    var h := if Keeps(f, ps[0]) then 1 else 0;
    forall t | 0 <= t < |idx|
      ensures idx[t] < |ps| && Keeps(f, ps[idx[t]]) && r[t] == ps[idx[t]].id
    {
      if t < h {
        assert idx[t] == 0 && r[t] == ps[0].id;
      } else {
        assert idx[t] == rest[t - h] + 1 && r[t] == rr[t - h];
      }
    }
  }

  /** A wave is the kept ids in the order of the policy files, as `filter` keeps it. */
  lemma {:induction false} SelectInOrder(ps: seq<Policy>, f: Filter)
    ensures InOrder(ps, f, KeptIndices(ps, f), Select(ps, f))
    decreases |ps|
  {
    if ps != [] {
      SelectInOrder(ps[1..], f);
      var rest := KeptIndices(ps[1..], f);
      var head: seq<nat> := if Keeps(f, ps[0]) then [0] else [];
      var rr := Select(ps[1..], f);
      forall t | 0 <= t < |rest|
        ensures rest[t] < |ps| - 1 && Keeps(f, ps[rest[t] + 1]) && rr[t] == ps[rest[t] + 1].id
      {
        assert ps[rest[t] + 1] == ps[1..][rest[t]];
      }
      KeptAtCons(ps, f, rest, rr, KeptIndices(ps, f), Select(ps, f));
      AscendingCons(head, rest);
      KeptAllCons(ps, f, rest);
    }
  }

  /** The set of ids of the policies. */
  function IdSet(ps: seq<Policy>): (r: set<string>)
    ensures forall i :: 0 <= i < |ps| ==> ps[i].id in r
    ensures forall x :: x in r ==> exists i :: 0 <= i < |ps| && ps[i].id == x
  {
    if ps == [] then {}
    else
      assert forall i :: 1 <= i < |ps| ==> ps[i] == ps[1..][i - 1];
      {ps[0].id} + IdSet(ps[1..])
  }

  predicate DistinctIds(ps: seq<Policy>) {
    forall i, j :: 0 <= i < j < |ps| ==> ps[i].id != ps[j].id
  }

  lemma DistinctIdsCons(ps: seq<Policy>)
    requires ps != []
    ensures DistinctIds(ps) <==> DistinctIds(ps[1..]) && ps[0].id !in IdSet(ps[1..])
  {
    var tail := ps[1..];
    if DistinctIds(tail) && ps[0].id !in IdSet(tail) {
      forall i, j | 0 <= i < j < |ps| ensures ps[i].id != ps[j].id {
        assert ps[j] == tail[j - 1];
        if i > 0 { assert ps[i] == tail[i - 1]; }
      }
    }
    if DistinctIds(ps) {
      forall i, j | 0 <= i < j < |tail| ensures tail[i].id != tail[j].id {
        assert tail[i] == ps[i + 1] && tail[j] == ps[j + 1];
      }
      forall i | 0 <= i < |tail| ensures tail[i].id != ps[0].id {
        assert tail[i] == ps[i + 1];
      }
    }
  }

  /** There are at most as many distinct ids as policies, and exactly as many when no id repeats. */
  lemma {:induction false} IdSetCard(ps: seq<Policy>)
    ensures |IdSet(ps)| <= |ps|
    ensures |IdSet(ps)| == |ps| <==> DistinctIds(ps)
  {
    if ps != [] {
      var tail := ps[1..];
      IdSetCard(tail);
      DistinctIdsCons(ps);
      var rest := IdSet(tail);
      assert IdSet(ps) == {ps[0].id} + rest;
      if ps[0].id in rest {
        assert {ps[0].id} + rest == rest;
      } else {
        assert |{ps[0].id} + rest| == |rest| + 1;
      }
    }
  }

  function Elems(w: seq<string>): set<string> {
    set x | x in w
  }

  /** Inserts the items one by one into the set. */
  function AddRange(added: set<string>, items: seq<string>): (r: set<string>)
    ensures r == added + Elems(items)
    decreases |items|
  {
    if items == [] then added
    else
      var r := AddRange(added + {items[0]}, items[1..]);
      assert Elems(items) == {items[0]} + Elems(items[1..]);
      r
  }

  /** Every id in the waves. */
  function Covered(waves: seq<seq<string>>): set<string> {
    if waves == [] then {} else Covered(waves[..|waves| - 1]) + Elems(waves[|waves| - 1])
  }

  /** Each wave is exactly what the scheduler computes from the waves before it. */
  predicate Levels(ps: seq<Policy>, waves: seq<seq<string>>)
    decreases |waves|
  {
    if |waves| <= 1 then waves == [Select(ps, Roots)]
    else
      var init := waves[..|waves| - 1];
      Levels(ps, init) && waves[|waves| - 1] == Select(ps, Ready(Covered(init)))
  }

  /** Adding new ids: nothing in `added` was added again, every policy whose base is in `added` is in it. */
  predicate Closed(ps: seq<Policy>, added: set<string>) {
    forall i :: 0 <= i < |ps| && ps[i].parentId in added ==> ps[i].id in added
  }

  /** The last wave is empty: the final round added nothing. */
  predicate EndsEmpty(waves: seq<seq<string>>) {
    |waves| > 0 && waves[|waves| - 1] == []
  }

  datatype Growth = Growth(added: set<string>, waves: seq<seq<string>>)

  /**
    The loop condition after the round that appended wave `k`: that round
    grew the added set, and fewer ids than policy files are added.
   */
  predicate Continued(ps: seq<Policy>, waves: seq<seq<string>>, k: int) {
    0 <= k < |waves| && |Covered(waves[..k])| < |Covered(waves[..k + 1])| < |ps|
  }

  /** The rounds went on only while the loop condition held: after each wave from `from` on but the last. */
  predicate KeptGoing(ps: seq<Policy>, waves: seq<seq<string>>, from: nat) {
    forall k :: from <= k < |waves| - 1 ==> Continued(ps, waves, k)
  }

  /** A round that grew the set and left it short of the file count extends the rounds that follow it. */
  lemma KeptGoingStep(ps: seq<Policy>, waves: seq<seq<string>>, w: seq<string>, gw: seq<seq<string>>)
    requires |gw| > |waves| + 1 && gw[..|waves| + 1] == waves + [w]
    requires |Covered(waves)| < |Covered(waves + [w])| < |ps|
    requires KeptGoing(ps, gw, |waves| + 1)
    ensures gw[..|waves|] == waves && KeptGoing(ps, gw, |waves|)
  {
    assert gw[..|waves|] == (waves + [w])[..|waves|] == waves;
    assert Continued(ps, gw, |waves|);
  }

  lemma GrowthShrinks(ids: set<string>, added: set<string>, added': set<string>)
    requires added <= added' <= ids && |added'| > |added|
    ensures |ids - added'| < |ids - added|
  {
    assert ids - added == (ids - added') + (added' - added);
    assert (ids - added') !! (added' - added);
    assert |added'| == |added| + |added' - added|;
  }

  /** Appending the wave computed from the waves so far keeps them a level decomposition. */
  lemma LevelsExtend(ps: seq<Policy>, waves: seq<seq<string>>)
    requires Levels(ps, waves)
    ensures Levels(ps, waves + [Select(ps, Ready(Covered(waves)))])
    ensures Covered(waves + [Select(ps, Ready(Covered(waves)))]) == Covered(waves) + Elems(Select(ps, Ready(Covered(waves))))
  {
    var w := Select(ps, Ready(Covered(waves)));
    CoveredSnoc(waves, w);
    assert |waves| >= 1;
    assert (waves + [w])[..|waves|] == waves;
  }

  lemma CoveredSnoc(waves: seq<seq<string>>, w: seq<string>)
    ensures Covered(waves + [w]) == Covered(waves) + Elems(w)
  {
    assert (waves + [w])[..|waves|] == waves;
  }

  lemma SelectInIds(ps: seq<Policy>, f: Filter)
    ensures Elems(Select(ps, f)) <= IdSet(ps)
  {
    forall x | x in Elems(Select(ps, f)) ensures x in IdSet(ps) {
      var i :| 0 <= i < |ps| && Keeps(f, ps[i]) && ps[i].id == x;
    }
  }

  /** A round that adds nothing leaves an empty wave and a closed set. */
  lemma NoProgress(ps: seq<Policy>, added: set<string>)
    requires added + Elems(Select(ps, Ready(added))) == added
    ensures Select(ps, Ready(added)) == []
    ensures Closed(ps, added)
  {
    var w := Select(ps, Ready(added));
    assert forall x :: x in w ==> x in added;
    forall i | 0 <= i < |ps| ensures !Keeps(Ready(added), ps[i]) {
      var p := ps[i];
      assert Keeps(Ready(added), p) ==> p.id in w;
    }
  }

  /**
    The `do ... while` rounds: each round appends the next wave (even an
    empty one) and adds its ids; the rounds go on while a round added
    something and fewer ids than policies are added.
   */
  function Grow(ps: seq<Policy>, added: set<string>, waves: seq<seq<string>>): (g: Growth)
    requires Levels(ps, waves) && added == Covered(waves) && added <= IdSet(ps)
    ensures Levels(ps, g.waves) && |g.waves| > |waves|
    ensures g.added == Covered(g.waves) && added <= g.added <= IdSet(ps)
    ensures |g.added| >= |ps| || (EndsEmpty(g.waves) && Closed(ps, g.added))
    ensures Select(ps, Ready(added)) == [] ==> g == Growth(added, waves + [[]])
    ensures g.waves[..|waves|] == waves && KeptGoing(ps, g.waves, |waves|)
    decreases |IdSet(ps) - added|
  {
    var w := Select(ps, Ready(added));
    var added' := AddRange(added, w);
    var waves' := waves + [w];
    LevelsExtend(ps, waves);
    SelectInIds(ps, Ready(added));
    assert added' <= IdSet(ps);
    assert w == [] ==> added' == added;
    if |added'| > |added| && |ps| > |added'| then
      GrowthShrinks(IdSet(ps), added, added');
      assert w != [];
      var g := Grow(ps, added', waves');
      KeptGoingStep(ps, waves, w, g.waves);
      g
    else if |added'| <= |added| then
      assert added' == added;
      NoProgress(ps, added);
      Growth(added', waves')
    else
      assert |added'| >= |ps|;
      Growth(added', waves')
  }

  /** The deployment plan: the waves, and the set of added ids whose size is reported. */
  datatype Plan = Plan(waves: seq<seq<string>>, added: set<string>)

  lemma SubsetFull(a: set<string>, b: set<string>)
    requires a <= b && |a| >= |b|
    ensures a == b
  {
    assert b == a + (b - a);
    assert |b - a| == 0;
  }

  /** Wave 0 followed by the `do ... while` rounds. */
  function Rounds(ps: seq<Policy>): (g: Growth)
    ensures Levels(ps, g.waves) && g.added == Covered(g.waves)
    ensures Elems(Select(ps, Roots)) <= g.added <= IdSet(ps)
    ensures |g.added| >= |ps| || (EndsEmpty(g.waves) && Closed(ps, g.added))
    ensures var first := Select(ps, Roots);
      Select(ps, Ready(Elems(first))) == [] ==> g == Growth(Elems(first), [first, []])
    ensures |g.waves| >= 2 && KeptGoing(ps, g.waves, 1)
  {
    var first := Select(ps, Roots);
    FirstWave(ps);
    assert AddRange({}, first) == Elems(first);
    assert [first] + [[]] == [first, []];
    Grow(ps, AddRange({}, first), [first])
  }

  /** Builds the plan, or fails before any authentication is attempted. */
  function Schedule(ps: seq<Policy>): (r: Result<Plan, PublishError>)
    ensures ps == [] <==> r == Err(NoPolicyFiles)
    ensures ps != [] ==> (r.Ok? <==> |Rounds(ps).added| >= |ps|)
    ensures r.Err? && ps != [] ==> r.error == MissingBasePolicy
    ensures r.Ok? ==>
      && r.value == Plan(Rounds(ps).waves, Rounds(ps).added)
      && Levels(ps, r.value.waves)
      && r.value.added == Covered(r.value.waves) == IdSet(ps)
      && DistinctIds(ps)
      && |r.value.added| == |ps|
      && |r.value.waves| >= 2 && KeptGoing(ps, r.value.waves, 1)
  {
    if ps == [] then Err(NoPolicyFiles)
    else
      var g := Rounds(ps);
      if |ps| > |g.added| then Err(MissingBasePolicy)
      else
        IdSetCard(ps);
        SubsetFull(g.added, IdSet(ps));
        Ok(Plan(g.waves, g.added))
  }

  /** The plan before any round: wave 0 alone. */
  lemma FirstWave(ps: seq<Policy>)
    ensures var first := Select(ps, Roots);
      Levels(ps, [first]) && Covered([first]) == Elems(first) <= IdSet(ps)
  {
    var waves := [Select(ps, Roots)];
    assert waves[..0] == [];
    SelectInIds(ps, Roots);
  }

}
