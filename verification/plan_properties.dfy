/**
  What the wave scheduler guarantees: the shape of a successful plan, and
  exactly which inputs make scheduling fail.
 */
module PlanProperties {
  import opened Wrappers
  import opened Scheduler

  // ---------------------------------------------------------------------
  // Facts about level decompositions.
  // ---------------------------------------------------------------------

  lemma {:induction false} LevelsPrefix(ps: seq<Policy>, waves: seq<seq<string>>, n: nat)
    requires Levels(ps, waves) && 1 <= n <= |waves|
    ensures Levels(ps, waves[..n])
    decreases |waves|
  {
    if n < |waves| {
      var init := waves[..|waves| - 1];
      assert Levels(ps, init) by {
        assert |waves| > 1;
      }
      LevelsPrefix(ps, init, n);
      assert init[..n] == waves[..n];
    } else {
      assert waves[..n] == waves;
    }
  }

  /** Wave `k` of a level decomposition is the scheduler's wave for the waves before it. */
  lemma LevelsWave(ps: seq<Policy>, waves: seq<seq<string>>, k: nat)
    requires Levels(ps, waves) && k < |waves|
    ensures k == 0 ==> waves[k] == Select(ps, Roots)
    ensures k > 0 ==> waves[k] == Select(ps, Ready(Covered(waves[..k])))
  {
    LevelsPrefix(ps, waves, k + 1);
    var pre := waves[..k + 1];
    assert pre[..k] == waves[..k];
    assert pre[k] == waves[k];
    if k == 0 {
      assert pre == [Select(ps, Roots)];
    } else {
      assert pre[|pre| - 1] == Select(ps, Ready(Covered(pre[..|pre| - 1])));
    }
  }

  /** Inside every wave the ids keep the order of the policy files. */
  lemma WaveInOrder(ps: seq<Policy>, waves: seq<seq<string>>, k: nat)
    requires Levels(ps, waves) && k < |waves|
    ensures k == 0 ==> InOrder(ps, Roots, KeptIndices(ps, Roots), waves[k])
    ensures k > 0 ==>
      var f := Ready(Covered(waves[..k]));
      InOrder(ps, f, KeptIndices(ps, f), waves[k])
  {
    LevelsWave(ps, waves, k);
    if k == 0 {
      SelectInOrder(ps, Roots);
    } else {
      SelectInOrder(ps, Ready(Covered(waves[..k])));
    }
  }

  lemma {:induction false} CoveredHas(waves: seq<seq<string>>, x: string)
    ensures x in Covered(waves) <==> exists k :: 0 <= k < |waves| && x in waves[k]
    decreases |waves|
  {
    if waves != [] {
      var init := waves[..|waves| - 1];
      CoveredHas(init, x);
      assert forall k :: 0 <= k < |init| ==> init[k] == waves[k];
    }
  }

  /** Every id a level decomposition covers is the id of some policy. */
  lemma {:induction false} LevelsInIds(ps: seq<Policy>, waves: seq<seq<string>>)
    requires Levels(ps, waves)
    ensures Covered(waves) <= IdSet(ps)
    decreases |waves|
  {
    var last := waves[|waves| - 1];
    if |waves| > 1 {
      LevelsInIds(ps, waves[..|waves| - 1]);
      SelectInIds(ps, Ready(Covered(waves[..|waves| - 1])));
    } else {
      assert waves[..0] == [];
      SelectInIds(ps, Roots);
    }
  }

  // ---------------------------------------------------------------------
  // Shape of a successful plan.
  // ---------------------------------------------------------------------

  /**
    A later wave only holds ids that were in no earlier wave and that belong
    to a policy whose base policy is in an earlier wave.
   */
  lemma WaveFresh(ps: seq<Policy>, waves: seq<seq<string>>, k: nat, x: string)
    requires Levels(ps, waves) && 1 <= k < |waves| && x in waves[k]
    ensures x !in Covered(waves[..k])
    ensures exists i :: 0 <= i < |ps| && ps[i].id == x && ps[i].parentId in Covered(waves[..k])
  {
    LevelsWave(ps, waves, k);
  }

  /** No id lands in two waves. */
  lemma WavesDisjoint(ps: seq<Policy>, waves: seq<seq<string>>, j: nat, k: nat, x: string)
    requires Levels(ps, waves) && j < k < |waves|
    requires x in waves[k]
    ensures x !in waves[j]
  {
    WaveFresh(ps, waves, k, x);
    CoveredHas(waves[..k], x);
    assert waves[..k][j] == waves[j];
  }

  /**
    In a successful plan every policy sits in a wave; a root sits in wave 0,
    and any other policy sits in a later wave than its base policy.
   */
  lemma PlanParentsFirst(ps: seq<Policy>, i: nat)
    requires Schedule(ps).Ok? && i < |ps|
    ensures
      var waves := Schedule(ps).value.waves;
      exists k :: 0 <= k < |waves| && ps[i].id in waves[k] &&
        (k == 0 ==> ps[i].parentId == "") &&
        (k > 0 ==> exists j :: 0 <= j < k && ps[i].parentId in waves[j])
  {
    var plan := Schedule(ps).value;
    LevelsParentsFirst(ps, plan.waves, i);
  }

  lemma LevelsParentsFirst(ps: seq<Policy>, waves: seq<seq<string>>, i: nat)
    requires Levels(ps, waves) && Covered(waves) == IdSet(ps) && DistinctIds(ps) && i < |ps|
    ensures
      exists k :: 0 <= k < |waves| && ps[i].id in waves[k] &&
        (k == 0 ==> ps[i].parentId == "") &&
        (k > 0 ==> exists j :: 0 <= j < k && ps[i].parentId in waves[j])
  {
    var x := ps[i].id;
    CoveredHas(waves, x);
    var k :| 0 <= k < |waves| && x in waves[k];
    if k == 0 {
      RootWaveMember(ps, waves, i);
    } else {
      LaterWaveMember(ps, waves, k, i);
    }
  }

  lemma RootWaveMember(ps: seq<Policy>, waves: seq<seq<string>>, i: nat)
    requires Levels(ps, waves) && DistinctIds(ps) && i < |ps| && ps[i].id in waves[0]
    ensures ps[i].parentId == ""
  {
    LevelsWave(ps, waves, 0);
    var m :| 0 <= m < |ps| && Keeps(Roots, ps[m]) && ps[m].id == ps[i].id;
    assert m == i;
  }

  lemma LaterWaveMember(ps: seq<Policy>, waves: seq<seq<string>>, k: nat, i: nat)
    requires Levels(ps, waves) && DistinctIds(ps) && i < |ps| && 0 < k < |waves| && ps[i].id in waves[k]
    ensures exists j :: 0 <= j < k && ps[i].parentId in waves[j]
  {
    var before := Covered(waves[..k]);
    LevelsWave(ps, waves, k);
    var m :| 0 <= m < |ps| && Keeps(Ready(before), ps[m]) && ps[m].id == ps[i].id;
    assert m == i;
    CoveredHas(waves[..k], ps[i].parentId);
    var j :| 0 <= j < k && ps[i].parentId in waves[..k][j];
    assert waves[..k][j] == waves[j];
  }

  /** Three policy files forming a chain: `b` is based on `a`, `c` on `b`. */
  function Chain(): seq<Policy> {
    [Policy("a", "", "a.xml"), Policy("b", "a", "b.xml"), Policy("c", "b", "c.xml")]
  }

  lemma ChainSelects()
    ensures Select(Chain(), Roots) == ["a"]
    ensures Select(Chain(), Ready({"a"})) == ["b"]
    ensures Select(Chain(), Ready({"a", "b"})) == ["c"]
  {
    var ps := Chain();
    assert ps[1..][1..][1..] == [];
    assert ps[1..][1..] == [ps[2]];
    assert ps[1..] == [ps[1], ps[2]];
  }

  lemma ChainCovered()
    ensures Covered([["a"], ["b"]]) == {"a", "b"}
  {
    assert [["a"], ["b"]][..1] == [["a"]];
    assert [["a"]][..0] == [];
    assert Elems(["a"]) == {"a"} && Elems(["b"]) == {"b"};
  }

  lemma ChainCount()
    ensures |{"a", "b"}| == 2 && |{"a", "b", "c"}| == 3
  {
    assert {"a", "b"} == {"a"} + {"b"};
    assert {"a", "b", "c"} == {"a", "b"} + {"c"};
  }

  lemma ChainCoveredAll(w: seq<seq<string>>)
    requires w == [["a"], ["b"], ["c"]]
    ensures Covered(w) == {"a", "b", "c"}
  {
    ChainCovered();
    assert w[..2] == [["a"], ["b"]];
    assert Elems(["c"]) == {"c"};
  }

  /** The first two waves of any plan, in terms of `Select` alone. */
  lemma FirstWaves(ps: seq<Policy>, w: seq<seq<string>>)
    requires Levels(ps, w) && |w| >= 2
    ensures w[..2] == [Select(ps, Roots), Select(ps, Ready(Elems(Select(ps, Roots))))]
  {
    LevelsWave(ps, w, 0);
    assert w[..1] == [w[0]];
    assert Covered(w[..1]) == Elems(w[0]) by { assert w[..1][..0] == []; }
    LevelsWave(ps, w, 1);
  }

  /** For the chain those two waves are `[a]` and `[b]` ... */
  lemma ChainWaves(w: seq<seq<string>>)
    requires |w| >= 2
    requires w[..2] == [Select(Chain(), Roots), Select(Chain(), Ready(Elems(Select(Chain(), Roots))))]
    ensures w[..2] == [["a"], ["b"]]
  {
    assert Elems(["a"]) == {"a"};
    ChainSelects();
  }

  /** ... and a third wave, when there is one, is `[c]`. */
  lemma ChainThirdWave(w: seq<seq<string>>)
    requires |w| >= 3 && w[..2] == [["a"], ["b"]]
    requires w[2] == Select(Chain(), Ready(Covered(w[..2])))
    ensures w[..3] == [["a"], ["b"], ["c"]]
  {
    ChainCovered();
    ChainSelects();
    assert w[2] == ["c"];
  }

  /**
    Whatever satisfies the rounds' contracts for the chain is `[a]`, `[b]`,
    `[c]` and nothing after: two waves cover too little and leave no empty
    wave, and a fourth would need the third round to stay below the count.
   */
  lemma ChainGrowth(g: Growth)
    requires |g.waves| >= 2 && g.waves[..2] == [["a"], ["b"]]
    requires |g.waves| >= 3 ==> g.waves[..3] == [["a"], ["b"], ["c"]]
    requires g.added == Covered(g.waves)
    requires |g.added| >= |Chain()| || EndsEmpty(g.waves)
    requires KeptGoing(Chain(), g.waves, 1)
    ensures g == Growth({"a", "b", "c"}, [["a"], ["b"], ["c"]])
  {
    var w := g.waves;
    ChainCount();
    assert Covered(w[..2]) == {"a", "b"} by { ChainCovered(); }
    assert w[..|w|] == w && w[1] == ["b"];
    assert |w| != 2;
    ChainCoveredAll(w[..3]);
    assert |w| > 3 ==> Continued(Chain(), w, 2);
    assert |w| == 3;
    assert w == w[..3];
  }

  /**
    For the chain the rounds are `[a]`, `[b]`, `[c]`: the third round brings
    the count of added ids to the number of files, so the loop stops there
    and no trailing empty wave is produced.
   */
  lemma ChainRounds()
    ensures Rounds(Chain()) == Growth({"a", "b", "c"}, [["a"], ["b"], ["c"]])
  {
    var ps := Chain();
    var g := Rounds(ps);
    FirstWaves(ps, g.waves);
    ChainWaves(g.waves);
    if |g.waves| >= 3 {
      LevelsWave(ps, g.waves, 2);
      ChainThirdWave(g.waves);
    }
    ChainGrowth(g);
  }

  /** The chain's plan: three waves of one id each. */
  lemma ChainPlan()
    ensures Schedule(Chain()) == Ok(Plan([["a"], ["b"], ["c"]], {"a", "b", "c"}))
  {
    ChainRounds();
    ChainCount();
  }

  /** When every policy is a root, the plan is wave 0 (all ids in input order) and one empty wave. */
  lemma AllRootsPlan(ps: seq<Policy>)
    requires ps != [] && DistinctIds(ps)
    requires forall i :: 0 <= i < |ps| ==> ps[i].parentId == ""
    ensures Schedule(ps).Ok?
    ensures Schedule(ps).value.waves == [Select(ps, Roots), []]
    ensures Select(ps, Roots) == Ids(ps)
  {
    RoundsAllRoots(ps);
    IdSetCard(ps);
    SelectRootsAll(ps);
  }

  lemma RoundsAllRoots(ps: seq<Policy>)
    requires forall i :: 0 <= i < |ps| ==> ps[i].parentId == ""
    ensures Rounds(ps) == Growth(IdSet(ps), [Select(ps, Roots), []])
  {
    RootsCoverAll(ps);
    NothingLeft(ps, Elems(Select(ps, Roots)));
  }

  lemma RootsCoverAll(ps: seq<Policy>)
    requires forall i :: 0 <= i < |ps| ==> ps[i].parentId == ""
    ensures Elems(Select(ps, Roots)) == IdSet(ps)
  {
    SelectInIds(ps, Roots);
    forall x | x in IdSet(ps) ensures x in Elems(Select(ps, Roots)) {
      var i :| 0 <= i < |ps| && ps[i].id == x;
      assert Keeps(Roots, ps[i]);
    }
  }

  /** Once every id is added, no policy is left to deploy. */
  lemma NothingLeft(ps: seq<Policy>, added: set<string>)
    requires IdSet(ps) <= added
    ensures Select(ps, Ready(added)) == []
  {
    forall i | 0 <= i < |ps| ensures !Keeps(Ready(added), ps[i]) {
      assert ps[i].id in added;
    }
  }

  /** The ids of the policies, in input order. */
  function Ids(ps: seq<Policy>): (r: seq<string>)
    ensures |r| == |ps| && forall i :: 0 <= i < |ps| ==> r[i] == ps[i].id
  {
    if ps == [] then [] else [ps[0].id] + Ids(ps[1..])
  }

  lemma {:induction false} SelectRootsAll(ps: seq<Policy>)
    requires forall i :: 0 <= i < |ps| ==> ps[i].parentId == ""
    ensures Select(ps, Roots) == Ids(ps)
  {
    if ps != [] {
      assert ps[0].parentId == "";
      SelectRootsAll(ps[1..]);
    }
  }

  // ---------------------------------------------------------------------
  // When scheduling fails.
  // ---------------------------------------------------------------------

  /**
    A set of ids none of which can ever be added: every policy carrying one
    of them has a base policy that is neither a root marker nor an id
    outside the set.
   */
  predicate Blocked(ps: seq<Policy>, b: set<string>) {
    forall i :: 0 <= i < |ps| && ps[i].id in b ==>
      ps[i].parentId != "" && (ps[i].parentId in b || ps[i].parentId !in IdSet(ps))
  }

  /** Every policy's chain of base policies reaches a root: no blocked set meets the ids. */
  ghost predicate Grounded(ps: seq<Policy>) {
    forall b: set<string> :: Blocked(ps, b) ==> b !! IdSet(ps)
  }

  /** The waves never reach a blocked id. */
  lemma {:induction false} LevelsAvoidBlocked(ps: seq<Policy>, waves: seq<seq<string>>, b: set<string>)
    requires Levels(ps, waves) && Blocked(ps, b)
    ensures Covered(waves) !! b
    decreases |waves|
  {
    var last := waves[|waves| - 1];
    var init := waves[..|waves| - 1];
    assert Covered(waves) == Covered(init) + Elems(last);
    if |waves| > 1 {
      LevelsAvoidBlocked(ps, init, b);
      LevelsInIds(ps, init);
      forall x | x in last ensures x !in b {
        var i :| 0 <= i < |ps| && Keeps(Ready(Covered(init)), ps[i]) && ps[i].id == x;
      }
    } else {
      assert init == [];
      forall x | x in last ensures x !in b {
        var i :| 0 <= i < |ps| && Keeps(Roots, ps[i]) && ps[i].id == x;
      }
    }
  }

  lemma ScheduledGrounded(ps: seq<Policy>)
    requires Schedule(ps).Ok?
    ensures Grounded(ps)
  {
    var plan := Schedule(ps).value;
    forall b | Blocked(ps, b) ensures b !! IdSet(ps) {
      LevelsAvoidBlocked(ps, plan.waves, b);
    }
  }

  /** The ids missing from a closed set that contains every root are blocked. */
  lemma ComplementBlocked(ps: seq<Policy>, added: set<string>)
    requires Closed(ps, added) && Elems(Select(ps, Roots)) <= added
    ensures Blocked(ps, IdSet(ps) - added)
  {
    var b := IdSet(ps) - added;
    forall i | 0 <= i < |ps| && ps[i].id in b
      ensures ps[i].parentId != ""
      ensures ps[i].parentId in b || ps[i].parentId !in IdSet(ps)
    {
      var p := ps[i];
      assert Keeps(Roots, p) ==> p.id in Select(ps, Roots);
    }
  }

  lemma FailedUngrounded(ps: seq<Policy>)
    requires ps != [] && DistinctIds(ps) && Schedule(ps).Err?
    ensures !Grounded(ps)
  {
    var g := Rounds(ps);
    assert |g.added| < |ps|;
    IdSetCard(ps);
    assert Closed(ps, g.added);
    ComplementBlocked(ps, g.added);
    SmallerSubset(g.added, IdSet(ps));
    UngroundedWitness(ps, IdSet(ps) - g.added);
  }

  lemma SmallerSubset<T>(a: set<T>, b: set<T>)
    requires a <= b && |a| < |b|
    ensures b - a != {}
  {
    var d := b - a;
    assert b == a + d && a !! d;
    assert |b| == |a| + |d|;
  }

  lemma UngroundedWitness(ps: seq<Policy>, b: set<string>)
    requires Blocked(ps, b) && b <= IdSet(ps) && b != {}
    ensures !Grounded(ps)
  {
    var x :| x in b;
    assert x in IdSet(ps);
  }

  /**
    Scheduling succeeds exactly when there are policy files, no id repeats,
    and every policy's chain of base policies reaches a root.
   */
  lemma ScheduleSucceedsIff(ps: seq<Policy>)
    ensures Schedule(ps).Ok? <==> ps != [] && DistinctIds(ps) && Grounded(ps)
  {
    if Schedule(ps).Ok? {
      ScheduledGrounded(ps);
    } else if ps != [] && DistinctIds(ps) {
      FailedUngrounded(ps);
    }
  }

  /** Two policy files with the same id make the run fail before any upload. */
  lemma DuplicateIdFails(ps: seq<Policy>, i: nat, j: nat)
    requires i < j < |ps| && ps[i].id == ps[j].id
    ensures Schedule(ps) == Err(MissingBasePolicy)
  {
  }

  /** One blocked id of a policy is enough to fail. */
  lemma BlockedFails(ps: seq<Policy>, b: set<string>, i: nat)
    requires Blocked(ps, b) && i < |ps| && ps[i].id in b
    ensures Schedule(ps) == Err(MissingBasePolicy)
  {
    ScheduleSucceedsIff(ps);
    assert ps[i].id in IdSet(ps);
  }

  /** A base policy that no file declares makes the run fail. */
  lemma MissingBaseFails(ps: seq<Policy>, i: nat)
    requires i < |ps| && ps[i].parentId != "" && ps[i].parentId !in IdSet(ps)
    ensures Schedule(ps) == Err(MissingBasePolicy)
  {
    if DistinctIds(ps) {
      BlockedFails(ps, {ps[i].id}, i);
    }
  }

  /** A policy that names itself as its base policy makes the run fail. */
  lemma SelfBaseFails(ps: seq<Policy>, i: nat)
    requires i < |ps| && ps[i].parentId == ps[i].id != ""
    ensures Schedule(ps) == Err(MissingBasePolicy)
  {
    if DistinctIds(ps) {
      BlockedFails(ps, {ps[i].id}, i);
    }
  }

  /** Two policies that name each other as base policy make the run fail. */
  lemma CycleFails(ps: seq<Policy>, i: nat, j: nat)
    requires i < |ps| && j < |ps|
    requires ps[i].parentId == ps[j].id != "" && ps[j].parentId == ps[i].id != ""
    ensures Schedule(ps) == Err(MissingBasePolicy)
  {
    if DistinctIds(ps) {
      BlockedFails(ps, {ps[i].id, ps[j].id}, i);
    }
  }
}
