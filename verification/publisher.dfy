/*
  The upload half of the policy publisher: the plan's waves are walked in
  order, and within a wave in order, each id is resolved to the file of the
  first policy carrying it, and one PUT is issued per id until the first
  rejection. The network is replaced by an oracle `accept` that says, for the
  n-th PUT of the run (counting from 0), whether it succeeds; the access
  token is replaced by whether one was acquired.
*/
module Publisher {
  import opened Wrappers
  import opened Scheduler
  import PlanProperties

  // ---------------------------------------------------------------------
  // File lookup and the upload order.
  // ---------------------------------------------------------------------

  /**
    The file of the first policy carrying `id`, or `None` where the lookup
    yields nothing (and joining the path then throws inside the upload run).
   */
  function FileOf(ps: seq<Policy>, id: string): (r: Option<string>)
    ensures r.None? <==> id !in IdSet(ps)
  {
    if ps == [] then None
    else if ps[0].id == id then Some(ps[0].file)
    else FileOf(ps[1..], id)
  }

  /** The file found is that of the first policy carrying the id. */
  lemma {:induction false} FileOfFirst(ps: seq<Policy>, id: string)
    requires FileOf(ps, id).Some?
    ensures exists i :: 0 <= i < |ps| && ps[i].id == id && ps[i].file == FileOf(ps, id).value && NoneBefore(ps, id, i)
  {
    if ps[0].id == id {
      assert NoneBefore(ps, id, 0);
    } else {
      var tail := ps[1..];
      FileOfFirst(tail, id);
      var i :| 0 <= i < |tail| && tail[i].id == id && tail[i].file == FileOf(tail, id).value && NoneBefore(tail, id, i);
      assert ps[i + 1] == tail[i];
      assert NoneBefore(ps, id, i + 1) by {
        forall j | 0 <= j < i + 1 ensures ps[j].id != id {
          if j > 0 { assert ps[j] == tail[j - 1]; }
        }
      }
    }
  }

  /** No policy before position `i` carries `id`. */
  predicate NoneBefore(ps: seq<Policy>, id: string, i: nat)
    requires i <= |ps|
  {
    forall j :: 0 <= j < i ==> ps[j].id != id
  }

  /** With distinct ids, every policy's id resolves to its own file. */
  lemma FileOfDistinct(ps: seq<Policy>, i: nat)
    requires DistinctIds(ps) && i < |ps|
    ensures FileOf(ps, ps[i].id) == Some(ps[i].file)
  {
    var r := FileOf(ps, ps[i].id);
    FileOfFirst(ps, ps[i].id);
    var m :| 0 <= m < |ps| && ps[m].id == ps[i].id && ps[m].file == r.value && NoneBefore(ps, ps[i].id, m);
    assert m == i by {
      assert m <= i;
    }
  }

  /** The ids in upload order: the waves one after another. */
  function Flatten(waves: seq<seq<string>>): seq<string>
    decreases |waves|
  {
    if waves == [] then [] else Flatten(waves[..|waves| - 1]) + waves[|waves| - 1]
  }

  lemma {:induction false} FlattenAppend(a: seq<seq<string>>, b: seq<seq<string>>)
    ensures Flatten(a + b) == Flatten(a) + Flatten(b)
    decreases |b|
  {
    if b != [] {
      var b' := b[..|b| - 1];
      assert (a + b)[..|a + b| - 1] == a + b';
      FlattenAppend(a, b');
    } else {
      assert a + b == a;
    }
  }

  /** Wave `k`, position `j` is uploaded after every id of the earlier waves. */
  lemma FlattenIndex(waves: seq<seq<string>>, k: nat, j: nat)
    requires k < |waves| && j < |waves[k]|
    ensures |Flatten(waves[..k])| + j < |Flatten(waves)|
    ensures Flatten(waves)[|Flatten(waves[..k])| + j] == waves[k][j]
  {
    FlattenStep(waves, k);
    assert waves == waves[..k + 1] + waves[k + 1..];
    FlattenAppend(waves[..k + 1], waves[k + 1..]);
  }

  lemma FlattenStep(waves: seq<seq<string>>, k: nat)
    requires k < |waves|
    ensures Flatten(waves[..k + 1]) == Flatten(waves[..k]) + waves[k]
  {
    assert waves[..k + 1][..k] == waves[..k];
  }

  lemma {:induction false} FlattenCovered(waves: seq<seq<string>>)
    ensures Elems(Flatten(waves)) == Covered(waves)
    decreases |waves|
  {
    if waves != [] {
      FlattenCovered(waves[..|waves| - 1]);
    }
  }

  // ---------------------------------------------------------------------
  // The upload order of a plan: every policy once, bases first.
  // ---------------------------------------------------------------------

  predicate NoDup(s: seq<string>) {
    forall i, j :: 0 <= i < j < |s| ==> s[i] != s[j]
  }

  /**
    Every policy met in `order` that has a base policy has that base policy
    earlier in `order`.
   */
  predicate ParentsFirst(ps: seq<Policy>, order: seq<string>) {
    forall k, i :: 0 <= k < |order| && 0 <= i < |ps| && ps[i].id == order[k] && ps[i].parentId != "" ==>
      exists m :: 0 <= m < k && order[m] == ps[i].parentId
  }

  lemma {:induction false} SelectNoDup(ps: seq<Policy>, f: Filter)
    requires DistinctIds(ps)
    ensures NoDup(Select(ps, f))
  {
    if ps != [] {
      DistinctIdsCons(ps);
      SelectNoDup(ps[1..], f);
      SelectInIds(ps[1..], f);
      var rest := Select(ps[1..], f);
      assert ps[0].id !in Elems(rest);
    }
  }

  lemma NoDupAppend(a: seq<string>, b: seq<string>)
    requires NoDup(a) && NoDup(b) && Elems(a) !! Elems(b)
    ensures NoDup(a + b)
  {
    forall i, j | 0 <= i < j < |a + b| ensures (a + b)[i] != (a + b)[j] {
      if j < |a| {
      } else if i >= |a| {
        assert (a + b)[i] == b[i - |a|] && (a + b)[j] == b[j - |a|];
      } else {
        assert (a + b)[i] in Elems(a) && (a + b)[j] in Elems(b);
      }
    }
  }

  lemma {:induction false} FlattenNoDup(ps: seq<Policy>, waves: seq<seq<string>>)
    requires Levels(ps, waves) && DistinctIds(ps)
    ensures NoDup(Flatten(waves))
    decreases |waves|
  {
    var n := |waves| - 1;
    var init := waves[..n];
    var last := waves[n];
    if n == 0 {
      SelectNoDup(ps, Roots);
      assert Flatten(waves) == [] + last;
    } else {
      PlanProperties.LevelsPrefix(ps, waves, n);
      FlattenNoDup(ps, init);
      SelectNoDup(ps, Ready(Covered(init)));
      FlattenCovered(init);
      forall x | x in last ensures x !in Elems(Flatten(init)) {
        PlanProperties.WaveFresh(ps, waves, n, x);
      }
      NoDupAppend(Flatten(init), last);
    }
  }

  lemma {:induction false} NoDupCard(s: seq<string>)
    requires NoDup(s)
    ensures |Elems(s)| == |s|
    decreases |s|
  {
    if s != [] {
      var t := s[..|s| - 1];
      assert NoDup(t);
      NoDupCard(t);
      assert Elems(s) == Elems(t) + {s[|s| - 1]};
      assert s[|s| - 1] !in Elems(t);
    }
  }

  lemma ParentsFirstAppend(ps: seq<Policy>, a: seq<string>, b: seq<string>)
    requires ParentsFirst(ps, a)
    requires forall t, i :: 0 <= t < |b| && 0 <= i < |ps| && ps[i].id == b[t] && ps[i].parentId != "" ==> ps[i].parentId in a
    ensures ParentsFirst(ps, a + b)
  {
    var order := a + b;
    forall k, i | 0 <= k < |order| && 0 <= i < |ps| && ps[i].id == order[k] && ps[i].parentId != ""
      ensures exists m :: 0 <= m < k && order[m] == ps[i].parentId
    {
      if k < |a| {
        var m :| 0 <= m < k && a[m] == ps[i].parentId;
        assert order[m] == a[m];
      } else {
        assert ps[i].id == b[k - |a|];
        var m :| 0 <= m < |a| && a[m] == ps[i].parentId;
        assert order[m] == a[m];
      }
    }
  }

  lemma {:induction false} FlattenParentsFirst(ps: seq<Policy>, waves: seq<seq<string>>)
    requires Levels(ps, waves) && DistinctIds(ps)
    ensures ParentsFirst(ps, Flatten(waves))
    decreases |waves|
  {
    var n := |waves| - 1;
    var init := waves[..n];
    var last := waves[n];
    if n == 0 {
      RootsHaveNoBase(ps, waves);
      ParentsFirstAppend(ps, [], last);
      assert Flatten(waves) == [] + last;
    } else {
      PlanProperties.LevelsPrefix(ps, waves, n);
      FlattenParentsFirst(ps, init);
      BasesEarlier(ps, waves);
      ParentsFirstAppend(ps, Flatten(init), last);
    }
  }

  lemma RootsHaveNoBase(ps: seq<Policy>, waves: seq<seq<string>>)
    requires Levels(ps, waves) && DistinctIds(ps) && |waves| > 0
    ensures forall t, i :: 0 <= t < |waves[0]| && 0 <= i < |ps| && ps[i].id == waves[0][t] ==> ps[i].parentId == ""
  {
    forall t, i | 0 <= t < |waves[0]| && 0 <= i < |ps| && ps[i].id == waves[0][t] ensures ps[i].parentId == "" {
      PlanProperties.RootWaveMember(ps, waves, i);
    }
  }

  /** The base policy of every policy in the last wave was uploaded in an earlier wave. */
  lemma BasesEarlier(ps: seq<Policy>, waves: seq<seq<string>>)
    requires Levels(ps, waves) && DistinctIds(ps) && |waves| > 1
    ensures var n := |waves| - 1;
      forall t, i :: 0 <= t < |waves[n]| && 0 <= i < |ps| && ps[i].id == waves[n][t] && ps[i].parentId != "" ==>
        ps[i].parentId in Flatten(waves[..n])
  {
    var n := |waves| - 1;
    var init := waves[..n];
    FlattenCovered(init);
    forall t, i | 0 <= t < |waves[n]| && 0 <= i < |ps| && ps[i].id == waves[n][t] && ps[i].parentId != ""
      ensures ps[i].parentId in Flatten(init)
    {
      PlanProperties.LaterWaveMember(ps, waves, n, i);
      var j :| 0 <= j < n && ps[i].parentId in waves[j];
      assert init[j] == waves[j];
      PlanProperties.CoveredHas(init, ps[i].parentId);
      assert ps[i].parentId in Elems(Flatten(init));
    }
  }

  /** A prefix of a bases-first order is bases-first. */
  lemma ParentsFirstPrefix(ps: seq<Policy>, order: seq<string>, n: nat)
    requires ParentsFirst(ps, order) && n <= |order|
    ensures ParentsFirst(ps, order[..n])
  {
    var pre := order[..n];
    forall k, i | 0 <= k < |pre| && 0 <= i < |ps| && ps[i].id == pre[k] && ps[i].parentId != ""
      ensures exists m :: 0 <= m < k && pre[m] == ps[i].parentId
    {
      assert order[k] == pre[k];
      var m :| 0 <= m < k && order[m] == ps[i].parentId;
      assert pre[m] == order[m];
    }
  }

  /**
    A successful plan lists every policy exactly once, each base policy
    before the policies built on it.
   */
  lemma PlanOrder(ps: seq<Policy>)
    requires Schedule(ps).Ok?
    ensures GoodOrder(ps, Flatten(Schedule(ps).value.waves))
  {
    var waves := Schedule(ps).value.waves;
    FlattenNoDup(ps, waves);
    FlattenCovered(waves);
    NoDupCard(Flatten(waves));
    IdSetCard(ps);
    FlattenParentsFirst(ps, waves);
  }

  /** When every policy is a root, the upload order is the input order and the trailing wave adds nothing. */
  lemma AllRootsOrder(ps: seq<Policy>)
    requires ps != [] && DistinctIds(ps)
    requires forall i :: 0 <= i < |ps| ==> ps[i].parentId == ""
    ensures Schedule(ps).Ok?
    ensures Flatten(Schedule(ps).value.waves) == PlanProperties.Ids(ps)
  {
    PlanProperties.AllRootsPlan(ps);
    var first := Select(ps, Roots);
    var waves := Schedule(ps).value.waves;
    assert waves == [first, []];
    FlattenPair(first, []);
    assert first + [] == first;
  }

  lemma FlattenPair(a: seq<string>, b: seq<string>)
    ensures Flatten([a, b]) == a + b
  {
    assert [a, b][..1] == [a];
    assert [a][..0] == [];
    assert Flatten([a]) == Flatten([]) + a == a;
    assert Flatten([a, b]) == Flatten([a]) + b;
  }

  // ---------------------------------------------------------------------
  // Running the uploads.
  // ---------------------------------------------------------------------

  /** One PUT of a policy file under its id. */
  datatype Upload = Upload(id: string, file: string)

  /** The first `|sent|` ids of `order` were sent, each with the file it resolves to. */
  predicate SentAsOrdered(ps: seq<Policy>, order: seq<string>, sent: seq<Upload>) {
    && |sent| <= |order|
    && forall t :: 0 <= t < |sent| ==> FileOf(ps, order[t]).Some? && sent[t] == Upload(order[t], FileOf(ps, order[t]).value)
  }

  predicate AllAccepted(accept: nat -> bool, n: nat) {
    forall t: nat :: t < n ==> accept(t)
  }

  /**
    Why a run stopped early: the last PUT was rejected, or every PUT so far
    was accepted and the next id has no file.
   */
  predicate Halted(ps: seq<Policy>, order: seq<string>, accept: nat -> bool, sent: seq<Upload>) {
    || (|sent| > 0 && !accept(|sent| - 1))
    || (|sent| < |order| && FileOf(ps, order[|sent|]).None? && AllAccepted(accept, |sent|))
  }

  /**
    The state of a run over `order`: what was sent matches the order, every
    PUT but possibly the last was accepted, a running run has sent the first
    `n` ids with all accepted, and a stopped run halted for a reason.
   */
  predicate Running(ps: seq<Policy>, order: seq<string>, accept: nat -> bool, sent: seq<Upload>, failed: bool, n: nat) {
    && SentAsOrdered(ps, order, sent)
    && (|sent| > 0 ==> AllAccepted(accept, |sent| - 1))
    && (!failed ==> |sent| == n && AllAccepted(accept, n))
    && (failed ==> Halted(ps, order, accept, sent))
  }

  /** The next id has no file: the run stops. */
  lemma StepMissing(ps: seq<Policy>, order: seq<string>, accept: nat -> bool, sent: seq<Upload>, n: nat)
    requires Running(ps, order, accept, sent, false, n) && n < |order| && FileOf(ps, order[n]).None?
    ensures Running(ps, order, accept, sent, true, n)
  {
  }

  /** The next id is sent; the run goes on if the PUT is accepted and stops otherwise. */
  lemma StepSend(ps: seq<Policy>, order: seq<string>, accept: nat -> bool, sent: seq<Upload>, n: nat, file: string)
    requires Running(ps, order, accept, sent, false, n) && n < |order| && FileOf(ps, order[n]) == Some(file)
    ensures Running(ps, order, accept, sent + [Upload(order[n], file)], !accept(n), n + 1)
  {
    var sent' := sent + [Upload(order[n], file)];
    SendOne(ps, order, sent, n, file);
    assert AcceptedBefore: |sent'| > 0 ==> AllAccepted(accept, |sent'| - 1) by {
      assert |sent'| - 1 == n;
    }
    if accept(n) {
      AcceptOne(accept, n);
    } else {
      assert Halted(ps, order, accept, sent');
    }
  }

  lemma SendOne(ps: seq<Policy>, order: seq<string>, sent: seq<Upload>, n: nat, file: string)
    requires SentAsOrdered(ps, order, sent) && |sent| == n < |order| && FileOf(ps, order[n]) == Some(file)
    ensures SentAsOrdered(ps, order, sent + [Upload(order[n], file)])
  {
    var sent' := sent + [Upload(order[n], file)];
    forall t | 0 <= t < |sent'|
      ensures FileOf(ps, order[t]).Some? && sent'[t] == Upload(order[t], FileOf(ps, order[t]).value)
    {
      if t < n {
        assert sent'[t] == sent[t];
      }
    }
  }

  lemma AcceptOne(accept: nat -> bool, n: nat)
    requires AllAccepted(accept, n) && accept(n)
    ensures AllAccepted(accept, n + 1)
  {
  }

  /**
    Walks the waves in order, and each wave in order, sending one PUT per
    id; stops at the first id with no file or the first rejected PUT.
   */
  method UploadPlan(ps: seq<Policy>, waves: seq<seq<string>>, accept: nat -> bool) returns (sent: seq<Upload>, failed: bool)
    ensures SentAsOrdered(ps, Flatten(waves), sent)
    ensures |sent| > 0 ==> AllAccepted(accept, |sent| - 1)
    ensures !failed <==> |sent| == |Flatten(waves)| && AllAccepted(accept, |sent|)
    ensures failed ==> Halted(ps, Flatten(waves), accept, sent)
  {
    sent := [];
    failed := false;
    var k := 0;
    while k < |waves| && !failed
      invariant 0 <= k <= |waves|
      invariant Running(ps, Flatten(waves), accept, sent, failed, |Flatten(waves[..k])|)
      decreases |waves| - k, if failed then 0 else 1
    {
      sent, failed := UploadWave(ps, waves, k, accept, sent);
      if !failed {
        k := k + 1;
      }
    }
    if !failed {
      assert waves[..k] == waves;
    } else {
      HaltedShort(ps, Flatten(waves), accept, sent);
    }
  }

  /** A halted run did not send the whole order with every PUT accepted. */
  lemma HaltedShort(ps: seq<Policy>, order: seq<string>, accept: nat -> bool, sent: seq<Upload>)
    requires Halted(ps, order, accept, sent)
    ensures !(|sent| == |order| && AllAccepted(accept, |sent|))
  {
    if |sent| > 0 && !accept(|sent| - 1) {
      var n: nat := |sent| - 1;
      assert !accept(n);
    }
  }

  /** The PUTs of wave `k`, continuing a run that has sent every earlier wave. */
  method UploadWave(ps: seq<Policy>, waves: seq<seq<string>>, k: nat, accept: nat -> bool, sent0: seq<Upload>)
    returns (sent: seq<Upload>, failed: bool)
    requires k < |waves|
    requires Running(ps, Flatten(waves), accept, sent0, false, |Flatten(waves[..k])|)
    ensures Running(ps, Flatten(waves), accept, sent, failed, |Flatten(waves[..k + 1])|)
  {
    ghost var order := Flatten(waves);
    var wave := waves[k];
    sent := sent0;
    failed := false;
    var j := 0;
    while j < |wave| && !failed
      invariant 0 <= j <= |wave|
      invariant Running(ps, order, accept, sent, failed, |Flatten(waves[..k])| + j)
      decreases |wave| - j, if failed then 0 else 1
    {
      var id := wave[j];
      var n := |sent|;
      assert n < |order| && order[n] == id by {
        FlattenIndex(waves, k, j);
      }
      var file := FileOf(ps, id);
      if file.None? {
        StepMissing(ps, order, accept, sent, n);
        failed := true;
      } else {
        StepSend(ps, order, accept, sent, n, file.value);
        sent := sent + [Upload(id, file.value)];
        failed := !accept(n);
        if !failed {
          j := j + 1;
        }
      }
    }
    FlattenStep(waves, k);
  }

  /** How a run ends: the reported count and the PUTs, or the reason and the PUTs sent before it. */
  datatype Outcome = Published(count: nat, sent: seq<Upload>) | Failed(error: PublishError, sent: seq<Upload>)

  function SentIds(sent: seq<Upload>): (r: seq<string>)
    ensures |r| == |sent| && forall t :: 0 <= t < |sent| ==> r[t] == sent[t].id
  {
    seq(|sent|, t requires 0 <= t < |sent| => sent[t].id)
  }

  /**
    What a run that reached the uploads reports: success exactly when every
    PUT was accepted, with the count of policies and each policy's own file
    sent once; otherwise the rejected PUT is the last one sent. Either way
    every PUT sent carries a policy's own file, no id twice, bases first.
   */
  predicate UploadReport(ps: seq<Policy>, accept: nat -> bool, o: Outcome) {
    && (o.Published? <==> AllAccepted(accept, |ps|))
    && (o.Published? ==>
      && o.count == |ps| == |o.sent|
      && forall i :: 0 <= i < |ps| ==> Upload(ps[i].id, ps[i].file) in o.sent)
    && (o.Failed? ==>
      && o.error == UploadFailed
      && 0 < |o.sent| <= |ps| && !accept(|o.sent| - 1) && AllAccepted(accept, |o.sent| - 1))
    && SentWell(ps, o.sent)
  }

  /** Every PUT carries a policy's own file, no id twice, and each base policy before the policies built on it. */
  predicate SentWell(ps: seq<Policy>, sent: seq<Upload>) {
    && NoDup(SentIds(sent)) && ParentsFirst(ps, SentIds(sent))
    && forall t :: 0 <= t < |sent| ==> OwnFile(ps, sent[t])
  }

  /** `u` uploads some policy's own file under that policy's id. */
  predicate OwnFile(ps: seq<Policy>, u: Upload) {
    exists i :: 0 <= i < |ps| && u == Upload(ps[i].id, ps[i].file)
  }

  /**
    The whole publishing run: scheduling (no PUT on failure), the access
    token (no PUT without one), then the uploads.
   */
  method Publish(ps: seq<Policy>, tokenAcquired: bool, accept: nat -> bool) returns (o: Outcome)
    ensures ps == [] ==> o == Failed(NoPolicyFiles, [])
    ensures ps != [] && Schedule(ps).Err? ==> o == Failed(MissingBasePolicy, [])
    ensures Schedule(ps).Ok? && !tokenAcquired ==> o == Failed(NoAccessToken, [])
    ensures Schedule(ps).Ok? && tokenAcquired ==> UploadReport(ps, accept, o)
    ensures Schedule(ps).Ok? && tokenAcquired ==> SentAsOrdered(ps, Flatten(Schedule(ps).value.waves), o.sent)
    ensures o.Published? ==> Schedule(ps).Ok? && tokenAcquired && AllAccepted(accept, |ps|)
  {
    var s := Schedule(ps);
    if s.Err? {
      o := Failed(s.error, []);
    } else if !tokenAcquired {
      o := Failed(NoAccessToken, []);
    } else {
      o := UploadScheduled(ps, s.value, accept);
    }
  }

  /** The uploads of a successful plan, with the access token in hand. */
  method UploadScheduled(ps: seq<Policy>, plan: Plan, accept: nat -> bool) returns (o: Outcome)
    requires Schedule(ps) == Ok(plan)
    ensures UploadReport(ps, accept, o)
    ensures SentAsOrdered(ps, Flatten(plan.waves), o.sent)
  {
    var sent, failed := UploadPlan(ps, plan.waves, accept);
    ghost var order := Flatten(plan.waves);
    PlanOrder(ps);
    if failed {
      o := Failed(UploadFailed, sent);
      FailedReport(ps, order, accept, sent);
    } else {
      o := Published(|plan.added|, sent);
      PublishedReport(ps, order, accept, sent);
    }
  }

  /** The facts a plan order gives to the run that walked it. */
  predicate GoodOrder(ps: seq<Policy>, order: seq<string>) {
    && DistinctIds(ps) && NoDup(order) && |order| == |ps| && Elems(order) == IdSet(ps)
    && ParentsFirst(ps, order)
  }

  lemma FailedReport(ps: seq<Policy>, order: seq<string>, accept: nat -> bool, sent: seq<Upload>)
    requires GoodOrder(ps, order) && SentAsOrdered(ps, order, sent)
    requires |sent| > 0 ==> AllAccepted(accept, |sent| - 1)
    requires Halted(ps, order, accept, sent)
    ensures UploadReport(ps, accept, Failed(UploadFailed, sent))
  {
    assert 0 < |sent| <= |ps| && !accept(|sent| - 1) by {
      PlanResolves(ps, order, |sent|);
    }
    assert !AllAccepted(accept, |ps|) by {
      var n: nat := |sent| - 1;
      assert n < |ps| && !accept(n);
    }
    SentFromPlan(ps, order, sent);
  }

  lemma PublishedReport(ps: seq<Policy>, order: seq<string>, accept: nat -> bool, sent: seq<Upload>)
    requires GoodOrder(ps, order) && SentAsOrdered(ps, order, sent)
    requires |sent| == |order| && AllAccepted(accept, |sent|)
    ensures UploadReport(ps, accept, Published(|ps|, sent))
  {
    SentFromPlan(ps, order, sent);
    SentAll(ps, order, sent);
  }

  /** Every id of a plan has a file, so a failed run of a plan was rejected. */
  lemma PlanResolves(ps: seq<Policy>, order: seq<string>, n: nat)
    requires Elems(order) == IdSet(ps)
    ensures n < |order| ==> FileOf(ps, order[n]).Some?
  {
    if n < |order| {
      assert order[n] in Elems(order);
    }
  }

  /** A run that sent the whole plan uploaded every policy's own file. */
  lemma SentAll(ps: seq<Policy>, order: seq<string>, sent: seq<Upload>)
    requires SentAsOrdered(ps, order, sent) && |sent| == |order|
    requires DistinctIds(ps) && Elems(order) == IdSet(ps)
    ensures forall i :: 0 <= i < |ps| ==> Upload(ps[i].id, ps[i].file) in sent
  {
    forall i | 0 <= i < |ps| ensures Upload(ps[i].id, ps[i].file) in sent {
      assert ps[i].id in Elems(order);
      var t :| 0 <= t < |order| && order[t] == ps[i].id;
      FileOfDistinct(ps, i);
      assert sent[t] == Upload(ps[i].id, ps[i].file);
    }
  }

  /** What the sent PUTs inherit from a plan order that covers every policy once, bases first. */
  lemma SentFromPlan(ps: seq<Policy>, order: seq<string>, sent: seq<Upload>)
    requires SentAsOrdered(ps, order, sent) && DistinctIds(ps)
    requires NoDup(order) && ParentsFirst(ps, order) && Elems(order) == IdSet(ps)
    ensures SentWell(ps, sent)
  {
    var ids := SentIds(sent);
    assert ids == order[..|sent|];
    assert NoDup(ids) by {
      forall i, j | 0 <= i < j < |ids| ensures ids[i] != ids[j] {
        assert ids[i] == order[i] && ids[j] == order[j];
      }
    }
    assert ParentsFirst(ps, ids) by {
      ParentsFirstPrefix(ps, order, |sent|);
    }
    forall t | 0 <= t < |sent| ensures OwnFile(ps, sent[t]) {
      assert order[t] in IdSet(ps);
      var i :| 0 <= i < |ps| && ps[i].id == order[t];
      FileOfDistinct(ps, i);
      assert sent[t] == Upload(ps[i].id, ps[i].file);
    }
  }
}
