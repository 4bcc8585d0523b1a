/**
  The `PolicySettings` record of one environment: string keys mapped to
  string values, kept as an association list in insertion order (the order
  `Object.keys` reports for non-numeric keys).
 */
module PolicySettings {
  import opened Wrappers

  type Settings = seq<(string, string)>

  function Keys(s: Settings): (ks: seq<string>)
    ensures |ks| == |s|
    ensures forall i :: 0 <= i < |s| ==> ks[i] == s[i].0
  {
    if s == [] then [] else [s[0].0] + Keys(s[1..])
  }

  lemma KeysCons(e: (string, string), s: Settings)
    ensures Keys([e] + s) == [e.0] + Keys(s)
  {
    assert ([e] + s)[1..] == s;
  }

  /** No key is stored twice, as in a JSON object. */
  predicate DistinctKeys(s: Settings) {
    forall i, j :: 0 <= i < j < |s| ==> s[i].0 != s[j].0
  }

  /** The value stored under `k`, from the first entry with that key. */
  function Lookup(s: Settings, k: string): (r: Option<string>)
    ensures r.None? <==> k !in Keys(s)
    ensures r.Some? ==> exists i :: 0 <= i < |s| && s[i] == (k, r.value)
  {
    if s == [] then None
    else if s[0].0 == k then Some(s[0].1)
    else Lookup(s[1..], k)
  }

  /**
    `settings[k] = v` on a JavaScript object: an existing key keeps its place
    and gets the new value, a new key is appended.
   */
  function Put(s: Settings, k: string, v: string): (r: Settings)
    ensures Lookup(r, k) == Some(v)
    ensures forall j :: j != k ==> Lookup(r, j) == Lookup(s, j)
    ensures forall i :: 0 <= i < |r| ==> r[i] in s || r[i] == (k, v)
  {
    if s == [] then [(k, v)]
    else if s[0].0 == k then [(k, v)] + s[1..]
    else
      var t := Put(s[1..], k, v);
      var r := [s[0]] + t;
      assert r[1..] == t;
      r
  }

  /** An existing key keeps its place; a new key goes last. */
  lemma PutKeys(s: Settings, k: string, v: string)
    ensures k in Keys(s) ==> Keys(Put(s, k, v)) == Keys(s)
    ensures k !in Keys(s) ==> Keys(Put(s, k, v)) == Keys(s) + [k]
  {
    if k in Keys(s) {
      PutKeysPresent(s, k, v);
    } else {
      PutKeysAbsent(s, k, v);
    }
  }

  lemma {:induction false} PutKeysPresent(s: Settings, k: string, v: string)
    requires k in Keys(s)
    ensures Keys(Put(s, k, v)) == Keys(s)
  {
    var t := s[1..];
    KeysCons(s[0], t);
    assert s == [s[0]] + t;
    if s[0].0 != k {
      PutKeysPresent(t, k, v);
      KeysCons(s[0], Put(t, k, v));
    } else {
      KeysCons((k, v), t);
    }
  }

  lemma {:induction false} PutKeysAbsent(s: Settings, k: string, v: string)
    requires k !in Keys(s)
    ensures Keys(Put(s, k, v)) == Keys(s) + [k]
  {
    if s != [] {
      var t := s[1..];
      KeysCons(s[0], t);
      assert s == [s[0]] + t;
      assert Keys(s)[0] == s[0].0;
      assert Put(s, k, v) == [s[0]] + Put(t, k, v);
      PutKeysAbsent(t, k, v);
      KeysCons(s[0], Put(t, k, v));
    }
  }

  /** Storing a value never makes a key appear twice. */
  lemma PutDistinct(s: Settings, k: string, v: string)
    ensures DistinctKeys(s) ==> DistinctKeys(Put(s, k, v))
  {
    if !DistinctKeys(s) { return; }
    PutKeys(s, k, v);
    var r := Put(s, k, v);
    var ks, rs := Keys(s), Keys(r);
    forall i, j | 0 <= i < j < |r|
      ensures r[i].0 != r[j].0
    {
      assert rs[i] == r[i].0 && rs[j] == r[j].0;
      if k in Keys(s) {
        assert ks[i] == s[i].0 && ks[j] == s[j].0;
      } else if j < |s| {
        assert ks[i] == s[i].0 && ks[j] == s[j].0;
      } else {
        assert rs[j] == k;
        assert ks[i] == s[i].0;
      }
    }
  }

  /** The value the last override for `k` carries, if any override names `k`. */
  function LastValue(overrides: seq<(string, string)>, k: string): Option<string> {
    if overrides == [] then None
    else
      match LastValue(overrides[1..], k)
      case Some(v) => Some(v)
      case None => if overrides[0].0 == k then Some(overrides[0].1) else None
  }

  /** What `k` maps to once the overrides are applied: the last override of `k`, else the original value. */
  function Merged(s: Settings, overrides: seq<(string, string)>, k: string): Option<string> {
    if LastValue(overrides, k).Some? then LastValue(overrides, k) else Lookup(s, k)
  }

  /** Applying the first override, then the rest, merges to the same values. */
  lemma MergedStep(s: Settings, overrides: seq<(string, string)>)
    requires overrides != []
    ensures forall k :: Merged(Put(s, overrides[0].0, overrides[0].1), overrides[1..], k) == Merged(s, overrides, k)
  {
  }

  /**
    Applies the overrides one after another onto `s`: the last override of a
    key wins, and keys no override names keep their original values.
   */
  function ApplyOverrides(s: Settings, overrides: seq<(string, string)>): (r: Settings)
    ensures forall k :: Lookup(r, k) == Merged(s, overrides, k)
    decreases |overrides|
  {
    if overrides == [] then s
    else
      MergedStep(s, overrides);
      ApplyOverrides(Put(s, overrides[0].0, overrides[0].1), overrides[1..])
  }

  /**
    Applying overrides keeps every key and never stores a key twice; every
    entry comes from the original settings or from an override.
   */
  lemma ApplyOverridesShape(s: Settings, overrides: seq<(string, string)>)
    ensures DistinctKeys(s) ==> DistinctKeys(ApplyOverrides(s, overrides))
    ensures forall k :: k in Keys(s) ==> k in Keys(ApplyOverrides(s, overrides))
    ensures forall i :: 0 <= i < |ApplyOverrides(s, overrides)| ==>
      ApplyOverrides(s, overrides)[i] in s || ApplyOverrides(s, overrides)[i] in overrides
  {
    if DistinctKeys(s) {
      ApplyOverridesDistinct(s, overrides);
    }
    ApplyOverridesKeys(s, overrides);
    ApplyOverridesEntries(s, overrides);
  }

  lemma {:induction false} ApplyOverridesDistinct(s: Settings, overrides: seq<(string, string)>)
    requires DistinctKeys(s)
    ensures DistinctKeys(ApplyOverrides(s, overrides))
    decreases |overrides|
  {
    if overrides != [] {
      PutDistinct(s, overrides[0].0, overrides[0].1);
      ApplyOverridesDistinct(Put(s, overrides[0].0, overrides[0].1), overrides[1..]);
    }
  }

  lemma {:induction false} ApplyOverridesKeys(s: Settings, overrides: seq<(string, string)>)
    ensures forall k :: k in Keys(s) ==> k in Keys(ApplyOverrides(s, overrides))
    decreases |overrides|
  {
    if overrides != [] {
      var s' := Put(s, overrides[0].0, overrides[0].1);
      PutKeys(s, overrides[0].0, overrides[0].1);
      assert forall k :: k in Keys(s) ==> k in Keys(s');
      ApplyOverridesKeys(s', overrides[1..]);
    }
  }

  lemma {:induction false} ApplyOverridesEntries(s: Settings, overrides: seq<(string, string)>)
    ensures forall i :: 0 <= i < |ApplyOverrides(s, overrides)| ==>
      ApplyOverrides(s, overrides)[i] in s || ApplyOverrides(s, overrides)[i] in overrides
    decreases |overrides|
  {
    if overrides != [] {
      var s' := Put(s, overrides[0].0, overrides[0].1);
      ApplyOverridesEntries(s', overrides[1..]);
      var r := ApplyOverrides(s', overrides[1..]);
      assert r == ApplyOverrides(s, overrides);
      forall i | 0 <= i < |r| ensures r[i] in s || r[i] in overrides {
        assert r[i] in s' || r[i] in overrides[1..];
      }
    }
  }
}
