/**
  One run of the policy builder task: resolve the environment's settings,
  then rewrite every `.xml` file of the input folder with its placeholders
  substituted, keeping the file name.
 */
module Builder {
  import opened Wrappers
  import opened PolicySettings
  import opened Environments
  import opened Substitution
  import opened Positions
  import Overrides

  /** A file of the input folder: its name and its text. */
  datatype SourceFile = SourceFile(name: string, content: string)

  predicate EndsWith(s: string, suffix: string) {
    |suffix| <= |s| && s[|s| - |suffix|..] == suffix
  }

  predicate IsXml(f: SourceFile) {
    EndsWith(f.name, ".xml")
  }

  /** The listing's `.xml` files, in listing order. */
  function XmlFiles(listing: seq<SourceFile>): (r: seq<SourceFile>)
    ensures |r| <= |listing|
    ensures forall i :: 0 <= i < |r| ==> r[i] in listing && IsXml(r[i])
    ensures forall i :: 0 <= i < |listing| && IsXml(listing[i]) ==> listing[i] in r
  {
    if listing == [] then []
    else if IsXml(listing[0]) then [listing[0]] + XmlFiles(listing[1..])
    else XmlFiles(listing[1..])
  }

  /** The positions of the listing's `.xml` files, ascending. */
  function XmlIndices(listing: seq<SourceFile>): seq<nat>
    decreases |listing|
  {
    if listing == [] then []
    else (if IsXml(listing[0]) then [0] else []) + Bump(XmlIndices(listing[1..]))
  }

  /**
    `r` lists the files of `listing` at the ascending positions `idx`, and
    `idx` holds every position of an `.xml` file and no other.
   */
  predicate XmlAt(listing: seq<SourceFile>, idx: seq<nat>, r: seq<SourceFile>) {
    && |idx| == |r|
    && (forall t :: 0 <= t < |idx| ==> idx[t] < |listing| && IsXml(listing[idx[t]]) && r[t] == listing[idx[t]])
    && Ascending(idx)
    && (forall i :: 0 <= i < |listing| && IsXml(listing[i]) ==> i in idx)
  }

  lemma XmlAtCons(listing: seq<SourceFile>, rest: seq<nat>, rr: seq<SourceFile>, idx: seq<nat>, r: seq<SourceFile>)
    requires listing != [] && |rest| == |rr|
    requires forall t :: 0 <= t < |rest| ==>
      rest[t] < |listing| - 1 && IsXml(listing[rest[t] + 1]) && rr[t] == listing[rest[t] + 1]
    requires idx == (if IsXml(listing[0]) then [0] else []) + Bump(rest)
    requires r == (if IsXml(listing[0]) then [listing[0]] else []) + rr
    ensures |idx| == |r|
    ensures forall t :: 0 <= t < |idx| ==> idx[t] < |listing| && IsXml(listing[idx[t]]) && r[t] == listing[idx[t]]
  {
    var h := if IsXml(listing[0]) then 1 else 0;
    forall t | 0 <= t < |idx|
      ensures idx[t] < |listing| && IsXml(listing[idx[t]]) && r[t] == listing[idx[t]]
    {
      if t < h {
        assert idx[t] == 0 && r[t] == listing[0];
      } else {
        assert idx[t] == rest[t - h] + 1 && r[t] == rr[t - h];
      }
    }
  }

  lemma XmlAllCons(listing: seq<SourceFile>, rest: seq<nat>)
    requires listing != []
    requires forall i :: 0 <= i < |listing[1..]| && IsXml(listing[1..][i]) ==> i in rest
    ensures forall i :: 0 <= i < |listing| && IsXml(listing[i]) ==>
      i in (if IsXml(listing[0]) then [0] else []) + Bump(rest)
  {
    var head: seq<nat> := if IsXml(listing[0]) then [0] else [];
    var bumped := Bump(rest);
    forall i | 0 <= i < |listing| && IsXml(listing[i]) ensures i in head + bumped {
      if i > 0 {
        assert listing[i] == listing[1..][i - 1];
        var t :| 0 <= t < |rest| && rest[t] == i - 1;
        assert bumped[t] == i;
        assert (head + bumped)[|head| + t] == i;
      } else {
        assert (head + bumped)[0] == 0;
      }
    }
  }

  /**
    The `.xml` files are kept once each, in listing order, as `filter` keeps
    them: entry `t` is the file at the `t`-th `.xml` position of the listing.
   */
  lemma {:induction false} XmlFilesInOrder(listing: seq<SourceFile>)
    ensures XmlAt(listing, XmlIndices(listing), XmlFiles(listing))
    decreases |listing|
  {
    if listing != [] {
      XmlFilesInOrder(listing[1..]);
      var rest := XmlIndices(listing[1..]);
      var head: seq<nat> := if IsXml(listing[0]) then [0] else [];
      var rr := XmlFiles(listing[1..]);
      forall t | 0 <= t < |rest|
        ensures rest[t] < |listing| - 1 && IsXml(listing[rest[t] + 1]) && rr[t] == listing[rest[t] + 1]
      {
        assert listing[rest[t] + 1] == listing[1..][rest[t]];
      }
      XmlAtCons(listing, rest, rr, XmlIndices(listing), XmlFiles(listing));
      AscendingCons(head, rest);
      XmlAllCons(listing, rest);
    }
  }

  /**
    The selected environment's tenant and stored settings are inserted
    literally by `String.replace`; the other entries are never read.
   */
  predicate LiteralSelected(app: Option<AppSettings>, env: string) {
    app.Some? && app.value.environments.Some? && FindEnvironment(app.value.environments.value, env).Some? ==>
      var e := FindEnvironment(app.value.environments.value, env).value;
      && (e.tenant.Some? ==> SafeValue(e.tenant.value))
      && (e.policySettings.Some? ==> SafeSettings(e.policySettings.value))
  }

  /** Every override line yields a literal key and value. */
  predicate LiteralOverrides(lines: seq<string>) {
    SafeSettings(Overrides.ParseLines(lines))
  }

  lemma ResolvedLiteral(app: Option<AppSettings>, env: string, lines: seq<string>)
    requires LiteralSelected(app, env) && LiteralOverrides(lines)
    requires Resolve(app, env, lines).Ok?
    ensures SafeValue(Resolve(app, env, lines).value.tenant)
    ensures SafeSettings(Resolve(app, env, lines).value.settings)
  {
    var e := FindEnvironment(app.value.environments.value, env).value;
    var base := e.policySettings.GetOr([]);
    assert SafeSettings(base);
    OverridesLiteral(base, Overrides.ParseLines(lines));
  }

  /** Merging literal overrides into literal settings keeps every entry literal. */
  lemma OverridesLiteral(base: Settings, overrides: Settings)
    requires SafeSettings(base) && SafeSettings(overrides)
    ensures SafeSettings(ApplyOverrides(base, overrides))
  {
    var r := ApplyOverrides(base, overrides);
    forall i | 0 <= i < |r| ensures SafeKey(r[i].0) && SafeValue(r[i].1) {
      ApplyOverridesShape(base, overrides);
      assert r[i] in base || r[i] in overrides;
      if r[i] in base {
        var j :| 0 <= j < |base| && base[j] == r[i];
      } else {
        var j :| 0 <= j < |overrides| && overrides[j] == r[i];
      }
    }
  }

  /**
    The build run: settings failures come first, then a folder without
    `.xml` files fails; otherwise one output per `.xml` input, same name,
    content with the placeholders substituted.
   */
  function Build(app: Option<AppSettings>, env: string, lines: seq<string>, listing: seq<SourceFile>)
    : (r: Result<seq<SourceFile>, BuildError>)
    requires LiteralSelected(app, env) && LiteralOverrides(lines)
    ensures Resolve(app, env, lines).Err? ==> r == Err(Resolve(app, env, lines).error)
    ensures Resolve(app, env, lines).Ok? ==> (r == Err(NoXmlFiles) <==> XmlFiles(listing) == [])
    ensures Resolve(app, env, lines).Ok? && XmlFiles(listing) != [] ==> r.Ok?
    ensures r.Ok? ==> Resolve(app, env, lines).Ok? && Rewritten(Resolve(app, env, lines).value, listing, r.value)
  {
    match Resolve(app, env, lines)
    case Err(e) => Err(e)
    case Ok(res) =>
      ResolvedLiteral(app, env, lines);
      Rewrite(res, listing)
  }

  /**
    `out` holds one file per `.xml` file of the listing, in order, with the
    same name and the placeholders of its content substituted (with values
    that are inserted literally).
   */
  predicate Rewritten(res: Resolved, listing: seq<SourceFile>, out: seq<SourceFile>) {
    var xml := XmlFiles(listing);
    && SafeValue(res.tenant) && SafeSettings(res.settings)
    && |out| == |xml| > 0
    && forall i :: 0 <= i < |xml| ==>
         out[i].name == xml[i].name &&
         out[i].content == Substitute(xml[i].content, res.tenant, res.settings)
  }

  /** The `.xml` files with their placeholders substituted, or a failure when there are none. */
  function Rewrite(res: Resolved, listing: seq<SourceFile>): (r: Result<seq<SourceFile>, BuildError>)
    requires SafeValue(res.tenant) && SafeSettings(res.settings)
    ensures r == Err(NoXmlFiles) <==> XmlFiles(listing) == []
    ensures r.Err? ==> r == Err(NoXmlFiles)
    ensures r.Ok? ==> Rewritten(res, listing, r.value)
  {
    var xml := XmlFiles(listing);
    if xml == [] then Err(NoXmlFiles) else Ok(RewriteAll(xml, res.tenant, res.settings))
  }

  function RewriteAll(files: seq<SourceFile>, tenant: string, s: Settings): (r: seq<SourceFile>)
    requires SafeValue(tenant) && SafeSettings(s)
    ensures |r| == |files|
    ensures forall i :: 0 <= i < |files| ==>
      r[i] == SourceFile(files[i].name, Substitute(files[i].content, tenant, s))
  {
    if files == [] then []
    else [SourceFile(files[0].name, Substitute(files[0].content, tenant, s))] + RewriteAll(files[1..], tenant, s)
  }

  /** A file with no recognised placeholder is written out unchanged. */
  lemma BuildCopiesTokenFree(app: Option<AppSettings>, env: string, lines: seq<string>, listing: seq<SourceFile>, i: nat)
    requires LiteralSelected(app, env) && LiteralOverrides(lines)
    requires Build(app, env, lines, listing).Ok?
    requires i < |XmlFiles(listing)|
    requires TokenFree(XmlFiles(listing)[i].content, Resolve(app, env, lines).value.settings)
    ensures Build(app, env, lines, listing).value[i] == XmlFiles(listing)[i]
  {
    var res := Resolve(app, env, lines).value;
    ResolvedLiteral(app, env, lines);
    SubstituteTokenFree(XmlFiles(listing)[i].content, res.tenant, res.settings);
  }
}
