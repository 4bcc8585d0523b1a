/**
  Settings resolution of the policy builder: pick the named environment
  out of `appsettings.json`, check it has a tenant, and merge the override
  lines into its `PolicySettings`.
 */
module Environments {
  import opened Wrappers
  import opened PolicySettings
  import Overrides

  /** One entry of `Environments`; absent JSON properties are `None`. */
  datatype EnvironmentSettings = EnvironmentSettings(
    name: string,
    tenant: Option<string>,
    policySettings: Option<Settings>)

  /** The parsed `appsettings.json`; a `None` entry is a JSON `null`. */
  datatype AppSettings = AppSettings(environments: Option<seq<Option<EnvironmentSettings>>>)

  /** The reasons a build run stops, one per failure message the builder reports. */
  datatype BuildError =
    | SettingsUnreadable
    | NoEnvironments
    | EnvironmentNotFound(name: string)
    | TenantNotSet
    | NoXmlFiles

  /** What substitution needs: the tenant and the merged settings. */
  datatype Resolved = Resolved(tenant: string, settings: Settings)

  /** The entry is present (truthy) and carries exactly this name. */
  predicate Matches(e: Option<EnvironmentSettings>, name: string) {
    e.Some? && e.value.name == name
  }

  /** The first entry whose name matches, like `filter(...)[0]`. */
  function FindEnvironment(envs: seq<Option<EnvironmentSettings>>, name: string): (r: Option<EnvironmentSettings>)
    ensures r.None? <==> forall i :: 0 <= i < |envs| ==> !Matches(envs[i], name)
    ensures r.Some? ==>
      exists i :: 0 <= i < |envs| && envs[i] == Some(r.value) && r.value.name == name &&
        forall j :: 0 <= j < i ==> !Matches(envs[j], name)
  {
    if envs == [] then None
    else if Matches(envs[0], name) then envs[0]
    else
      var r := FindEnvironment(envs[1..], name);
      assert forall i :: 1 <= i < |envs| ==> envs[i] == envs[1..][i - 1];
      r
  }

  /** A JavaScript-falsy tenant: missing or the empty string. */
  predicate TenantMissing(e: EnvironmentSettings) {
    e.tenant.None? || e.tenant.value == ""
  }

  /**
    Selects and validates the environment, then applies the override lines
    to its settings (which default to empty).
   */
  function Resolve(app: Option<AppSettings>, name: string, lines: seq<string>): (r: Result<Resolved, BuildError>)
    ensures r == Err(SettingsUnreadable) <==> app.None?
    ensures r == Err(NoEnvironments) <==>
      app.Some? && (app.value.environments.None? || app.value.environments.value == [])
    ensures r == Err(EnvironmentNotFound(name)) <==>
      app.Some? && app.value.environments.Some? && app.value.environments.value != [] &&
      FindEnvironment(app.value.environments.value, name).None?
    ensures r == Err(TenantNotSet) <==>
      app.Some? && app.value.environments.Some? &&
      FindEnvironment(app.value.environments.value, name).Some? &&
      TenantMissing(FindEnvironment(app.value.environments.value, name).value)
    ensures r.Ok? <==>
      app.Some? && app.value.environments.Some? && app.value.environments.value != [] &&
      FindEnvironment(app.value.environments.value, name).Some? &&
      !TenantMissing(FindEnvironment(app.value.environments.value, name).value)
    ensures r.Ok? ==>
      app.Some? && app.value.environments.Some? &&
      var e := FindEnvironment(app.value.environments.value, name);
      && e.Some?
      && e.value.tenant == Some(r.value.tenant)
      && r.value.tenant != ""
      && (forall k :: Lookup(r.value.settings, k) ==
            var last := LastValue(Overrides.ParseLines(lines), k);
            if last.Some? then last else Lookup(e.value.policySettings.GetOr([]), k))
  {
    if app.None? then Err(SettingsUnreadable)
    else if app.value.environments.None? || app.value.environments.value == [] then Err(NoEnvironments)
    else
      match FindEnvironment(app.value.environments.value, name)
      case None => Err(EnvironmentNotFound(name))
      case Some(e) =>
        if TenantMissing(e) then Err(TenantNotSet)
        else
          var base := e.policySettings.GetOr([]);
          Ok(Resolved(e.tenant.value, ApplyOverrides(base, Overrides.ParseLines(lines))))
  }
}
