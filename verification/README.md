# Azure AD B2C policy tasks — a Dafny model

This project models the two build steps of the Azure Pipelines tasks for
Azure AD B2C custom policies.

**Policy builder** (`B2CPolicyBuilder`). Each run does the following:
- reads `appsettings.json` and picks the environment named by the pipeline;
- checks that the environment has a tenant;
- merges the `key=value` override lines into that environment's `PolicySettings`;
- rewrites every `.xml` file of the input folder under the same name. Each
  `{Settings:Tenant}` becomes the tenant, then, key by key, each
  `{Settings:<key>}` becomes that key's value.

**Policy publisher** (`B2CPolicyPublisher`). Each run does the following:
- reads each policy file's `PolicyId` and `BasePolicy` id;
- arranges the ids in deployment waves: wave 0 holds the policies with no
  base policy, and each later round adds the policies whose base policy is
  already added;
- fails when some policy can never be added;
- otherwise PUTs the files to Microsoft Graph wave by wave, stopping at the
  first failure.

Modules, following the program's structure:

| module | what it holds |
|---|---|
| `Wrappers` | `Option` and `Result` |
| `Positions` | ascending lists of positions, the shape of what `filter` keeps |
| `Text` | literal global replace: leftmost, non-overlapping matches, inserted text never rescanned |
| `Overrides` | parsing of the override lines, split at the first `=` |
| `PolicySettings` | `PolicySettings` as an insertion-ordered association list: lookup, `obj[k] = v`, merging the overrides |
| `Environments` | selection and validation of the environment, with its failures |
| `Substitution` | the tenant pass, then one pass per key. Also a reference semantics over templates made of literal chunks and placeholders |
| `Builder` | one build run: settings, the `.xml` files, one output per input |
| `Scheduler` | `addRange`, wave 0, the `do … while` rounds, and the unresolved-policy failure |
| `PlanProperties` | what a successful plan guarantees, and exactly which inputs fail |
| `Publisher` | `uploadPolicies`: upload order, file lookup, the token check, the stop at the first failed PUT, and the reported outcome |

Three behaviours of the code shape the model:
- **Empty last wave.** The code pushes each round's wave before it tests the
  loop condition. A round that adds nothing therefore leaves an empty wave
  at the end of the plan (`AllRootsPlan`), which sends nothing. A round that
  brings the added set up to the file count ends the loop with no empty
  wave (`ChainRounds`).
- **Duplicate ids.** Two files with the same id are not rejected as a
  configuration error. They make the added-id set smaller than the file
  count, so the run fails with the missing-base-policy error (`DuplicateIdFails`).
- **Environment name matches.** The first entry with the name wins. Several
  entries with the same name are not an error.

## Model

| member | source | states |
|---|---|---|
| Text.ReplaceAllLeftmost | B2CPolicyBuilder/index.ts:130-133 | A global replace rewrites the leftmost occurrence and resumes scanning after it. The inserted value is never scanned again. |
| Text.ReplaceAllAbsent | B2CPolicyBuilder/index.ts:121 | A text with no occurrence of the placeholder comes out of a replace pass unchanged. |
| Text.ReplaceAllSkip | B2CPolicyBuilder/index.ts:130-133 | A prefix where no occurrence starts is copied through unchanged, and only the rest is rewritten. |
| Overrides.IndexOf | B2CPolicyBuilder/index.ts:36-38 | `indexOf` finds nothing exactly when the character is absent. Otherwise it gives the first position holding the character. |
| Overrides.ParseLine | B2CPolicyBuilder/index.ts:35-43 | A line yields a pair exactly when it contains `=`. The key has no `=`, and key + `=` + value rebuilds the line, so the split is at the first `=`. |
| Overrides.ParseLines | B2CPolicyBuilder/index.ts:35-43 | Every parsed pair has a `=`-free key and comes from an input line. There are never more pairs than lines. |
| Overrides.ParseRender | B2CPolicyBuilder/index.ts:38-42 | A pair whose key has no `=` survives rendering then parsing, even when its value contains `=`. |
| Overrides.RenderParseLines | B2CPolicyBuilder/index.ts:35-43 | Parsing then rendering gives back exactly the lines that contain `=`, in order. Lines without `=` are dropped. |
| Overrides.ParseRenderAll | B2CPolicyBuilder/index.ts:35-43 | Rendering a list of pairs with `=`-free keys and parsing the lines gives back the same list. |
| PolicySettings.Lookup | B2CPolicyBuilder/index.ts:124-132 | A key has no value exactly when it is not among the keys. A value found is stored under that key. |
| PolicySettings.Put | B2CPolicyBuilder/index.ts:95-96 | After `settings[k] = v`, `k` maps to `v` and every other key keeps its value. No entry appears from elsewhere. |
| PolicySettings.PutKeys | B2CPolicyBuilder/index.ts:95-96 | An existing key keeps its place in `Object.keys` order. A new key goes last. |
| PolicySettings.PutDistinct | B2CPolicyBuilder/index.ts:95-96 | Assigning a key never makes it appear twice. |
| PolicySettings.ApplyOverrides | B2CPolicyBuilder/index.ts:92-97 | After the override loop, each key has the value of its last override, and a key no override names keeps its original value. |
| PolicySettings.ApplyOverridesShape | B2CPolicyBuilder/index.ts:92-97 | The override loop keeps every original key and never duplicates a key. Every entry comes from the settings or from an override. |
| Environments.FindEnvironment | B2CPolicyBuilder/index.ts:71-73 | No entry is found exactly when no non-null entry has that name. Otherwise the result is the first matching entry. |
| Environments.Resolve | B2CPolicyBuilder/index.ts:49-97 | Each failure happens exactly in its own case: unreadable settings; a missing or empty environment list; no entry with the name; a match with no tenant or an empty one. Resolution succeeds exactly when none of these holds. On success: the match's tenant, and settings where the last override wins over the stored value. |
| Builder.XmlFiles | B2CPolicyBuilder/index.ts:99-101 | The kept files are exactly the listing's files ending in `.xml`. |
| Builder.XmlFilesInOrder | B2CPolicyBuilder/index.ts:99-101 | Each `.xml` file is kept once, in listing order: entry `t` is the file at the `t`-th `.xml` position, and those positions are ascending and complete. |
| Builder.Build | B2CPolicyBuilder/index.ts:53-139 | Settings failures come first. Once the settings resolve, the run succeeds exactly when there is an `.xml` file, and otherwise fails with no-xml-files. On success there is one output per `.xml` input, in order, under the same name, with its placeholders substituted. |
| Builder.Rewrite | B2CPolicyBuilder/index.ts:99-139 | The files are rewritten only when there is an `.xml` file. Each output keeps its input's name and has its content substituted. |
| Builder.RewriteAll | B2CPolicyBuilder/index.ts:113-139 | Output `i` is input `i`'s name with input `i`'s content substituted. |
| Builder.BuildCopiesTokenFree | B2CPolicyBuilder/index.ts:113-139 | A policy file with no placeholder for the tenant or any present key is written out unchanged. |
| Substitution.Token | B2CPolicyBuilder/index.ts:121-131 | A placeholder is `{`, then `Settings:`, then the key, then `}`. |
| Substitution.SubstituteTokenFree | B2CPolicyBuilder/index.ts:119-134 | Text holding no recognised placeholder is not changed by the passes. |
| Substitution.PassRender | B2CPolicyBuilder/index.ts:130-133 | On a well-formed template, one replace pass for key `k` turns exactly the placeholders of `k` into the value and leaves everything else as it was. |
| Substitution.KeyPassesRender | B2CPolicyBuilder/index.ts:124-134 | The key-by-key passes over a well-formed template give each present key's placeholder its value. |
| Substitution.SubstituteTemplate | B2CPolicyBuilder/index.ts:119-134 | On a well-formed template, the whole substitution resolves each placeholder on its own: `{Settings:Tenant}` becomes the tenant, a present key's placeholder becomes its value, an unknown placeholder stays verbatim. |
| Substitution.TenantThenKeys | B2CPolicyBuilder/index.ts:119-134 | Resolving the tenant placeholders and then the keys is the same as resolving both at once. |
| Substitution.SubstituteTenantFirst | B2CPolicyBuilder/index.ts:119-134 | On such templates only the settings' values for keys other than `Tenant` matter. A `Tenant` setting is ignored and the order of distinct keys is irrelevant. |
| Substitution.TenantExample | B2CPolicyBuilder/index.ts:119-121 | `tenant={Settings:Tenant}` with tenant `contoso` becomes `tenant=contoso`. |
| Substitution.TenantExampleStable | B2CPolicyBuilder/index.ts:119-121 | Substituting `tenant=contoso` again changes nothing. |
| Substitution.ChainedPasses | B2CPolicyBuilder/index.ts:124-134 | A later key's pass rewrites a placeholder that an earlier key's value inserted. |
| Substitution.TenantSettingCanMatter | B2CPolicyBuilder/index.ts:119-134 | Even though the tenant pass runs first, a `Tenant` setting can change the output when an earlier value inserts `{Settings:Tenant}`. |
| Scheduler.Select | B2CPolicyPublisher/index.ts:60-72 | A wave holds exactly the ids of the policies its filter keeps, and nothing else. |
| Scheduler.SelectInOrder | B2CPolicyPublisher/index.ts:60-72 | A wave lists the kept ids in the order of the policy files: position `t` of the wave is the id at the `t`-th kept position, and the kept positions are ascending and complete. |
| Scheduler.AddRange | B2CPolicyPublisher/index.ts:9-13 | Adding a wave's ids one by one yields the old set joined with the wave's ids. |
| Scheduler.IdSetCard | B2CPolicyPublisher/index.ts:78-82 | There are never more distinct ids than policy files, and exactly as many when no id repeats. |
| Scheduler.FirstWave | B2CPolicyPublisher/index.ts:55-64 | Wave 0 on its own is a valid level decomposition. Its ids are the added set, and are ids of policies. |
| Scheduler.LevelsExtend | B2CPolicyPublisher/index.ts:70-76 | Appending the wave computed from the ids added so far keeps the waves a level decomposition. The added set grows by that wave's ids. |
| Scheduler.NoProgress | B2CPolicyPublisher/index.ts:75-80 | A round that adds nothing has an empty wave. The added set is then closed: every policy whose base is added is itself added. |
| Scheduler.Grow | B2CPolicyPublisher/index.ts:66-80 | The rounds keep a level decomposition whose ids are the added set, and extend the waves they start from. Every round but the last grew the added set and left it below the file count, so the loop ran on. The rounds stop with every file counted, or after an empty round with a closed added set. |
| Scheduler.Rounds | B2CPolicyPublisher/index.ts:55-80 | Wave 0 then at least one round: the added set contains every root and only policy ids. Every round but the last kept the loop condition true. The last round either reached the file count or added nothing. |
| Scheduler.Schedule | B2CPolicyPublisher/index.ts:50-94 | No files fails with no-policy-files. Otherwise the plan succeeds exactly when the added set reaches the file count, and fails with missing-base-policy otherwise. A successful plan covers exactly the ids, with no id repeated, and its rounds stop at the first round where the loop condition fails. |
| PlanProperties.LevelsWave | B2CPolicyPublisher/index.ts:60-73 | Wave 0 is the roots, and wave `k` is the policies not yet added whose base was added by the earlier waves. |
| PlanProperties.WaveInOrder | B2CPolicyPublisher/index.ts:60-72 | Inside every wave of a plan the ids keep the order of the policy files. |
| PlanProperties.FirstWaves | B2CPolicyPublisher/index.ts:60-72 | A plan's first two waves are the roots, then the policies whose base is a root. |
| PlanProperties.LevelsInIds | B2CPolicyPublisher/index.ts:60-76 | The waves only ever hold ids of policies. |
| PlanProperties.WaveFresh | B2CPolicyPublisher/index.ts:70-72 | An id in a later wave was not added before, and belongs to a policy whose base was added before. |
| PlanProperties.WavesDisjoint | B2CPolicyPublisher/index.ts:70-72 | No id lands in two waves. |
| PlanProperties.PlanParentsFirst | B2CPolicyPublisher/index.ts:115-117 | In a successful plan every policy is in some wave. In wave 0 it has no base; in a later wave its base is in an earlier wave. |
| PlanProperties.LevelsParentsFirst | B2CPolicyPublisher/index.ts:60-80 | The same, for any level decomposition that covers all ids of distinct-id policies. |
| PlanProperties.RootWaveMember | B2CPolicyPublisher/index.ts:60-62 | With distinct ids, a policy in wave 0 has no base policy. |
| PlanProperties.LaterWaveMember | B2CPolicyPublisher/index.ts:70-72 | With distinct ids, a policy in a later wave has its base policy in an earlier wave. |
| PlanProperties.AllRootsPlan | B2CPolicyPublisher/index.ts:55-80 | With at least one file and distinct ids, when no policy has a base, the plan succeeds with wave 0 holding every id in input order, followed by one empty wave. |
| PlanProperties.ChainGrowth | B2CPolicyPublisher/index.ts:66-80 | For a chain `a`, `b` based on `a`, `c` based on `b`, any rounds that meet the loop's contracts are exactly `[a]`, `[b]`, `[c]`. |
| PlanProperties.ChainRounds | B2CPolicyPublisher/index.ts:55-80 | For that chain the rounds are `[a]`, `[b]`, `[c]`, with no empty wave after the round that reached the file count. |
| PlanProperties.ChainPlan | B2CPolicyPublisher/index.ts:50-94 | That chain schedules successfully into three one-id waves. |
| PlanProperties.NothingLeft | B2CPolicyPublisher/index.ts:70-72 | Once every id is added, the next wave is empty. |
| PlanProperties.ScheduledGrounded | B2CPolicyPublisher/index.ts:82-94 | A successful plan means every policy's chain of base policies reaches a root. |
| PlanProperties.ComplementBlocked | B2CPolicyPublisher/index.ts:66-82 | When the rounds stop on a closed set, every policy left out depends on a left-out or undeclared base. |
| PlanProperties.FailedUngrounded | B2CPolicyPublisher/index.ts:82-94 | With distinct ids, a failed plan means some policy's chain of base policies never reaches a root. |
| PlanProperties.ScheduleSucceedsIff | B2CPolicyPublisher/index.ts:50-94 | Scheduling succeeds exactly when there are files, their ids are distinct, and every chain of base policies reaches a root. |
| PlanProperties.DuplicateIdFails | B2CPolicyPublisher/index.ts:75-94 | Two files with the same id make the run fail with missing-base-policy. |
| PlanProperties.BlockedFails | B2CPolicyPublisher/index.ts:82-94 | A policy in a set of policies whose bases are all in the set or undeclared makes the run fail. |
| PlanProperties.MissingBaseFails | B2CPolicyPublisher/index.ts:82-94 | A base policy that no file declares makes the run fail. |
| PlanProperties.SelfBaseFails | B2CPolicyPublisher/index.ts:82-94 | A policy naming itself as its base makes the run fail. |
| PlanProperties.CycleFails | B2CPolicyPublisher/index.ts:82-94 | Two policies naming each other as base make the run fail. |
| Publisher.FileOf | B2CPolicyPublisher/index.ts:122-127 | The lookup finds no file exactly when no policy carries the id. |
| Publisher.FileOfFirst | B2CPolicyPublisher/index.ts:122-127 | The file found is that of the first policy carrying the id, since `filter(...)[0]` takes the first. |
| Publisher.FileOfDistinct | B2CPolicyPublisher/index.ts:122-127 | With distinct ids, each policy's id resolves to its own file. |
| Publisher.FlattenIndex | B2CPolicyPublisher/index.ts:115-120 | Position `j` of wave `k` is uploaded after every id of the earlier waves, at a fixed place in the upload order. |
| Publisher.FlattenCovered | B2CPolicyPublisher/index.ts:115-120 | The upload order holds exactly the ids in the waves. |
| Publisher.FlattenNoDup | B2CPolicyPublisher/index.ts:115-120 | With distinct ids, the upload order never repeats an id. |
| Publisher.FlattenParentsFirst | B2CPolicyPublisher/index.ts:115-120 | With distinct ids, in the upload order each base policy comes before the policies built on it. |
| Publisher.PlanOrder | B2CPolicyPublisher/index.ts:115-138 | A successful plan's upload order lists every policy exactly once, bases first. |
| Publisher.AllRootsOrder | B2CPolicyPublisher/index.ts:115-120 | With at least one file and distinct ids, when no policy has a base, the upload order is the input order. |
| Publisher.StepMissing | B2CPolicyPublisher/index.ts:122-127 | An id with no file stops the run, with a reason. |
| Publisher.StepSend | B2CPolicyPublisher/index.ts:122-136 | Sending the next id keeps the run's state. The run goes on exactly when the PUT is accepted. |
| Publisher.HaltedShort | B2CPolicyPublisher/index.ts:130-138 | A run that stopped early did not send the whole order with every PUT accepted. |
| Publisher.UploadWave | B2CPolicyPublisher/index.ts:120-137 | The PUTs of one wave continue the run in upload order. They stop at a missing file or a rejected PUT. |
| Publisher.UploadPlan | B2CPolicyPublisher/index.ts:115-138 | The PUTs are the upload order's prefix, each with its resolved file, all but the last accepted. The run completes exactly when it sent everything with every PUT accepted, and otherwise halted for a reason. |
| Publisher.UploadScheduled | B2CPolicyPublisher/index.ts:96-153 | The PUTs follow the plan's upload order, wave by wave, each id with its first matching file. The run ends as the report says: success exactly when every PUT was accepted, or failure at the first rejected PUT. |
| Publisher.Publish | B2CPolicyPublisher/index.ts:50-153 | No files, or an unresolvable plan, fails before any PUT, and so does a missing token. Otherwise the outcome is the upload report, with the PUTs sent in the plan's upload order. Success means a good plan, a token and every PUT accepted. |
| Publisher.FailedReport | B2CPolicyPublisher/index.ts:145-153 | A halted run reports failure with the rejected PUT last and every earlier PUT accepted. |
| Publisher.PublishedReport | B2CPolicyPublisher/index.ts:141-144 | A run that sent the whole order reports the policy count, with each policy's own file sent. |
| Publisher.SentAll | B2CPolicyPublisher/index.ts:115-138 | A complete run uploaded every policy's own file. |
| Publisher.SentFromPlan | B2CPolicyPublisher/index.ts:115-138 | Whatever a run sent carries policies' own files, no id twice, and each base before the policies built on it. |

## Left out

- File system, XML parsing, `tl.ls` and the pipeline inputs are not modelled. The policy files arrive as `Policy(id, parentId, file)` values and the builder's folder as a list of `SourceFile(name, content)`.
- `JSON.parse` of `appsettings.json` is not modelled: the parsed value is an `Option<AppSettings>`, with `None` for the unreadable case. A malformed file that makes `JSON.parse` throw is not modelled.
- MSAL authentication is reduced to a boolean `tokenAcquired`. A `null` result and an exception while acquiring the token both map to `NoAccessToken`, with no PUT sent. The code reports both through the same `catch` as a failed upload; the model keeps the reason apart.
- The HTTP PUTs are an oracle `accept`, indexed by the PUT's position in the run. Response bodies, headers and the Graph URL are not modelled.
- Logging (`tl.debug`, `tl.error`, `console.log`) and the exact messages passed to `tl.setResult` are not modelled. Each failure is a constructor of `BuildError` or `PublishError`.
- The builder's final `setResult(Succeeded)`, which runs after every outcome, is not modelled.
- The output folder creation and the writing of files are not modelled. `Build` returns the list of outputs.
- The `Production` field of an environment is not modelled, because nothing reads it.
- Substitution.Substitute: keys are required to contain no regular-expression metacharacters, and values (the tenant included) no `$`. `new RegExp` and `String.replace` then behave as a literal global replace. Keys with metacharacters, and `$` replacement patterns, are not modelled.
- Substitution.SubstituteTemplate: the placeholder-wise resolution is proved only for templates whose literal chunks and values cannot form a placeholder. Chained rewriting outside that hypothesis is shown only by `ChainedPasses` and `TenantSettingCanMatter`.
- Environments.EnvironmentSettings: a stored `PolicySettings` list may hold one key twice, which `JSON.parse` cannot produce. `Lookup` then reads the first entry, where the parsed object would keep the last.
- PolicySettings.Put: `Object.keys` lists integer-like keys first in numeric order. The model keeps every key in insertion order.
- Publisher.UploadPlan: a PUT is sent only after the previous one finished, as `await` does. Whether a rejected PUT stops the run depends only on the oracle.
- Publisher.PlanOrder: its contract states membership, no repetition and bases first. The order inside each wave is stated separately, by `WaveInOrder`, and the order of the whole upload for the all-roots case by `AllRootsOrder`.
- Scheduler.Schedule: the loop's integer counters are unbounded. JavaScript arrays and sets cannot reach the sizes where that would differ.
