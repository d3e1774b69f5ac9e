# vanblog core logic in Dafny

A model of the logic of the vanblog blog system (server, admin and website
packages) that decides things. The external services it calls are only
parameters. It covers seven areas:

- **Comment-service settings.** The server turns the stored comment settings
  into the environment of the Waline child process (`mapConfig2Env`,
  `loadEnv`).
- **Comment-service process.** The server supervises that child process:
  `run`, `stop`, `restart`, `init` and the exit handler.
- **Comment documents.** The server picks the comment collections, and
  exports and imports the comment documents.
- **Backups.** The server restores a backup with `restoreBackup`, and the
  first-run endpoints guard against busy or repeated requests (`initSystem`,
  `uploadImg` and the older `restoreByBackup`).
- **AI introductions.** The server asks a chat-completion service for an
  article introduction. The editor's "AI intro" action puts it before the
  more tag.
- **Comment settings form.** The admin form loads the settings and checks a
  submit.
- **Website.** Menu keys, the mobile menu, the article card, and the home
  page's masonry columns and paging.

A JavaScript value is the datatype `Js.Json`. A plain object is an ordered
list of key/value pairs: string keys keep their insertion order, as
`Object.keys` gives them, but integer-like keys are not moved ahead in
ascending order as JavaScript moves them. Parsing,
stringifying, `removeID`, HTTP and database calls, and the other services are
parameters or recorded traces of calls.

| file | module | source |
|---|---|---|
| js.dfy | `Js` | JavaScript values, truthiness, `??`, `\|\|`, ordered objects, property assignment and spread |
| strings.dfy | `Strings` | `indexOf`, `includes`, `trim`, `slice`, `toLowerCase`, decimal `String(n)` |
| waline_env.dfy | `WalineEnv` | `mapConfig2Env` and the layers of `loadEnv` |
| waline_provider.dfy | `WalineSupervisor` | `WalineProvider` run/stop/restart/exit |
| comment_store.dfy | `CommentStore` | `resolveCommentsCollectionNames`, `exportComments`, `importComments` |
| restore.dfy | `Restore` | `restoreBackup` |
| init_controller.dfy | `InitController` | `InitController` |
| ai_provider.dfy | `AiProvider` | `AiProvider.generateIntro` |
| ai_intro.dfy | `AiIntroPlugin` | `genIntroFromLLM` and `click` in `aiIntro.tsx` |
| waline_form.dfy | `WalineForm` | `WalineForm` `request` and `onFinish` |
| menu_key.dfy | `MenuKey` | `getMenuItemKey` |
| nav_bar_mobile.dfy | `NavBarMobile` | `picUrl`, `renderItem`, `renderLinks` |
| post_card.dfy | `PostCard` | `lock`, `showDonate`, `calContent`, `showToc` |
| home_page.dfy | `HomePage` | `columns`, `loadMore`, `reloadWithFilter` |

Paths below are relative to the repository root.

## Model

| member | source | states |
|---|---|---|
| WalineEnv.EnvName | packages/server/src/provider/waline/waline.provider.ts:21-34 | The fixed mapping table from settings keys to environment names; a mapped name is never empty |
| WalineEnv.EnvValue | packages/server/src/provider/waline/waline.provider.ts:60-61 | Numbers are written as their decimal text; every other value is passed on as it is |
| WalineEnv.MapConfig2Env | packages/server/src/provider/waline/waline.provider.ts:20-86 | The two loops build `EnvOfSettings`; a missing (null or undefined) settings record gives the empty environment |
| WalineEnv.AccumulateGet | packages/server/src/provider/waline/waline.provider.ts:39-65 | After the first loop, every environment name holds the value written last under it by the settings entries, in key order |
| WalineEnv.AccumulateUnique | packages/server/src/provider/waline/waline.provider.ts:39-65 | The first loop's result never holds one name twice |
| WalineEnv.StripSmtpGet | packages/server/src/provider/waline/waline.provider.ts:66-83 | The second loop removes exactly the six mail names and keeps every other name with its value |
| WalineEnv.StripSmtpKeys | packages/server/src/provider/waline/waline.provider.ts:66-83 | A name survives the second loop if and only if it was present and is not a mail name |
| WalineEnv.EnvOfSettingsGet | packages/server/src/provider/waline/waline.provider.ts:36-86 | The whole mapping, name by name: mail names are absent while `smtp.enabled` is falsy; every other name holds its last written value |
| WalineEnv.EnvOfSettingsUnique | packages/server/src/provider/waline/waline.provider.ts:35-86 | The returned environment has no duplicate names |
| WalineEnv.MailOffDropsSmtp | packages/server/src/provider/waline/waline.provider.ts:66-83 | With mail off, no mail name appears, whatever the entries; every other name keeps what the first loop wrote |
| WalineEnv.LastWriterWins | packages/server/src/provider/waline/waline.provider.ts:39-65 | The entry that writes a name last decides its value in the environment |
| WalineEnv.NeverWritten | packages/server/src/provider/waline/waline.provider.ts:57-63 | A name that no entry writes is absent: keys outside the table produce nothing |
| WalineEnv.ForceLoginWrites | packages/server/src/provider/waline/waline.provider.ts:40-43 | A truthy `forceLoginComment` writes `LOGIN=force`; a falsy one writes nothing |
| WalineEnv.ForceLoginRule | packages/server/src/provider/waline/waline.provider.ts:40-43 | If no custom variable sets `LOGIN`, it is `force` when `forceLoginComment` is truthy, and absent otherwise |
| WalineEnv.AkismetDisabledWrites | packages/server/src/provider/waline/waline.provider.ts:44-47 | `akismet.enabled === false` writes `AKISMET_KEY='false'`; any other value writes nothing |
| WalineEnv.AkismetDisabledLast | packages/server/src/provider/waline/waline.provider.ts:44-47 | An `akismet.enabled: false` entry with no later writer of `AKISMET_KEY` leaves `'false'` in the environment |
| WalineEnv.AkismetKeyAfterOptOut | packages/server/src/provider/waline/waline.provider.ts:44-63 | A later `akismet.key` entry overwrites the `'false'`: which value wins depends on key order |
| WalineEnv.OtherConfigWrites | packages/server/src/provider/waline/waline.provider.ts:48-56 | Valid `otherConfig` JSON writes every one of its entries verbatim |
| WalineEnv.TableWrites | packages/server/src/provider/waline/waline.provider.ts:57-63 | A table key writes only its mapped name, with numbers in decimal |
| WalineEnv.DropInertEntry | packages/server/src/provider/waline/waline.provider.ts:39-65 | An entry that writes nothing can be removed without changing the environment: invalid `otherConfig` JSON neither throws nor adds anything |
| WalineEnv.MailHostAndAkismetOff | packages/server/src/provider/waline/waline.provider.ts:20-86 | With mail on, when `smtp.host: h` is the last entry writing `SMTP_HOST` and `akismet.enabled: false` the last writing `AKISMET_KEY`, the environment has `SMTP_HOST=h` and `AKISMET_KEY='false'` |
| WalineEnv.MongoEnv | packages/server/src/provider/waline/waline.provider.ts:88-99 | The database layer; in development a `mongo` or empty host becomes `127.0.0.1` |
| WalineEnv.SiteEnv | packages/server/src/provider/waline/waline.provider.ts:100-105 | The site layer; `JWT_TOKEN` is the global secret when it is set, and the fresh salt otherwise |
| WalineEnv.LoadedEnv | packages/server/src/provider/waline/waline.provider.ts:108-115 | After `loadEnv`, `AKISMET_KEY` is always truthy |
| WalineEnv.LoadedEnvGet | packages/server/src/provider/waline/waline.provider.ts:108-115 | The settings layer overrides the site layer, which overrides the database layer; a missing or falsy `AKISMET_KEY` becomes `'false'` |
| WalineSupervisor.StopEffects | packages/server/src/provider/waline/waline.provider.ts:128-135 | `stop` kills the process group only when there is a handle |
| WalineSupervisor.ExitAsWritten | packages/server/src/provider/waline/waline.provider.ts:151-154 | The exit handler as written clears the handle, whichever child exited |
| WalineSupervisor.ExitChecked | packages/server/src/provider/waline/waline.provider.ts:151-154 | The corrected handler clears the handle only for the child it names |
| WalineSupervisor.StopTracks | packages/server/src/provider/waline/waline.provider.ts:128-135 | After `stop` no child is running and there is no handle |
| WalineSupervisor.RunTracks | packages/server/src/provider/waline/waline.provider.ts:136-170 | After `run`, the new child is the only one running and the handle names it |
| WalineSupervisor.ExitCheckedTracks | packages/server/src/provider/waline/waline.provider.ts:151-154 | With the corrected handler, an exit event from the current child or an old one keeps the handle truthful |
| WalineSupervisor.LateExitStartsSecondServer | packages/server/src/provider/waline/waline.provider.ts:121-154 | With the handler as written, a late exit of the old child loses the new child's handle, and the next restart leaves two servers running |
| WalineSupervisor.EnvFrom | packages/server/src/provider/waline/waline.provider.ts:87-115 | The environment `loadEnv` computes always has a truthy `AKISMET_KEY` |
| WalineSupervisor.WalineProvider.constructor | packages/server/src/provider/waline/waline.provider.ts:12-14 | No handle, an empty environment, no effects |
| WalineSupervisor.WalineProvider.LoadEnv | packages/server/src/provider/waline/waline.provider.ts:87-117 | Replaces the environment by `EnvFrom` and changes nothing else |
| WalineSupervisor.WalineProvider.Stop | packages/server/src/provider/waline/waline.provider.ts:128-135 | Kills the group if there is a handle, drops the handle, and keeps the handle truthful |
| WalineSupervisor.WalineProvider.Run | packages/server/src/provider/waline/waline.provider.ts:136-170 | Reloads the environment; then either spawns, or stops and runs again. In both cases one child runs, spawned with the process environment spread under the loaded one |
| WalineSupervisor.WalineProvider.Init | packages/server/src/provider/waline/waline.provider.ts:118-120 | Same effect as `run` |
| WalineSupervisor.WalineProvider.Restart | packages/server/src/provider/waline/waline.provider.ts:121-127 | Stops a running child, then runs a new one; the handle stays truthful |
| WalineSupervisor.WalineProvider.OnExit | packages/server/src/provider/waline/waline.provider.ts:151-154 | The corrected exit handler: records the exit and clears the handle only for its own child |
| CommentStore.Filter | packages/server/src/provider/waline/waline.provider.ts:182-184 | `filter` keeps exactly the elements that pass, in their order |
| CommentStore.ResolveCommentsCollectionNames | packages/server/src/provider/waline/waline.provider.ts:178-186 | The existing priority names in priority order; otherwise every name containing "comment" in any case, in listing order; otherwise `['Comment']`. Never empty |
| CommentStore.ResolvedNamesExist | packages/server/src/provider/waline/waline.provider.ts:178-186 | Every chosen name is an existing collection, unless the default is used |
| CommentStore.ExportValue | packages/server/src/provider/waline/waline.provider.ts:202-208 | An ObjectId becomes its text; any other value is kept |
| CommentStore.ExportDoc | packages/server/src/provider/waline/waline.provider.ts:192-215 | Every field keeps its key and place, with its value exported |
| CommentStore.ExportDocs | packages/server/src/provider/waline/waline.provider.ts:188-218 | Every document is exported, in order |
| CommentStore.ExportComments | packages/server/src/provider/waline/waline.provider.ts:188-218 | The documents of the first resolved collection, one exported document each, none of them with an ObjectId field left; nothing when that collection does not exist |
| CommentStore.CanonicalHexLower | packages/server/src/provider/waline/waline.provider.ts:228-229 | The text of an ObjectId is already lower case |
| CommentStore.ImportValue | packages/server/src/provider/waline/waline.provider.ts:226-236 | Only an `_id` holding 24 hexadecimal digits changes, into an ObjectId; `pid`, `rid` and every other field stay as they are |
| CommentStore.ImportDoc | packages/server/src/provider/waline/waline.provider.ts:224-238 | Every field keeps its key and place, with its value imported |
| CommentStore.ImportDocs | packages/server/src/provider/waline/waline.provider.ts:224-238 | Every document is converted, in order |
| CommentStore.ExportImportRoundTrip | packages/server/src/provider/waline/waline.provider.ts:192-238 | Exporting a stored comment and importing it again gives it back unchanged |
| CommentStore.ExportImportNormalises | packages/server/src/provider/waline/waline.provider.ts:192-238 | For any document the round trip keeps the keys, restores an ObjectId `_id`, and leaves other fields exported |
| CommentStore.ExportImportDocs | packages/server/src/provider/waline/waline.provider.ts:188-238 | An export of stored comments, imported again, gives the same documents |
| CommentStore.ImportComments | packages/server/src/provider/waline/waline.provider.ts:220-243 | A missing or empty list does nothing; otherwise each resolved collection is deleted, then filled with the converted documents |
| CommentStore.ReplaceEach | packages/server/src/provider/waline/waline.provider.ts:239-242 | One delete and then one insert per collection, in order |
| CommentStore.RestoreIds | packages/server/src/provider/waline/waline.provider.ts:225-237 | The in-place loop over the copied document computes `ImportDoc` |
| CommentStore.ReplaceCollections | packages/server/src/provider/waline/waline.provider.ts:239-242 | Delete-then-insert leaves each named collection holding exactly the documents; other collections are untouched |
| CommentStore.ImportReplaces | packages/server/src/provider/waline/waline.provider.ts:220-243 | After a non-empty import every comment collection holds exactly the converted documents |
| CommentStore.ImportThenExport | packages/server/src/provider/waline/waline.provider.ts:188-243 | An export right after an import reads back the converted documents |
| CommentStore.BackupSurvivesImport | packages/server/src/provider/waline/waline.provider.ts:188-243 | Stored comments survive an export, import and export unchanged |
| Restore.Destructure | packages/server/src/utils/restore.ts:44-45 | Destructuring fails exactly on null or undefined data; otherwise each of the ten parts is the data's member of that name, `staticItems` being the member `static` |
| Restore.MissingListsDefault | packages/server/src/utils/restore.ts:47-50 | Missing articles, drafts, viewer and visit lists become empty lists before the id removal |
| Restore.StaticSettingCleared | packages/server/src/utils/restore.ts:52-54 | `setting.static` gets `_id` and `__v` set to undefined and keeps its other fields |
| Restore.CleanSettingKeeps | packages/server/src/utils/restore.ts:52-54 | The clean-up changes no other member of the setting |
| Restore.PrepareKeepsSetting | packages/server/src/utils/restore.ts:47-58 | The clean-up keeps every value the restore branches on |
| Restore.AdminRecord | packages/server/src/utils/restore.ts:60-66 | The admin record has id 0 and the backup's name, password, nickname and salt |
| Restore.RestoreOrdered | packages/server/src/utils/restore.ts:56-106 | The calls run stage by stage: user, meta, articles, drafts, categories, settings, comment service, static items, visits, viewers |
| Restore.RestoreCommentsThenRestart | packages/server/src/utils/restore.ts:95-98 | Every comment import is followed immediately by its restart |
| Restore.CommentStepFollows | packages/server/src/utils/restore.ts:92-98 | The comment step restarts only after it has imported the comments |
| Restore.RestoreCount | packages/server/src/utils/restore.ts:56-106 | Each provider is called as often as `ExpectedCount` says: the admin is created only in init mode and the user is updated only in import mode; meta is updated or created; categories, visits and viewers only when non-empty; articles, drafts, settings and static items once |
| Restore.RestoreAdminIdZero | packages/server/src/utils/restore.ts:59-66 | Every admin created has id 0 and the backup's name |
| Restore.RestoreRestarts | packages/server/src/utils/restore.ts:92-98 | The number of restarts is 1 when `setting.waline` is set, plus 1 when there are comments |
| Restore.CleanUp | packages/server/src/utils/restore.ts:47-54 | The clean-up of the snapshot computes `Prepare` |
| Restore.RestoreUser | packages/server/src/utils/restore.ts:56-70 | The user step computes `UserStep` |
| Restore.RestoreMeta | packages/server/src/utils/restore.ts:72-83 | The meta step computes `MetaStep` |
| Restore.RestoreComments | packages/server/src/utils/restore.ts:92-98 | The comment-service step computes `CommentStep` |
| Restore.RestoreCalls | packages/server/src/utils/restore.ts:56-106 | The calls of a complete restore; `RestoreOrdered`, `RestoreCount` and `RestoreCommentsThenRestart` state their order, counts and restarts |
| Restore.RestoreAttemptPrefix | packages/server/src/utils/restore.ts:13-107 | A restore whose call `i` rejects has run exactly the first `i + 1` calls of the complete one, still in stage order, with no provider called more often than in the complete run and each comment import before the failing call followed by its restart; it completes exactly when no call rejects |
| Restore.RestoreBackup | packages/server/src/utils/restore.ts:13-107 | Makes the calls `RestoreCalls` lists: stage by stage, each comment import followed by its restart, with 0, 1 or 2 restarts |
| InitController.IsFavicon | packages/server/src/controller/admin/init/init.controller.ts:80-83 | The upload is a favicon exactly when the query value is `'true'` |
| InitController.Lift | packages/server/src/controller/admin/init/init.controller.ts:116-151 | Provider calls become effects one for one |
| InitController.LegacyOrdered | packages/server/src/controller/admin/init/init.controller.ts:116-162 | The older restore runs stage by stage and renders last |
| InitController.LegacyAdmin | packages/server/src/controller/admin/init/init.controller.ts:116-126 | The admin is created exactly when the backup has a user, and a user is never updated |
| InitController.LegacyAdminIdZero | packages/server/src/controller/admin/init/init.controller.ts:119-125 | Every admin created has id 0 and the backup's name |
| InitController.LegacyRestarts | packages/server/src/controller/admin/init/init.controller.ts:142-144 | At most one restart, exactly when `setting.waline` is set |
| InitController.LegacyNoComments | packages/server/src/controller/admin/init/init.controller.ts:116-151 | The older restore never imports comments |
| InitController.LegacyLogs | packages/server/src/controller/admin/init/init.controller.ts:146-151 | Visit and viewer logs are imported whenever the cleaned-up value is truthy |
| InitController.LegacyImportsEmptyVisits | packages/server/src/controller/admin/init/init.controller.ts:146-148 | For a backup without visits, the older restore still imports an empty list; `restoreBackup` imports nothing |
| InitController.LegacyRun | packages/server/src/controller/admin/init/init.controller.ts:101-162 | The calls, answer and flag release of a `restoreByBackup` run that fails at a given step; `LegacyRunRelease` states which runs clear the flag |
| InitController.LegacyRunRelease | packages/server/src/controller/admin/init/init.controller.ts:101-162 | A complete run answers success and clears the flag. A failure clears it only at the render call. A parse error clears nothing and makes no call |
| InitController.LegacyFailRelease | packages/server/src/controller/admin/init/init.controller.ts:152-162 | A failure at call `i` clears the flag exactly when `i` is the render call |
| InitController.LegacyActivateOnlyLast | packages/server/src/controller/admin/init/init.controller.ts:152-155 | The render call is the last call and the only one |
| InitController.LegacyProviderCalls | packages/server/src/controller/admin/init/init.controller.ts:116-151 | The older restore's calls, stage by stage, compute `LegacyCalls` |
| InitController.Controller.constructor | packages/server/src/controller/admin/init/init.controller.ts:46-47 | Both flags are false and there are no effects |
| InitController.Controller.BeginInit | packages/server/src/controller/admin/init/init.controller.ts:50-60 | 500 when already initialised, 429 while another init runs, both without work; otherwise sets the flag and starts the init |
| InitController.Controller.FinishInit | packages/server/src/controller/admin/init/init.controller.ts:60-70 | Clears the flag on both outcomes; renders and answers success only when the init succeeded |
| InitController.Controller.InitSystem | packages/server/src/controller/admin/init/init.controller.ts:50-71 | The whole request: guards, then init, render and success, or a throw; the flag is as before afterwards |
| InitController.Controller.UploadImg | packages/server/src/controller/admin/init/init.controller.ts:75-89 | 500 without work when already initialised; otherwise uploads, as a favicon exactly when the query is `'true'`, and answers 200 with the upload's result, or 500 when the upload rejects |
| InitController.Controller.RestoreByBackup | packages/server/src/controller/admin/init/init.controller.ts:93-163 | 500 when already initialised and 429 while restoring, both without work; otherwise the effects of `LegacyRun`, with the flag left set unless the run cleared it |
| InitController.OverlappingInit | packages/server/src/controller/admin/init/init.controller.ts:51-70 | A second init while the first is pending is busy and does no work. A failed init clears the flag, so the next one goes ahead; after a successful one a request is answered 500 |
| InitController.StuckRestore | packages/server/src/controller/admin/init/init.controller.ts:98-103 | After a restore that fails before rendering, the next restore is turned away as busy |
| AiProvider.IntroRequest | packages/server/src/provider/ai/ai.provider.ts:23-42 | The request goes to the endpoint followed by `/chat/completions`, with the model and the prompt prefix before the content |
| AiProvider.TrimmedOutput | packages/server/src/provider/ai/ai.provider.ts:43 | The content text trimmed, or absent when there is no content |
| AiProvider.GenerateIntro | packages/server/src/provider/ai/ai.provider.ts:18-52 | Unconfigured settings fail with the "configure AI first" error; an introduction is never empty and has at most 120 characters |
| AiProvider.IntroIsTruncatedOutput | packages/server/src/provider/ai/ai.provider.ts:43-47 | An introduction is a prefix of the trimmed output, and equals it when the output has at most 120 characters |
| AiProvider.EmptyOutputFails | packages/server/src/provider/ai/ai.provider.ts:43-46 | An empty or missing output fails with "AI 未返回内容" |
| AiProvider.RejectionMessage | packages/server/src/provider/ai/ai.provider.ts:48-51 | A failure is rethrown with the upstream message, else the error's message, else the fixed fallback |
| AiIntroPlugin.GenIntroFromLLM | packages/admin/src/components/Editor/aiIntro.tsx:8-39 | An introduction is never empty; every other outcome shows an error toast |
| AiIntroPlugin.GenIntroKeeps | packages/admin/src/components/Editor/aiIntro.tsx:25-34 | An introduction comes back exactly when the request succeeded with status 200 and the trimmed intro is not empty, and it is that trimmed text |
| AiIntroPlugin.InsertIntro | packages/admin/src/components/Editor/aiIntro.tsx:59-68 | With a more tag at `idx` the text is `intro + "\n\n" + md[idx..]`; without one it is `intro + "\n\n" + tag + "\n\n" + md` |
| AiIntroPlugin.InsertedShape | packages/admin/src/components/Editor/aiIntro.tsx:59-68 | The new text starts with the introduction and contains the more tag |
| AiIntroPlugin.Editor.constructor | packages/admin/src/components/Editor/aiIntro.tsx:49-52 | The editor holds the text, is not loading and has shown nothing |
| AiIntroPlugin.Editor.Click | packages/admin/src/components/Editor/aiIntro.tsx:49-74 | Empty content: a warning and no change. No introduction: no change. Otherwise the text from `InsertIntro` and a success toast. Loading is false at the end in every case |
| WalineForm.ToNumber | packages/admin/src/components/WalineForm/index.tsx:32 | `Number` keeps a number and turns undefined into NaN |
| WalineForm.AkismetOn | packages/admin/src/components/WalineForm/index.tsx:26-28 | Whether the form shows Akismet as on; `AkismetOnRule` states it as one condition |
| WalineForm.AkismetOnRule | packages/admin/src/components/WalineForm/index.tsx:26-29 | Akismet is on when `akismet.enabled` is truthy, or else exactly when `akismet.key` is truthy and not `'false'` |
| WalineForm.Copy | packages/admin/src/components/WalineForm/index.tsx:39 | `{ ...v }` is an object |
| WalineForm.CopyKeeps | packages/admin/src/components/WalineForm/index.tsx:39 | The copy of an object keeps every value |
| WalineForm.InitialValues | packages/admin/src/components/WalineForm/index.tsx:33-39 | Missing data loads as both switches off; otherwise as a copy of the data |
| WalineForm.InitialValuesCopy | packages/admin/src/components/WalineForm/index.tsx:39 | Loaded settings keep every stored value |
| WalineForm.Form.constructor | packages/admin/src/components/WalineForm/index.tsx:12-16 | The form starts with mail off, Akismet off, an empty key and words, and nothing sent |
| WalineForm.Form.Load | packages/admin/src/components/WalineForm/index.tsx:23-40 | When `getWalineConfig` resolves: sets the mail switch, the Akismet switch, the key, the words and the interval (60 when it is missing) and answers `InitialValues`; when it rejects: changes nothing and answers no initial values |
| WalineForm.Form.OnFinish | packages/admin/src/components/WalineForm/index.tsx:42-71 | A refused submit only shows its dialog; a sent one records the submitted values and sets the mail switch, and shows the success toast only when `updateWalineConfig` resolves |
| WalineForm.Form.SubmittedTidied | packages/admin/src/components/WalineForm/index.tsx:62-65 | The sent record carries the Akismet switch, the trimmed key and the trimmed words |
| WalineForm.Form.SubmittedCustom | packages/admin/src/components/WalineForm/index.tsx:66-67 | The sent record carries the interval and the custom variables written back as text |
| WalineForm.Form.SubmittedKeeps | packages/admin/src/components/WalineForm/index.tsx:62-67 | Every other form value is sent as it was |
| WalineForm.Form.FinishOnDemo | packages/admin/src/components/WalineForm/index.tsx:43-46 | The demo site refuses every submit |
| WalineForm.Form.FinishInvalidJson | packages/admin/src/components/WalineForm/index.tsx:47-55 | Outside the demo site, the submit is refused as invalid JSON exactly when the custom variables are present and do not parse |
| WalineForm.Form.FinishSends | packages/admin/src/components/WalineForm/index.tsx:42-69 | A record is sent exactly when the host is not the demo, the custom variables parse, and Akismet has a non-blank key or is off |
| WalineForm.Form.SentHasKey | packages/admin/src/components/WalineForm/index.tsx:56-64 | A sent record with Akismet on always has a non-blank key |
| WalineForm.BlankKeyRefused | packages/admin/src/components/WalineForm/index.tsx:57 | A key of only whitespace counts as blank |
| MenuKey.JoinDash | packages/website/components/NavBar/menuKey.ts:7-12 | `join("-")` of no parts is empty, and of one part is that part |
| MenuKey.GetMenuItemKey | packages/website/components/NavBar/menuKey.ts:7-16 | Without `extra` (null or undefined) the key is the base key; with `extra` it is the base key followed by `-` and the extra |
| MenuKey.KeyJoinsFields | packages/website/components/NavBar/menuKey.ts:7-15 | Without a suffix the key is `id-level-value-name` |
| MenuKey.KeyFallbacks | packages/website/components/NavBar/menuKey.ts:8-11 | Missing fields fall back to `menu`, `0`, `value` and `name` |
| MenuKey.KeyKeepsPresent | packages/website/components/NavBar/menuKey.ts:8-11 | A field that is neither null nor undefined, `0`, `false` and `""` included, is used as it is |
| MenuKey.SuffixDecidesKey | packages/website/components/NavBar/menuKey.ts:13-16 | Two keys of one entry with suffixes are equal only when the suffixes read the same |
| NavBarMobile.PicUrl | packages/website/components/NavBarMobile/index.tsx:20-25 | The dark logo exactly when the theme contains "dark" and a dark logo is set; the normal logo otherwise |
| NavBarMobile.RenderItem | packages/website/components/NavBarMobile/index.tsx:32-72 | An entry links outside the site, in a new tab, exactly when its value is text containing `http`; either way the link carries the entry's key with its suffix and its value as address, and a sub-entry is indented |
| NavBarMobile.ChildEntries | packages/website/components/NavBarMobile/index.tsx:80-85 | One sub-entry per child |
| NavBarMobile.RenderLinks | packages/website/components/NavBarMobile/index.tsx:74-90 | The nested loops build `Links`: each root followed by its children |
| NavBarMobile.LinksLength | packages/website/components/NavBarMobile/index.tsx:74-90 | The list has one entry per root plus one per child |
| NavBarMobile.GroupAt | packages/website/components/NavBarMobile/index.tsx:74-90 | The group of root `p` sits right after the groups of the earlier roots |
| NavBarMobile.LinksLayout | packages/website/components/NavBarMobile/index.tsx:76-84 | Root `p` sits at its offset with suffix `root-p`, and its child `c` right after it with suffix `child-p-c` |
| NavBarMobile.SuffixesDistinct | packages/website/components/NavBarMobile/index.tsx:77-83 | Different places in the menu tree get different key suffixes |
| NavBarMobile.DashAfterDigits | packages/website/components/NavBarMobile/index.tsx:83 | A number followed by a dash splits back into its two parts |
| PostCard.InitialLock | packages/website/components/PostCard/index.tsx:46 | A card starts locked exactly when it is not in a list and the post is private |
| PostCard.ShowDonate | packages/website/components/PostCard/index.tsx:49-66 | Donating is offered only on an unlocked card that is not in a list and has a payment code; `ShowDonateRule` gives the exact condition |
| PostCard.CalContent | packages/website/components/PostCard/index.tsx:68-82 | Except for a private card in a list, the shown text is no longer than the content; `PrivateOverviewHidden`, `OverviewExcerpt` and `FullContentDropsFirstTag` state each case |
| PostCard.ShowDonateRule | packages/website/components/PostCard/index.tsx:49-66 | Donating is offered exactly when the card is unlocked, donating is not hidden and a payment code exists, on articles, and on the about page only when asked for; never in a list |
| PostCard.PrivateOverviewHidden | packages/website/components/PostCard/index.tsx:69-72 | A private card in a list shows only the placeholder |
| PostCard.OverviewExcerpt | packages/website/components/PostCard/index.tsx:73-78 | A public card in a list shows a prefix: the text before the first more tag, which holds no tag, or else at most the first 50 characters |
| PostCard.BeforeFirstHasNone | packages/website/components/PostCard/index.tsx:74-76 | The text before the first tag contains no tag |
| PostCard.FullContentDropsFirstTag | packages/website/components/PostCard/index.tsx:79-81 | A whole card drops only the first more tag: putting it back in place gives the content again |
| PostCard.ShowToc | packages/website/components/PostCard/index.tsx:84-88 | The table of contents shows exactly on an article with headings |
| HomePage.NumCols | packages/website/pages/index.tsx:122-136 | The column count is between 1 and 3 |
| HomePage.NumColsRule | packages/website/pages/index.tsx:123-136 | 1 before mount; otherwise 3 from width 1280, 2 from 575, 1 below |
| HomePage.Columns | packages/website/pages/index.tsx:138-142 | The loop fills column `j` with `Column(articles, n, j)` |
| HomePage.ColumnPicks | packages/website/pages/index.tsx:139-141 | Column `j` holds the articles at increasing indices that are `j` modulo the count: list order is kept |
| HomePage.IndexInItsColumn | packages/website/pages/index.tsx:140 | Every index goes to the column of its remainder |
| HomePage.ColumnsPartition | packages/website/pages/index.tsx:138-141 | The columns together hold every article exactly as often as the list does |
| HomePage.FreshSpec | packages/website/pages/index.tsx:161-163 | An article is appended exactly when it is on the next page and its id is new |
| HomePage.FreshIds | packages/website/pages/index.tsx:161-163 | Appended ids come from the next page and are not among the earlier ones |
| HomePage.FreshUnique | packages/website/pages/index.tsx:161-163 | A page with distinct ids appends distinct ids |
| HomePage.MergeKeepsIdsUnique | packages/website/pages/index.tsx:160-165 | The merge keeps the earlier list as a prefix and keeps the ids distinct |
| HomePage.OrNone | packages/website/pages/index.tsx:153-154 | A filter is sent exactly when it is set and not empty |
| HomePage.RouteQueryFields | packages/website/pages/index.tsx:195-197 | The address query holds `tag` and `category` only when each is set, and nothing else |
| HomePage.Home.constructor | packages/website/pages/index.tsx:29-37 | Page 1, more to load, not loading, no filters |
| HomePage.Home.LoadMore | packages/website/pages/index.tsx:145-173 | Does nothing while loading or with nothing more. An empty page sets `hasMore=false` and keeps list and page. Otherwise it merges and moves to the next page. A failure changes nothing but `loading` |
| HomePage.Home.ReloadWithFilter | packages/website/pages/index.tsx:175-199 | Sets the filters and page 1, and requests page 1. The list is replaced, and `hasMore` holds exactly when there are at least 10 results. A failed request leaves the list and the address as they were |

## Left out

- Process spawning, `unref`, the process group signal, and the stdout, stderr and message listeners. The child process is only its process id, in a trace of spawn, kill and exit effects.
- Logging (`Logger`, `console.log`, `console.error`). It has no effect the model could state.
- The MongoDB client: connecting, `listCollections`, the aggregation pipeline, and `deleteMany`/`insertMany`. The database is a map from collection names to document lists. The aggregation is its per-field ObjectId-to-text rule.
- `removeID` and the provider classes: their code is not part of this model. `removeID` is a function parameter, and provider calls are recorded in a trace.
- `JSON.parse`, `JSON.stringify`, `file.buffer.toString()` and the check for headings (`hasToc`) are parameters. Parsing yields an optional value.
- HTTP (`axios`, `fetch`) is a parameter that returns a reply or an error. Timeouts are not modelled. Where only the outcome matters, a flag says whether the call resolves: `loadOk` for `getWalineConfig` in `WalineForm.Form.Load`, `updateOk` for `updateWalineConfig` in `WalineForm.Form.OnFinish`, and `uploadOk` for `staticProvider.upload` in `InitController.Controller.UploadImg`.
- `makeSalt`, `global.jwtSecret`, `process.env`, `NODE_ENV` and the database address are inputs of `loadEnv`.
- React rendering and DOM work: hooks, JSX, the router, `localStorage`, `Modal`/`message` (recorded only as texts shown), and the window width (a parameter). `renderItem`'s markup is reduced to the choice between an external link and an internal one (`NavBarMobile.RenderItem`).
- Concurrency: overlapping `restart` calls and React state updates that interleave are modelled as sequential calls. `InitController.Controller.BeginInit`/`FinishInit` split the await so that a second request can come in between.
- WalineEnv.EnvValue and Js.ToJsString: numbers are integers (`Js.JNum`), so fractions, NaN, ±Infinity and the exponent form that `String(n)` gives from `1e21` on are not modelled; a fractional `ipqps` is not either.
- Restore.RestoreBackup: its contract is the run in which every provider call resolves. Nothing in `restoreBackup` catches a rejection, so a failing call ends the restore after a prefix of the calls; that run is `Restore.RestoreAttempt`, with `Restore.RestoreAttemptPrefix` stating what has been done.
- Lengths count Unicode characters, not UTF-16 code units, so the 50- and 120-character limits count characters.
- `split(...)[0]` in the excerpt is modelled through the first index of the tag. It gives the same text.
- WalineForm.ToNumber: covers numbers, booleans, null, undefined and decimal digit strings; other strings give NaN. NaN is written as `null` in the submitted JSON, as `JSON.stringify` does.
- WalineForm.CustomVariables: the parser receives the `otherConfig` value, including its conversion to text.
- Akismet: the documentation says `akismet.enabled=false` disables Akismet whatever the key. The code is order dependent: a later `akismet.key` entry overwrites the `'false'`. The model follows the code (`WalineEnv.AkismetKeyAfterOptOut`).
- In `restoreByBackup` the `isRestoring` flag stays set after any exception before rendering. The model keeps this behaviour and states it (`InitController.StuckRestore`).
- WalineForm.Form.constructor: the interval starts as `undefined` in the source and as NaN in the model. It is only read after `request` has set it.
- In `restoreByBackup`, visits and viewers are imported whenever the cleaned-up value is truthy, so an empty list is imported too (`InitController.LegacyImportsEmptyVisits`).
- The text of the `TypeError` thrown when `trim` is called on a value that is not a string depends on the JavaScript engine; the model uses one fixed text.
- A menu value that is not a string is treated as an internal link. The source would throw on `includes` for null, undefined, numbers, booleans and plain objects; an array is tested with `Array.prototype.includes`, so an array holding `"http"` would be an external link.
- Menu entries without `children` have `children == []`.
- The `catListMax` measuring, `IntersectionObserver`, drag and wheel handling on the home page are not modelled.
- The export and import of backups in `backup.controller.ts` is file handling; only its snapshot shape is used (`Restore.Snapshot`).

## Findings

| source | as written | input that shows it | evidently intended | confidence | as-written member | corrected member |
|---|---|---|---|---|---|---|
| packages/server/src/provider/waline/waline.provider.ts:151-154 | The exit handler of every child sets `this.ctx = null`, whichever child exited | A `restart`: stop child 1 and spawn child 2, then child 1's exit event comes in. The handle is then null while child 2 runs, and the next restart spawns child 3 beside child 2 | Clear the handle only when the exiting child is the one it names | low, not executed | WalineSupervisor.LateExitStartsSecondServer | WalineSupervisor.WalineProvider.OnExit |
