# Transformer timeline: a Dafny model

This is a model of the TypeScript Playground plugin "transformer timeline".
The plugin shows what each stage of the TypeScript compiler's transformer
pipeline does to the current file. A web worker does three things:

- It names the script transformers the compiler runs for the given settings.
  This is the *stage-name catalog*. The declaration channel's catalog is the
  constant `["DTS"]`.
- It replays the emitter once per stage. Run `index` gets the first `index + 1`
  transformers of one channel and the other channel's full list.
- It captures the files the emitter writes whose name ends in `.js`
  (respectively `.d.ts`). Each capture is tagged with `index`.

The plugin page then draws the results:

- one file tab per channel;
- one stage tab per capture, labelled with the catalog name at the capture's
  index;
- a stage tab is disabled when its text equals the previous capture's;
- hovering a stage shows its text, coloured as JavaScript when the file name
  ends in "js".

Modules:

- `Wrappers` (`wrappers.dfy`): `Option`, where `None` stands for `undefined`.
- `Catalog` (`catalog.dfy`): the enum values the catalog reads, the catalog as
  a specification function `ScriptCatalog`, and the imperative
  `ScriptTransformerNames`, which builds it by conditional pushes as the
  source does and is proved equal to it. The ordering, membership and
  uniqueness lemmas are about `ScriptCatalog`.
- `Replay` (`replay.dfy`): the opaque compiler. Transformers are values of a
  type parameter and the emitter is an arbitrary function from a transformer
  set to the writes it makes. The two replay loops are one loop method,
  `ReplayChannel`, proved equal to the specification function `FullTrace`:
  one batch of captures per iteration, laid end to end.
  `Transform` assembles the worker's reply.
- `StageTabs` (`stagetabs.dfy`): the stage-tab loop of the plugin page, the
  active flag, the label lookup, the language choice, file-tab selection,
  and the message listener's guard.

Enum values are TypeScript's numeric values:

- `ScriptTarget`: ES3 0, ES5 1, ES2015 2 … ES2020 7, ESNext 99.
- `ModuleKind`: None 0, CommonJS 1, AMD 2, UMD 3, System 4, ES2015 5,
  ES2020 6, ESNext 99.
- `JsxEmit`: React 2.

The target and module kind are taken already normalised, as
`getEmitScriptTarget` and `getEmitModuleKind` return them. `jsx` is an
`Option<int>` because it may be unset.

### The "ES5" stage

Only an ES3 target gets the "ES5" stage. The test at
`src/transformers.worker.ts:227` is a strict `<`, so an ES5 target does not get
it (`Catalog.Es5StageLast`, `Catalog.Es5CommonJsCatalog`).

## Model

| member | source | states |
|---|---|---|
| Catalog.ModuleTransformer | src/transformers.worker.ts:234-245 | the module stage is one of three names: "ES Module" iff the kind is ESNext, ES2020 or ES2015; "System" iff the kind is System; "CommonJs/AMD/UMD" for every other value, unrecognised ones included |
| Catalog.ScriptTransformerNames | src/transformers.worker.ts:180-232 | the list built by the conditional pushes equals the catalog `ScriptCatalog` that the lemmas below describe |
| Catalog.TierPushesFollowTable | src/transformers.worker.ts:194-221 | the six tier pushes produce exactly the tiers of the table ESNext … ES2016 whose target exceeds the language version, followed by the legacy pair |
| Catalog.ModuleStageLayout | src/transformers.worker.ts:223-229 | the module stage sits right after every earlier stage, and only the optional "ES5" follows it |
| Catalog.CatalogMembership | src/transformers.worker.ts:185-231 | a name is in the catalog iff it is one of the pushes whose condition holds for these settings |
| Catalog.GapStagesArePrefix | src/transformers.worker.ts:194-216 | over a table in descending target order, the tiers pushed form a prefix of the table, and tier `i` is pushed iff the version is below its target |
| Catalog.VersionTiersDescending | src/transformers.worker.ts:194-216 | the tier tests come in strictly descending target order: ESNext, ES2020, ES2019, ES2018, ES2017, ES2016 |
| Catalog.CatalogNamesDistinct | src/transformers.worker.ts:185-231 | no stage name appears twice in a catalog |
| Catalog.CatalogBeginsWithTsAndClassFields | src/transformers.worker.ts:187-188 | the catalog starts with "TS" and then "Class Fields", and neither appears again |
| Catalog.JsxStageIffReact | src/transformers.worker.ts:190-192 | "JSX" appears iff `jsx` is React, and then it comes right after "Class Fields" |
| Catalog.TierStagesInDescendingOrder | src/transformers.worker.ts:194-216 | the tier stages form one contiguous block after the prologue, in descending order, holding exactly the tiers above the language version |
| Catalog.TierStageIffBelow | src/transformers.worker.ts:194-216 | each tier name is in the catalog iff the language version is below that tier |
| Catalog.Es2015AndGeneratorsTogether | src/transformers.worker.ts:218-221 | "ES2015" and "Generators" each appear iff the version is below ES2015, and then they are adjacent and in that order |
| Catalog.ExactlyOneModuleStage | src/transformers.worker.ts:223-245 | exactly one module-stage name appears, it is the one `getModuleTransformer` gives, and every tier stage comes before it |
| Catalog.Es5StageLast | src/transformers.worker.ts:225-231 | "ES5" appears iff the version is below ES5, and then it is the last stage, right after the module stage; otherwise the module stage is last |
| Catalog.NewestTargetCatalog | src/transformers.worker.ts:180-232 | a target of ESNext or newer yields exactly TS, Class Fields, the optional JSX and the module stage |
| Catalog.Es3TargetCatalog | src/transformers.worker.ts:180-232 | an ES3 target yields every stage: TS, Class Fields, optional JSX, all six tiers, ES2015, Generators, the module stage and ES5 |
| Catalog.Es5CommonJsCatalog | src/transformers.worker.ts:227-229 | an ES5 target with CommonJS and no JSX gets no "ES5" stage |
| Replay.StageTransformers | src/transformers.worker.ts:63-79 | iteration `index` gets exactly the first `index + 1` transformers of the replayed list and the other list unchanged |
| Replay.StageTransformersGrow | src/transformers.worker.ts:63 | each iteration's list is the previous one plus the next transformer, and the other list stays the same |
| Replay.LastStageRunsEverything | src/transformers.worker.ts:96 | the last iteration runs the compiler's full transformer lists |
| Replay.SinkFilters | src/transformers.worker.ts:65-73 | the sink keeps a write iff its name ends in the suffix, tags it with the iteration's index, and makes up no file |
| Replay.ReplayChannel | src/transformers.worker.ts:62-91 | the replay loop's output list is the trace: every iteration's kept files appended in iteration order, and nothing else |
| Replay.Transform | src/transformers.worker.ts:51-127 | the reply holds the script catalog, `["DTS"]`, and the script and declaration replays |
| Replay.TraceCapturesWellFormed | src/transformers.worker.ts:98-106 | every capture of a replay has the channel's suffix and the index of an iteration that ran |
| Replay.TraceExtends | src/transformers.worker.ts:95-106 | later iterations only append: the trace after `j` iterations is a prefix of the trace after `k >= j` |
| Replay.TraceIndicesNonDecreasing | src/transformers.worker.ts:62-73 | capture indices never decrease along a replay |
| Replay.TraceAtStage | src/transformers.worker.ts:62-73 | the captures tagged `index` are exactly what the sink kept from the emitter's writes in iteration `index` |
| Replay.WriteFileCalls | src/transformers.worker.ts:65-73 | calling the sink once per emitted write appends exactly what the sink keeps of those writes, in write order, to the output list |
| Replay.TraceStep | src/transformers.worker.ts:62-91 | one more iteration of the replay appends what that iteration's sink kept and changes nothing before it |
| Replay.OneCapturePerStage | src/transformers.worker.ts:62-91 | when each iteration writes one file with the suffix, there is one capture per transformer, the `i`-th from iteration `i` |
| StageTabs.Label | src/index.ts:76 | the label is defined iff the index is within the catalog, and then it is the catalog name at that index |
| StageTabs.Language | src/index.ts:84 | the colouring language is "javascript" iff the file name ends in "js", otherwise "typescript" |
| StageTabs.BuildStageTabs | src/index.ts:73-92 | one tab per capture, in order; tab `j` carries capture `j`'s label and is disabled iff `j > 0` and its text equals capture `j - 1`'s |
| StageTabs.SelectChannel | src/index.ts:58-93 | clicking file tab `i` makes it the active file, replaces the stage tabs with that channel's, and hovers the first stage when there is one |
| StageTabs.Render | src/index.ts:56-97 | rendering clicks the JavaScript tab, so its stages are shown and its first stage is hovered; with no stages the code view stays empty, with no language |
| StageTabs.EveryTextHasActiveTab | src/index.ts:74-77 | disabling loses no text: each capture's text belongs to the run that starts at an active tab at or before it |
| StageTabs.DisabledTabRepeatsPrevious | src/index.ts:77 | a disabled tab is never the first and repeats the previous tab's text |
| StageTabs.LanguageOfSuffix | src/index.ts:84 | a ".js" file is coloured as JavaScript and a ".d.ts" file as TypeScript |
| StageTabs.ChannelLanguages | src/index.ts:84 | every script-channel capture is coloured as JavaScript and every declaration capture as TypeScript |
| StageTabs.LabelsDefined | src/index.ts:76 | when the compiler's list for a channel is no longer than its catalog, every capture of that channel gets a defined label |
| StageTabs.TabsFollowEmittedTexts | src/index.ts:73-77 | when each iteration writes one file, tab `j` is labelled with catalog name `j` and is disabled iff iteration `j`'s text equals iteration `j - 1`'s |
| StageTabs.AsWrittenGuardRejectsResults | src/index.ts:45 | the listener's guard as written, which reads `actions`, turns away the worker's own "results" reply |
| StageTabs.GuardAcceptsOnlyResults | src/transformers.worker.ts:127 | the guard reading `action` accepts the "results" reply and turns away the "ready" message |
| StageTabs.OnMessage | src/index.ts:42-98 | a message is rendered iff it is tagged "results", and then the JavaScript file tab is active with one stage tab per script capture |

## Left out

- Worker transport is left out because it moves messages and computes nothing: `self.onmessage`, `importScripts`, `postMessage` (`src/transformers.worker.ts:6-20`, `127`). The `"start"` case has no `break` and falls through into `"transform"`; that fall-through is not modelled.
- The CDN fetch of the default library map (`src/transformers.worker.ts:31`) is network I/O and is left out. So are the virtual file system and the compiler host (`:34-35`), which are foreign library calls.
- The compiler is not modelled: `ts.createProgram`, the checker and emit resolver (`:37-48`), `ts.getTransformers` (`:58`) and `ts.emitFiles` (`:82`, `:115`). The transformer lists are a parameter and `emitFiles` is the parameter `emit`.
- Line 58 calls `ts.getTransformers(options, [], false)`, but no `options` is in scope there: the only binding of that name is `createEmitHost`'s parameter (`src/transformers.worker.ts:136`), and a worker's global scope has none. As written, the call throws a `ReferenceError` before the compiler sees any value, so neither replay loop runs and no "results" reply is posted (not executed). `Replay.Transform` models the evidently intended call, with `compilerOptions` (`:26`): it takes the lists that call returns as its input.
- Replay.Transform: the emitter `emit` is a function of the transformer set alone. It is assumed to keep no state between calls, although every `emitFiles` call shares one `emitResolver` (`:48`), and never to throw, although an exception from `emitFiles` would end the job with no reply.
- Nothing relates the catalog to the compiler's actual transformer list. Labels are proved defined only under the hypothesis that the list is no longer than the catalog (`StageTabs.LabelsDefined`).
- `getEmitScriptTarget` and `getEmitModuleKind` (`:183-184`) are foreign. The model takes their results as inputs.
- `createEmitHost` (`:135-169`) and `neverCancel` (`:171-176`) are constant stubs over compiler types. They are left out.
- The plugin page's widgets, DOM, CSS classes, the intro text and the plugin lifecycle (`src/index.ts:1-41`) are UI and are left out.
- Monaco's `colorize` is an asynchronous foreign call. The model records the text and the language it is called with, not the coloured HTML.
- StageTabs.Render: hovering a stage later, which redraws the preview, is not modelled; only the initial hover of the first stage is.
- StageTabs.OnMessage uses the corrected guard (see Findings). Its contract states the panel's shape, not the full tab contents; `Render` states those.
- Failure handling, readiness gating and one-job-at-a-time are not modelled: the code has none of them.

## Findings

| source | as written | input that shows it | evidently intended | confidence | as-written member | corrected member |
|---|---|---|---|---|---|---|
| src/index.ts:45 | the listener returns unless `msg.data.actions` is "results" | the worker's reply `{action: "results", …}` from src/transformers.worker.ts:127 has no `actions` field, so it is turned away and no tabs are ever drawn | test `msg.data.action`, the field the worker sets | high; not executed | StageTabs.AsWrittenGuardRejectsResults | StageTabs.GuardAcceptsOnlyResults |
