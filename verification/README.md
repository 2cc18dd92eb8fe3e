# Gauge host of the FS2024 display emulator, in Dafny

This project models the plugin host of the display emulator: the part that
loads an MSFS gauge shared library, resolves its five `<name>_gauge_*`
callbacks, caches it by name, tears it down again, watches the library file
for a one-shot hot reload, bridges each frame's viewport, graphics state and
cursor into the plugin's draw and mouse callbacks, and exposes the
host-variable ABI and the NanoVG user-pointer table the plugins call.

Everything outside the process is a parameter:

- `GaugeLoader.Env` holds `dlopen`, `dlsym`, `std::filesystem::exists` and the
  mount-descriptor parser as total functions returning `Option` or a pointer.
- Each call the registry makes into a library is appended to the registry's
  effect `trace`: `Opened`, `Closed`, `InitCalled`, `KillCalled`,
  `WatcherStarted` and `UpdateQueued`. "The handle is closed" and "init is
  called once" are statements about that trace.
- The watcher's `last_write_time` readings are a sequence of `Poll` values.
- The plugin's draw callback is any function from graphics state to
  graphics state.
- The host-variable table is three functions over an abstract table state.

Modules, one per component:

| module | file | models |
|---|---|---|
| `Wrappers` | wrappers.dfy | `std::optional`, `std::expected`, thrown exceptions |
| `FileDialog` | file_dialog.dfy | `GetFileName`, `GetJsonFilePath` |
| `FsVars` | fs_vars.dfy | the `fsVars*` host-variable ABI |
| `Emulator` | emulator.dfy | `nvgCreateInternal`, `getUserPtr` |
| `GaugeWatcher` | gauge_watcher.dfy | the decision loop of `start_gauge_watcher` |
| `GaugeLoader` | gauge_loader.dfy | the registry: load, cache, unload, reload, singleton |
| `GaugeRegistryInvariants` | gauge_loader.dfy | the registry invariant over any sequence of calls |
| `InstrumentRenderer` | instrument_renderer.dfy | `RenderContents`, `CreateImGuiWindow`, shared panel geometry |

Behaviours of the code that the model keeps as written:

- `UnloadGauge` ignores its argument. It tears down the `"MFD"` entry and
  clears every gauge and renderer.
- `UnloadAllGauges` stops at the first error.
- A duplicate name is answered from the cache.
- The return value of `init` is ignored.
- Graphics state: the viewport and the scissor flag are restored.
  Blending, face culling and depth testing are left as the plugin left them.
- A scissor test that was off before the frame and that the plugin turned
  on stays on.
- The reload thread unloads every gauge and only raises the update-queued
  flag. It does not reload.

`m_Gauges.at("MFD")` throws `std::out_of_range` when the map is non-empty but
has no `"MFD"` key. The model returns this as the error `OutOfRange`. Inside
`reload_gauge` the exception escapes a detached thread and ends the process.
`ReloadGauge` reports that case as a failure. In a sequence of calls
(`GaugeRegistryInvariants.Run`) such a failure is over-approximated: the
registry stays as it was and later calls still run, although the real
process has ended.

`ParseJson`, the `mount_params` field and `SetUpdateQueued` are not declared
in the header the registry comes from. The model adds a
`MountParams(width, height)` field to `Gauge`, as `CreateImGuiWindow` reads
it, and an `updateQueued` flag to the registry state, as `reload_gauge`
(GaugeLoader.cpp:33) sets it.

## Model

| member | source | states |
|---|---|---|
| FileDialog.LastSeparator | src/FileDialog/FileDialog.hpp:41 | the index returned holds a '/' and no '/' follows it; none means the path has no '/' |
| FileDialog.Find | src/FileDialog/FileDialog.hpp:44 | the index returned is where the pattern occurs first; none means it occurs nowhere |
| FileDialog.BaseName | src/FileDialog/FileDialog.hpp:41-42 | the base name is a suffix of the path, has no '/', and is preceded by a '/' whenever it is shorter than the path |
| FileDialog.GetFileNameSpec | src/FileDialog/FileDialog.hpp:40-47 | the contract of `GetFileName`: the result has no '/' and no ".so", is a prefix of the base name, and is either the whole base name or is followed in it by the first ".so" |
| FileDialog.PlainNameUnchanged | src/FileDialog/FileDialog.hpp:40-47 | a name with no '/' and no ".so" in it is its own file name |
| FileDialog.GetFileNameIdempotent | src/FileDialog/FileDialog.hpp:40-47 | taking the file name of a file name changes nothing |
| FileDialog.ParentPath | src/FileDialog/FileDialog.hpp:50-51 | the parent is the text before the last '/' (a prefix followed by a '/' with no '/' after it), and "" when the path has no '/' |
| FileDialog.JoinSplits | src/FileDialog/FileDialog.hpp:51 | joining a directory and a '/'-free name is undone by ParentPath and BaseName |
| FileDialog.JsonSiblingPathShape | src/FileDialog/FileDialog.hpp:50-51 | the contract of `JsonSiblingPath`: the descriptor path ends in ".json", has the library's parent directory, and is named GetFileName(path) + ".json" |
| FileDialog.DescriptorJoin | src/FileDialog/FileDialog.hpp:51 | a '/'-free stem plus ".json" joined to a directory ends in ".json" and splits back into that directory and name |
| FileDialog.GetJsonFilePath | src/FileDialog/FileDialog.hpp:49-57 | a path is returned exactly when the sibling descriptor exists, and that path is the sibling, ending in ".json" |
| FsVars.GetUnitId | src/FsShims/FsVars.cpp:13-16 | every unit name gets unit id 1 |
| FsVars.GetAircraftVarId | src/FsShims/FsVars.cpp:17-20 | the id and table are those of registering the name with initial value 0 |
| FsVars.AircraftVarGet | src/FsShims/FsVars.cpp:22-26 | only result[0] changes, and it becomes the table's value for the id |
| FsVars.AircraftVarSet | src/FsShims/FsVars.cpp:27-30 | the value goes to the table unchanged, under the given id |
| FsVars.UnitAndParamIgnored | src/FsShims/FsVars.cpp:22-30 | the unit and parameter arguments never change a read or a write |
| FsVars.SetThenGet | src/FsShims/FsVars.cpp:22-30 | over a table that reads back its writes, a set through the ABI is seen by the next get |
| FsVars.RegisteredVariableReadsZero | src/FsShims/FsVars.cpp:17-26 | over a table that reads back registrations, a newly obtained variable reads 0 |
| Emulator.CreateInternal | include/Emulator.h:12-18 | a non-null context is mapped to the user pointer, overwriting, and nothing else changes; a null one leaves the map alone; the context is returned |
| Emulator.GetUserPtr | include/Emulator.h:19-25 | a registered context yields its pointer, an unknown one null |
| Emulator.CreateThenLookup | include/Emulator.h:12-25 | looking up a just-created context gives its user pointer, and a failed creation looks up as null |
| Emulator.LaterRegistrationWins | include/Emulator.h:14-16 | registering the same context twice keeps the later pointer |
| Emulator.OtherContextsUnaffected | include/Emulator.h:12-25 | creating one context never changes another context's lookup |
| GaugeWatcher.InitialStamp | src/GaugeLoader/GaugeLoader.cpp:43-44 | the starting stamp is the first reading, or the minimum time when that reading failed |
| GaugeWatcher.FirstChange | src/GaugeLoader/GaugeLoader.cpp:46-61 | the reload fires at the first successful poll whose stamp differs from the initial one; none while no such poll exists |
| GaugeWatcher.Watch | src/GaugeLoader/GaugeLoader.cpp:46-61 | the loop skips failed polls, stops at the first change and reports it, and runs on while every poll failed or saw the initial stamp |
| GaugeWatcher.FirstChangeExtends | src/GaugeLoader/GaugeLoader.cpp:54-59 | once fired the decision never moves; before that it depends only on later polls (one shot) |
| GaugeWatcher.FailedFirstReadFiresAtFirstSuccess | src/GaugeLoader/GaugeLoader.cpp:43-54 | when the first read failed, the watcher fires at the first successful poll that does not itself report the minimum time |
| GaugeWatcher.NoChangeNoReload | src/GaugeLoader/GaugeLoader.cpp:50-54 | no reload fires while every poll fails or sees the initial stamp |
| GaugeLoader.ResolveGauge | src/GaugeLoader/GaugeLoader.cpp:85-93 | the five callbacks are exactly dlsym of name + "_gauge_init", "_draw", "_kill", "_update", "_mouse_handler" |
| GaugeLoader.LoadGauge | src/GaugeLoader/GaugeLoader.cpp:66-115 | a failure closes the opened handle and changes nothing else, and its error names the cause: library not opened, descriptor missing, descriptor unparsable, or a symbol unresolved; a success appends one renderer, calls init once with base_ctx, returns that id, increments base_ctx and starts one watcher |
| GaugeLoader.AllResolvedIffSymbolsResolve | src/GaugeLoader/GaugeLoader.cpp:96 | all five callbacks are non-null exactly when every ABI symbol of the name resolves |
| GaugeLoader.LoadSucceedsIffLoadable | src/GaugeLoader/GaugeLoader.cpp:68-99 | a load succeeds exactly when the library opens, its descriptor exists and parses, and all five symbols resolve |
| GaugeLoader.GetOrLoadGauge | src/GaugeLoader/GaugeLoader.cpp:117-128 | a cached name is returned with nothing touched; otherwise the outcome is LoadGauge's, the entry LoadGauge returned is stored under the name on success, and a failure leaves the state LoadGauge left (map, renderers and base_ctx unchanged) |
| GaugeLoader.UnloadGauge | src/GaugeLoader/GaugeLoader.cpp:134-149 | an empty map gives an error and no change; otherwise "MFD" is killed if it has a kill callback, its handle is closed, and map and renderers are emptied; no "MFD" entry throws |
| GaugeLoader.UnloadAllGauges | src/GaugeLoader/GaugeLoader.cpp:151-159 | an empty registry is left alone with success; a non-empty one gets exactly the outcome of UnloadGauge("MFD"): the "MFD" teardown and empty containers, or `out_of_range` with nothing changed when "MFD" is missing |
| GaugeLoader.ReloadGauge | src/GaugeLoader/GaugeLoader.cpp:25-38 | a reload is UnloadAllGauges followed by raising the update-queued flag: "MFD" is killed and closed, gauges and renderers are cleared, base_ctx is kept; it fails exactly when the unload throws |
| GaugeLoader.OnWatcherPolls | src/GaugeLoader/GaugeLoader.cpp:43-59 | starting from the first read (the minimum time if it failed), the registry is untouched until the watcher fires, and is reloaded once it does |
| GaugeLoader.FailedFirstReadReloads | src/GaugeLoader/GaugeLoader.cpp:43-59 | a watcher whose first read failed reloads the registry at its first successful poll |
| GaugeLoader.GetInstance | src/GaugeLoader/GaugeLoader.hpp:33-38 | the first call creates the empty registry and later calls return the held one |
| GaugeRegistryInvariants.GetInstanceStable | src/GaugeLoader/GaugeLoader.hpp:33-38 | asking for the instance again returns the same instance |
| GaugeRegistryInvariants.RendererKeepsFields | src/GaugeLoader/GaugeLoader.hpp:73-81 | a renderer keeps its title, id and gauge, and GetTitle returns the title |
| GaugeRegistryInvariants.InitialIsValid | src/GaugeLoader/GaugeLoader.cpp:22 | the registry as constructed (no gauges, no renderers, base_ctx 1, nothing called) satisfies the invariant |
| GaugeRegistryInvariants.InitCtxsAppend | src/GaugeLoader/GaugeLoader.cpp:105 | the init ids of a joined trace are the ids of each part, in order |
| GaugeRegistryInvariants.FailedLoadIssuesNoId | src/GaugeLoader/GaugeLoader.cpp:76-98 | a failed load issues no context id |
| GaugeRegistryInvariants.LoadIssuesOneId | src/GaugeLoader/GaugeLoader.cpp:101-112 | a successful load issues exactly one context id |
| GaugeRegistryInvariants.FreshLoadShape | src/GaugeLoader/GaugeLoader.cpp:119-127 | a fresh successful lookup stores the gauge under its name with id base_ctx and appends its renderer |
| GaugeRegistryInvariants.WithEntryPreservesValid | src/GaugeLoader/GaugeLoader.cpp:101-126 | registering a fully resolved gauge under a new name keeps the registry invariant |
| GaugeRegistryInvariants.GetOrLoadPreservesValid | src/GaugeLoader/GaugeLoader.cpp:117-128 | a lookup keeps the invariant, and a fresh id is above every id issued before |
| GaugeRegistryInvariants.FailedLookupPreservesValid | src/GaugeLoader/GaugeLoader.cpp:117-128 | a failed lookup keeps the invariant and base_ctx, since it issues no id |
| GaugeRegistryInvariants.FreshLookupPreservesValid | src/GaugeLoader/GaugeLoader.cpp:117-128 | a fresh successful lookup keeps the invariant, moves base_ctx on by one, and hands out an id above every earlier one |
| GaugeRegistryInvariants.UnloadGaugePreservesValid | src/GaugeLoader/GaugeLoader.cpp:134-149 | unloading keeps the invariant and base_ctx, so ids are not reused after an unload |
| GaugeRegistryInvariants.UnloadAllPreservesValid | src/GaugeLoader/GaugeLoader.cpp:151-159 | unloading all keeps the invariant and base_ctx |
| GaugeRegistryInvariants.ReloadPreservesValid | src/GaugeLoader/GaugeLoader.cpp:25-38 | a reload keeps the invariant and base_ctx |
| GaugeRegistryInvariants.ApplyPreservesValid | src/GaugeLoader/GaugeLoader.cpp:22 | each single call of the registry keeps the invariant and never lowers the next context id |
| GaugeRegistryInvariants.RunPreservesValid | src/GaugeLoader/GaugeLoader.cpp:22 | after any sequence of calls, each against its own outside world (libraries and descriptors may change between calls), init has seen ids 1, 2, 3, ... with no gap or reuse, and only fully resolved gauges are visible |
| GaugeRegistryInvariants.IdsStrictlyIncreasing | src/GaugeLoader/GaugeLoader.cpp:22 | in a valid registry the ids passed to init strictly increase and lie in [1, base_ctx) |
| GaugeRegistryInvariants.SnapshotsAgree | src/GaugeLoader/GaugeLoader.hpp:40-45 | the two snapshots agree: each renderer is the gauge stored under its title, renderers come in load order, and every gauge has a renderer |
| GaugeRegistryInvariants.UnloadGaugeIgnoresName | src/GaugeLoader/GaugeLoader.cpp:134-149 | on a non-empty registry, UnloadGauge does the same whatever name it gets |
| GaugeRegistryInvariants.UnloadGaugeSkipsOtherTeardown | src/GaugeLoader/GaugeLoader.cpp:139-146 | entries other than "MFD" leave the map without kill and without dlclose |
| InstrumentRenderer.PanelViewport | src/GaugeLoader/GaugeLoader.cpp:180 | the viewport has the panel's x, width and height, and its top edge is display height minus panel y |
| InstrumentRenderer.FrameData | src/GaugeLoader/GaugeLoader.cpp:182-189 | the cursor is panel-local, dt is 0, and window and framebuffer sizes both equal the panel size |
| InstrumentRenderer.RenderContents | src/GaugeLoader/GaugeLoader.cpp:161-196 | the viewport ends on the full framebuffer; draw is called exactly when both panel sizes are positive, with the panel viewport, scissor and depth off, blend and cull on; afterwards scissor is on if it was on, and blend, cull and depth are what draw left |
| InstrumentRenderer.ScissorAndViewportRestored | src/GaugeLoader/GaugeLoader.cpp:170-194 | an enabled scissor test survives the frame and the viewport ends on the full framebuffer, whatever the plugin does |
| InstrumentRenderer.ViewportIsFlippedPanel | src/GaugeLoader/GaugeLoader.cpp:180 | panel row py maps to framebuffer row dh - 1 - py, and exactly the panel's rows land in the viewport |
| InstrumentRenderer.NatToStringRoundTrip | src/GaugeLoader/GaugeLoader.cpp:201-202 | reading back the decimal text of a natural number gives the number |
| InstrumentRenderer.IntToString | src/GaugeLoader/GaugeLoader.cpp:201-202 | `std::to_string` of an int is non-empty and holds neither 'x' nor a space, so it cannot be confused with the title's separators |
| InstrumentRenderer.NegativeRoundTrip | src/GaugeLoader/GaugeLoader.cpp:201-202 | "-" followed by the decimal text of n reads back as -n |
| InstrumentRenderer.NonNegativeRoundTrip | src/GaugeLoader/GaugeLoader.cpp:201-202 | the decimal text of a natural number reads back through the signed parser as that number |
| InstrumentRenderer.IntToStringRoundTrip | src/GaugeLoader/GaugeLoader.cpp:201-202 | reading back std::to_string of an int gives the int |
| InstrumentRenderer.PrintedSizeParses | src/GaugeLoader/GaugeLoader.cpp:201-202 | a size printed as width, 'x', height with `std::to_string` reads back as that width and height |
| InstrumentRenderer.WindowTitleEncodesSize | src/GaugeLoader/GaugeLoader.cpp:201-202 | the contract of `WindowTitle`: the title is the renderer title, a space, and a size text from which width and height read back |
| InstrumentRenderer.CreateImGuiWindow | src/GaugeLoader/GaugeLoader.cpp:198-221 | the window is sized and titled by the mount size; the shared panel is overwritten with the content area; a click calls mouse_handler with the panel-local cursor and flags 0 |
| InstrumentRenderer.ClickMatchesDrawCursor | src/GaugeLoader/GaugeLoader.cpp:182-183 | the click and the draw data report the same panel-local cursor |
| InstrumentRenderer.LastWindowWins | src/GaugeLoader/GaugeLoader.cpp:208-209 | after every window has laid out, the shared panel is the last window's |
| InstrumentRenderer.SharedPanelSharedViewport | src/GaugeLoader/GaugeLoader.hpp:85-87 | two renderers drawn against the shared panel get the same viewport, whatever their gauge sizes |

## Left out

- Real `dlopen`, `dlsym`, `dlclose`, the JSON reader and `ParseJson`, `std::filesystem::exists` and `last_write_time` are oracle parameters. `dlerror()` text is not carried in the error values.
- Threads, `sleep_for`, `detach`, and the 500 ms and 100 ms delays are not modelled. Only the sequential decision logic is. Calling `UnloadAllGauges` from the reload thread races with the render thread; the model runs it in sequence.
- UnloadAllGauges: only the outcome after the first loop iteration is modelled. That iteration empties the map being iterated, and what the loop does next is undefined behaviour.
- The missing `return` statements in `fsVarsAircraftVarGet` and `fsVarsAircraftVarSet` are undefined behaviour, so status codes are not modelled.
- FsVars.AircraftVarGet: requires a buffer of at least one element, because the source writes `result[0]` without a null check.
- The variable table behind `AddVariable`, `GetVariable` and `UpdateVariable` is not declared in the sources, so it stays abstract. The unused `s_Vars` map is ignored.
- Floating point: panel, cursor and viewport coordinates are integers. The float-to-int casts of the panel size and position become the identity, and the cursor is not widened from `float` to `double`. The frame time is passed through as a `real`.
- Graphics calls beyond viewport, scissor, blend, cull-face and depth-test are left out, including `glBlendFunc`'s factors and `glfwGetFramebufferSize`. The framebuffer size is a parameter.
- `ImGui::Begin`, `End`, the style color push and pop, and `InvisibleButton` are UI effects. The click is a parameter.
- FileDialog.ParentPath: the root and trailing-separator cases of `std::filesystem::path` are not modelled. The parent is the text before the last '/'. For "/lib.so" the model gives "" where `std::filesystem` gives "/".
- GaugeRegistryInvariants.RunPreservesValid: context ids are unbounded naturals, while `base_ctx` is an `unsigned long long` that wraps at 2^64. "Never reused" therefore holds only for fewer than 2^64 - 1 loads; the same applies to `IdsStrictlyIncreasing`.
- File time stamps are integers; the minimum time a failed `last_write_time` returns is the smallest 64-bit tick count.
- `base_ctx` is a file-level static and not a member of the singleton. The model keeps it in the registry state, starting at 1. There is only one registry, so nothing observable changes.
- `GetAllGauges` and `GetAllRenderers` are plain copies. Their contract is `SnapshotsAgree`.
- `GetFromMap` is the map lookup inside `GetOrLoadGauge`.
- The update callback and `sGaugeInstallData` are never called or filled by the host, so they appear only as a resolved symbol.
- `src/Application`, `src/main.cpp`, `FileDialog::OpenFileDialog`, `ShowFileDialogButton` and `src/InstrumentRenderer` are windowing and UI glue outside the plugin host.
