/** The gauge registry (`GaugeLoader`): loading a gauge library, resolving
    its five callbacks, caching it by name, and tearing gauges down. The
    dynamic loader, the file system and the JSON parser are the oracle
    record `Env`; every call the registry makes into a library or starts in
    the background is appended to the effect `trace` of its state. */
module GaugeLoader {
  import opened Wrappers
  import FileDialog
  import GaugeWatcher

  /** A `dlopen` handle. */
  type Handle = nat

  /** A resolved function pointer; `Null` is the null pointer. */
  type Symbol = nat

  const Null: Symbol := 0

  /** A gauge context id (`unsigned long long`). */
  type Ctx = nat

  /** The key that `UnloadGauge` always looks up, whatever it is asked. */
  const Mfd: string := "MFD"

  /** The symbol-name suffixes, in the order the fields of `Gauge` take them. */
  const InitSuffix: string := "_gauge_init"
  const DrawSuffix: string := "_gauge_draw"
  const KillSuffix: string := "_gauge_kill"
  const UpdateSuffix: string := "_gauge_update"
  const MouseHandlerSuffix: string := "_gauge_mouse_handler"

  /** Native size of a gauge, read from its JSON mount descriptor. */
  datatype MountParams = MountParams(width: int, height: int)

  /** A loaded gauge: its library handle, its five callbacks and its size. */
  datatype Gauge = Gauge(handle: Handle, init: Symbol, draw: Symbol, kill: Symbol,
                         update: Symbol, mouseHandler: Symbol, mountParams: MountParams)
  {
    predicate AllResolved() {
      init != Null && draw != Null && kill != Null && update != Null && mouseHandler != Null
    }
  }

  /** `InstrumentRenderer`: the window that shows one gauge. */
  datatype Renderer = Renderer(title: string, gaugeCtx: Ctx, gauge: Gauge)
  {
    function GetTitle(): string {
      title
    }
  }

  /** What the registry did outside its own state, in order. */
  datatype Effect =
    | Opened(path: string, handle: Handle)
    | Closed(handle: Handle)
    | InitCalled(fn: Symbol, ctx: Ctx)
    | KillCalled(fn: Symbol, ctx: Ctx)
    | WatcherStarted(path: string, name: string)
    | UpdateQueued

  /** The effects the registry depends on: `dlopen`, `dlsym`,
      `std::filesystem::exists` and the mount-descriptor parser. */
  datatype Env = Env(
    dlopen: string -> Option<Handle>,
    dlsym: (Handle, string) -> Symbol,
    fileExists: string -> bool,
    parseJson: string -> Option<MountParams>)

  /** The registry: gauges by name with their context ids, the renderers
      in the order they were created, the next context id (`base_ctx`), the
      update-queued flag, and the effect trace. */
  datatype Loader = Loader(gauges: map<string, (Ctx, Gauge)>, renderers: seq<Renderer>,
                           baseCtx: Ctx, updateQueued: bool, trace: seq<Effect>)

  /** The registry before anything is loaded; context ids start at 1. */
  const Initial: Loader := Loader(map[], [], 1, false, [])

  datatype LoadError =
    | LibraryOpenFailed
    | JsonNotFound(gaugeName: string)
    | JsonParseFailed(jsonPath: string)
    | SymbolsMissing

  /** `AlreadyUnloaded` is the error value `UnloadGauge` returns;
      `OutOfRange` is the `std::out_of_range` thrown by `m_Gauges.at("MFD")`. */
  datatype UnloadError = AlreadyUnloaded(gaugeName: string) | OutOfRange

  /** A registry operation's new state and result. */
  datatype Step<+T, +E> = Step(state: Loader, result: Result<T, E>)

  /** The five callbacks of gauge `name` as `dlsym` resolves them in `handle`. */
  function ResolveGauge(env: Env, handle: Handle, name: string, params: MountParams): (g: Gauge)
    ensures g.handle == handle && g.mountParams == params
    ensures g.init == env.dlsym(handle, name + "_gauge_init")
    ensures g.draw == env.dlsym(handle, name + "_gauge_draw")
    ensures g.kill == env.dlsym(handle, name + "_gauge_kill")
    ensures g.update == env.dlsym(handle, name + "_gauge_update")
    ensures g.mouseHandler == env.dlsym(handle, name + "_gauge_mouse_handler")
  {
    Gauge(handle,
          env.dlsym(handle, name + InitSuffix),
          env.dlsym(handle, name + DrawSuffix),
          env.dlsym(handle, name + KillSuffix),
          env.dlsym(handle, name + UpdateSuffix),
          env.dlsym(handle, name + MouseHandlerSuffix),
          params)
  }

  /** The five suffixes the gauge ABI requires. */
  const CallbackSuffixes: seq<string> := [InitSuffix, DrawSuffix, KillSuffix, UpdateSuffix, MouseHandlerSuffix]

  /** Every `<name><suffix>` symbol of the ABI resolves to a non-null pointer. */
  ghost predicate SymbolsResolve(env: Env, handle: Handle, name: string) {
    forall suffix :: suffix in CallbackSuffixes ==> env.dlsym(handle, name + suffix) != Null
  }

  /** Everything a load needs is in place: the library opens, its JSON
      descriptor exists and parses, and all five symbols resolve. */
  ghost predicate Loadable(env: Env, path: string, name: string) {
    && env.dlopen(path).Some?
    && env.fileExists(FileDialog.JsonSiblingPath(path))
    && env.parseJson(FileDialog.JsonSiblingPath(path)).Some?
    && SymbolsResolve(env, env.dlopen(path).value, name)
  }

  /** `GaugeLoader::LoadGauge`. All or nothing: on any failure the library
      handle (if one was opened) is closed and nothing else happens; on
      success one renderer is appended, `init` is called once with the
      current `base_ctx`, that id is returned, `base_ctx` moves on by one and
      one watcher is started. */
  function LoadGauge(s: Loader, env: Env, path: string, name: string): (r: Step<(Ctx, Gauge), LoadError>)
    ensures r.state.gauges == s.gauges && r.state.updateQueued == s.updateQueued
    ensures r.result.Failure? ==> r.state.renderers == s.renderers && r.state.baseCtx == s.baseCtx
    ensures r.result.Failure? && env.dlopen(path).None? ==> r.state == s && r.result.error == LibraryOpenFailed
    ensures r.result.Failure? && env.dlopen(path).Some? ==>
      r.state.trace == s.trace + [Opened(path, env.dlopen(path).value), Closed(env.dlopen(path).value)]
    ensures env.dlopen(path).Some? && !env.fileExists(FileDialog.JsonSiblingPath(path)) ==>
      r.result == Failure(JsonNotFound(name))
    ensures env.dlopen(path).Some? && env.fileExists(FileDialog.JsonSiblingPath(path))
            && env.parseJson(FileDialog.JsonSiblingPath(path)).None? ==>
      r.result == Failure(JsonParseFailed(FileDialog.JsonSiblingPath(path)))
    ensures env.dlopen(path).Some? && env.fileExists(FileDialog.JsonSiblingPath(path))
            && env.parseJson(FileDialog.JsonSiblingPath(path)).Some?
            && !ResolveGauge(env, env.dlopen(path).value, name,
                             env.parseJson(FileDialog.JsonSiblingPath(path)).value).AllResolved() ==>
      r.result == Failure(SymbolsMissing)
    ensures r.result.Success? ==>
      var ctx := r.result.value.0;
      var g := r.result.value.1;
      && env.dlopen(path).Some?
      && env.parseJson(FileDialog.JsonSiblingPath(path)).Some?
      && ctx == s.baseCtx
      && r.state.baseCtx == s.baseCtx + 1
      && g == ResolveGauge(env, env.dlopen(path).value, name,
                           env.parseJson(FileDialog.JsonSiblingPath(path)).value)
      && g.AllResolved()
      && r.state.renderers == s.renderers + [Renderer(name, ctx, g)]
      && r.state.trace == s.trace + [Opened(path, g.handle), InitCalled(g.init, ctx), WatcherStarted(path, name)]
  {
    match env.dlopen(path)
    case None => Step(s, Failure(LibraryOpenFailed))
    case Some(handle) =>
      var afterClose := s.(trace := s.trace + [Opened(path, handle), Closed(handle)]);
      match FileDialog.GetJsonFilePath(path, env.fileExists)
      case None => Step(afterClose, Failure(JsonNotFound(name)))
      case Some(jsonPath) =>
        match env.parseJson(jsonPath)
        case None => Step(afterClose, Failure(JsonParseFailed(jsonPath)))
        case Some(params) =>
          var g := ResolveGauge(env, handle, name, params);
          if !g.AllResolved() then
            Step(afterClose, Failure(SymbolsMissing))
          else
            var ctx := s.baseCtx;
            var loaded := s.(renderers := s.renderers + [Renderer(name, ctx, g)],
                             trace := s.trace + [Opened(path, handle), InitCalled(g.init, ctx), WatcherStarted(path, name)],
                             baseCtx := ctx + 1);
            Step(loaded, Success((ctx, g)))
  }

  /** A gauge's callbacks are all non-null exactly when every ABI symbol of
      its name resolves. */
  lemma AllResolvedIffSymbolsResolve(env: Env, handle: Handle, name: string, params: MountParams)
    ensures ResolveGauge(env, handle, name, params).AllResolved() <==> SymbolsResolve(env, handle, name)
  {
    var g := ResolveGauge(env, handle, name, params);
    if g.AllResolved() {
      forall suffix | suffix in CallbackSuffixes
        ensures env.dlsym(handle, name + suffix) != Null
      {
      }
    } else {
      assert !SymbolsResolve(env, handle, name) by {
        if g.init == Null { assert InitSuffix in CallbackSuffixes; }
        else if g.draw == Null { assert DrawSuffix in CallbackSuffixes; }
        else if g.kill == Null { assert KillSuffix in CallbackSuffixes; }
        else if g.update == Null { assert UpdateSuffix in CallbackSuffixes; }
        else { assert MouseHandlerSuffix in CallbackSuffixes; }
      }
    }
  }

  /** Load is all or nothing: it succeeds exactly when the library opens,
      the descriptor is found and parses, and all five symbols resolve. */
  lemma LoadSucceedsIffLoadable(s: Loader, env: Env, path: string, name: string)
    ensures LoadGauge(s, env, path, name).result.Success? <==> Loadable(env, path, name)
  {
    if env.dlopen(path).Some? {
      var json := FileDialog.JsonSiblingPath(path);
      if env.fileExists(json) && env.parseJson(json).Some? {
        AllResolvedIffSymbolsResolve(env, env.dlopen(path).value, name, env.parseJson(json).value);
      }
    }
  }

  /** `GaugeLoader::GetOrLoadGauge`. A cached name is answered from the map
      without touching anything; otherwise the gauge is loaded and stored
      under `name` only if the load succeeded (a failure is thrown). */
  function GetOrLoadGauge(s: Loader, env: Env, path: string, name: string): (r: Step<(Ctx, Gauge), LoadError>)
    ensures name in s.gauges ==> r == Step(s, Success(s.gauges[name]))
    ensures name !in s.gauges ==> r.result == LoadGauge(s, env, path, name).result
    ensures name !in s.gauges && r.result.Failure? ==> r.state == LoadGauge(s, env, path, name).state
    ensures r.result.Failure? ==> r.state.gauges == s.gauges && r.state.renderers == s.renderers
                                  && r.state.baseCtx == s.baseCtx
    ensures name !in s.gauges && r.result.Success? ==>
      && r.state.gauges == s.gauges[name := r.result.value]
      && r.result.value.0 == s.baseCtx
      && r.state.baseCtx == s.baseCtx + 1
      && r.state.renderers == s.renderers + [Renderer(name, r.result.value.0, r.result.value.1)]
  {
    if name in s.gauges then
      Step(s, Success(s.gauges[name]))
    else
      var loaded := LoadGauge(s, env, path, name);
      match loaded.result
      case Failure(e) => Step(loaded.state, Failure(e))
      case Success(entry) =>
        Step(loaded.state.(gauges := loaded.state.gauges[name := entry]), Success(entry))
  }

  /** `GaugeLoader::UnloadGauge`. The argument only appears in the error
      message: on a non-empty map the `"MFD"` entry is killed (when it has a
      kill callback) and its handle closed, and then every gauge and every
      renderer is dropped. */
  function UnloadGauge(s: Loader, name: string): (r: Step<(), UnloadError>)
    ensures s.gauges == map[] ==> r == Step(s, Failure(AlreadyUnloaded(name)))
    ensures s.gauges != map[] && Mfd !in s.gauges ==> r == Step(s, Failure(OutOfRange))
    ensures r.result.Success? <==> Mfd in s.gauges
    ensures r.result.Success? ==>
      var (ctx, g) := s.gauges[Mfd];
      && r.state.gauges == map[] && r.state.renderers == []
      && r.state.baseCtx == s.baseCtx && r.state.updateQueued == s.updateQueued
      && r.state.trace == s.trace + (if g.kill != Null then [KillCalled(g.kill, ctx)] else []) + [Closed(g.handle)]
  {
    if s.gauges == map[] then
      Step(s, Failure(AlreadyUnloaded(name)))
    else if Mfd !in s.gauges then
      Step(s, Failure(OutOfRange))
    else
      var (ctx, g) := s.gauges[Mfd];
      var killed := if g.kill != Null then [KillCalled(g.kill, ctx)] else [];
      Step(s.(gauges := map[], renderers := [], trace := s.trace + killed + [Closed(g.handle)]), Success(()))
  }

  /** `GaugeLoader::UnloadAllGauges`, up to the first loop iteration (the
      first `UnloadGauge` empties the map the loop is iterating). An empty
      registry is left alone; otherwise the outcome is `UnloadGauge("MFD")`'s. */
  function UnloadAllGauges(s: Loader): (r: Step<(), UnloadError>)
    ensures s.gauges == map[] ==> r == Step(s, Success(()))
    ensures r.result.Success? ==> r.state.gauges == map[]
    ensures r.result.Failure? ==> r.state == s && r.result.error == OutOfRange
    ensures r.result.Success? && s.gauges != map[] ==> r.state.renderers == []
    ensures r.result.Failure? <==> s.gauges != map[] && Mfd !in s.gauges
    ensures s.gauges != map[] ==> r == UnloadGauge(s, Mfd)
  {
    if s.gauges == map[] then
      Step(s, Success(()))
    else
      var u := UnloadGauge(s, Mfd);
      match u.result
      case Failure(e) => Step(u.state, Failure(e))
      case Success(_) => Step(u.state.(gauges := map[]), Success(()))
  }

  /** `reload_gauge`: unload everything, then raise the update-queued flag.
      The error value of the unload is ignored; a thrown `std::out_of_range`
      escapes the reload thread and ends the process, reported here as a
      failure. */
  function ReloadGauge(s: Loader): (r: Result<Loader, UnloadError>)
    ensures r.Failure? <==> s.gauges != map[] && Mfd !in s.gauges
    ensures r.Success? ==>
      r.value == UnloadAllGauges(s).state.(updateQueued := true, trace := UnloadAllGauges(s).state.trace + [UpdateQueued])
    ensures s.gauges == map[] ==> r == Success(s.(updateQueued := true, trace := s.trace + [UpdateQueued]))
    ensures r.Success? && s.gauges != map[] ==>
      var (ctx, g) := s.gauges[Mfd];
      && r.value.renderers == []
      && r.value.trace == s.trace + (if g.kill != Null then [KillCalled(g.kill, ctx)] else []) + [Closed(g.handle), UpdateQueued]
  {
    var u := UnloadAllGauges(s);
    match u.result
    case Failure(e) => Failure(e)
    case Success(_) =>
      Success(u.state.(updateQueued := true, trace := u.state.trace + [UpdateQueued]))
  }

  /** The watcher of one gauge: it starts from the stamp of its first read
      (the minimum time when that read failed); once the polls show the
      library's stamp changed, it reloads; until then nothing changes. */
  function OnWatcherPolls(s: Loader, first: GaugeWatcher.Poll, polls: seq<GaugeWatcher.Poll>): (r: Result<Loader, UnloadError>)
    ensures var initial := GaugeWatcher.InitialStamp(first, GaugeWatcher.MinFileTime);
            GaugeWatcher.FirstChange(initial, polls).None? ==> r == Success(s)
    ensures var initial := GaugeWatcher.InitialStamp(first, GaugeWatcher.MinFileTime);
            GaugeWatcher.FirstChange(initial, polls).Some? ==> r == ReloadGauge(s)
  {
    match GaugeWatcher.FirstChange(GaugeWatcher.InitialStamp(first, GaugeWatcher.MinFileTime), polls)
    case None => Success(s)
    case Some(_) => ReloadGauge(s)
  }

  /** A watcher whose first read failed reloads the registry at its first
      successful poll (unless that poll reports the minimum time itself). */
  lemma FailedFirstReadReloads(s: Loader, polls: seq<GaugeWatcher.Poll>, i: nat)
    requires i < |polls| && polls[i].Stamp? && polls[i].time != GaugeWatcher.MinFileTime
    requires forall j :: 0 <= j < i ==> polls[j].StatError?
    ensures OnWatcherPolls(s, GaugeWatcher.StatError, polls) == ReloadGauge(s)
  {
    GaugeWatcher.FailedFirstReadFiresAtFirstSuccess(polls, i);
  }

  /** `GaugeLoader::GetInstance`: the registry is created on first use and
      the same one is handed out afterwards. */
  function GetInstance(instance: Option<Loader>): (r: (Option<Loader>, Loader))
    ensures r.0 == Some(r.1)
    ensures instance.None? ==> r.1 == Initial
    ensures instance.Some? ==> r.1 == instance.value
  {
    match instance
    case None => (Some(Initial), Initial)
    case Some(l) => (instance, l)
  }

  /** `GaugeLoader::GetAllGauges`: a copy of the gauge map. */
  function GetAllGauges(s: Loader): map<string, (Ctx, Gauge)> {
    s.gauges
  }

  /** `GaugeLoader::GetAllRenderers`: a copy of the renderer list. */
  function GetAllRenderers(s: Loader): seq<Renderer> {
    s.renderers
  }
}

module GaugeRegistryInvariants {
  import opened Wrappers
  import opened GaugeLoader
  import GaugeWatcher

  /** The context ids passed to `init`, in call order. */
  function InitCtxs(trace: seq<Effect>): seq<Ctx> {
    if |trace| == 0 then []
    else
      InitCtxs(trace[..|trace| - 1]) +
      (match trace[|trace| - 1]
       case InitCalled(_, ctx) => [ctx]
       case _ => [])
  }

  lemma {:induction false} InitCtxsAppend(a: seq<Effect>, b: seq<Effect>)
    ensures InitCtxs(a + b) == InitCtxs(a) + InitCtxs(b)
    decreases |b|
  {
    if |b| == 0 {
      assert a + b == a;
    } else {
      assert (a + b)[..|a + b| - 1] == a + b[..|b| - 1];
      InitCtxsAppend(a, b[..|b| - 1]);
    }
  }

  /** `ids` is 1, 2, ..., |ids|. */
  predicate Consecutive(ids: seq<Ctx>) {
    forall i :: 0 <= i < |ids| ==> ids[i] == i + 1
  }

  /** Renderer `r` is the one registered under its title. */
  predicate Registered(s: Loader, r: Renderer) {
    r.title in s.gauges && s.gauges[r.title] == (r.gaugeCtx, r.gauge)
  }

  /** `init` has been called with 1, 2, ..., base_ctx - 1, in that order. */
  ghost predicate IdsIssued(s: Loader) {
    && s.baseCtx >= 1
    && |InitCtxs(s.trace)| == s.baseCtx - 1
    && Consecutive(InitCtxs(s.trace))
  }

  /** Renderers carry issued ids, in increasing (load) order. */
  ghost predicate RenderersOrdered(s: Loader) {
    && (forall i :: 0 <= i < |s.renderers| ==> 1 <= s.renderers[i].gaugeCtx < s.baseCtx)
    && (forall i, j :: 0 <= i < j < |s.renderers| ==> s.renderers[i].gaugeCtx < s.renderers[j].gaugeCtx)
  }

  /** Every renderer is the gauge registered under its title. */
  ghost predicate RenderersRegistered(s: Loader) {
    forall i :: 0 <= i < |s.renderers| ==> Registered(s, s.renderers[i])
  }

  /** Every registered gauge has a renderer and all five callbacks. */
  ghost predicate GaugesComplete(s: Loader) {
    && (forall name :: name in s.gauges ==> exists i :: 0 <= i < |s.renderers| && s.renderers[i].title == name)
    && (forall name :: name in s.gauges ==> s.gauges[name].1.AllResolved())
  }

  /** The registry invariant kept by every public operation. */
  ghost predicate Valid(s: Loader) {
    IdsIssued(s) && RenderersOrdered(s) && RenderersRegistered(s) && GaugesComplete(s)
  }

  lemma InitialIsValid()
    ensures Valid(Initial)
  {
  }

  /** The trace of a load that failed after opening the library holds no
      `init` call. */
  lemma FailedLoadIssuesNoId(t: seq<Effect>, path: string, h: Handle)
    ensures InitCtxs(t + [Opened(path, h), Closed(h)]) == InitCtxs(t)
  {
    var tail := [Opened(path, h), Closed(h)];
    InitCtxsAppend(t, tail);
    assert tail[..1] == [Opened(path, h)];
    assert tail[..1][..0] == [];
    assert InitCtxs(tail[..1]) == InitCtxs([]) + [];
    assert InitCtxs(tail) == InitCtxs(tail[..1]) + [];
  }

  /** The trace of a successful load holds exactly one `init` call. */
  lemma LoadIssuesOneId(t: seq<Effect>, path: string, name: string, h: Handle, init: Symbol, ctx: Ctx)
    ensures InitCtxs(t + [Opened(path, h), InitCalled(init, ctx), WatcherStarted(path, name)]) == InitCtxs(t) + [ctx]
  {
    var tail := [Opened(path, h), InitCalled(init, ctx), WatcherStarted(path, name)];
    InitCtxsAppend(t, tail);
    assert tail[..2] == [Opened(path, h), InitCalled(init, ctx)];
    assert tail[..2][..1] == [Opened(path, h)];
    assert tail[..2][..1][..0] == [];
    assert InitCtxs(tail[..2][..1]) == InitCtxs([]) + [];
    assert InitCtxs(tail[..2]) == InitCtxs(tail[..2][..1]) + [ctx];
    assert InitCtxs(tail) == InitCtxs(tail[..2]) + [];
  }

  /** The state a fresh successful `GetOrLoadGauge` leaves behind. */
  function WithEntry(s: Loader, path: string, name: string, g: Gauge): Loader {
    s.(gauges := s.gauges[name := (s.baseCtx, g)],
       renderers := s.renderers + [Renderer(name, s.baseCtx, g)],
       baseCtx := s.baseCtx + 1,
       trace := s.trace + [Opened(path, g.handle), InitCalled(g.init, s.baseCtx), WatcherStarted(path, name)])
  }

  lemma FreshLoadShape(s: Loader, env: Env, path: string, name: string)
    requires name !in s.gauges
    ensures var r := GetOrLoadGauge(s, env, path, name);
            r.result.Success? ==>
            && r.result.value.0 == s.baseCtx
            && r.result.value.1.AllResolved()
            && r.state == WithEntry(s, path, name, r.result.value.1)
  {
    if GetOrLoadGauge(s, env, path, name).result.Success? {
      assert LoadGauge(s, env, path, name).result.Success?;
    }
  }

  /** Registering a fully resolved gauge under a new name keeps the
      registry valid. */
  lemma WithEntryPreservesValid(s: Loader, path: string, name: string, g: Gauge)
    requires Valid(s)
    requires name !in s.gauges
    requires g.AllResolved()
    ensures Valid(WithEntry(s, path, name, g))
  {
    var s' := WithEntry(s, path, name, g);
    LoadIssuesOneId(s.trace, path, name, g.handle, g.init, s.baseCtx);
    WithEntryOrdered(s, path, name, g);
    WithEntryRegistered(s, path, name, g);
    WithEntryComplete(s, path, name, g);
  }

  lemma WithEntryOrdered(s: Loader, path: string, name: string, g: Gauge)
    requires s.baseCtx >= 1
    requires RenderersOrdered(s)
    ensures RenderersOrdered(WithEntry(s, path, name, g))
  {
  }

  lemma WithEntryRegistered(s: Loader, path: string, name: string, g: Gauge)
    requires RenderersRegistered(s)
    requires name !in s.gauges
    ensures RenderersRegistered(WithEntry(s, path, name, g))
  {
    var s' := WithEntry(s, path, name, g);
    forall i | 0 <= i < |s'.renderers|
      ensures Registered(s', s'.renderers[i])
    {
      if i < |s.renderers| {
        assert s'.renderers[i] == s.renderers[i];
        assert Registered(s, s.renderers[i]);
      }
    }
  }

  lemma WithEntryComplete(s: Loader, path: string, name: string, g: Gauge)
    requires GaugesComplete(s)
    requires g.AllResolved()
    ensures GaugesComplete(WithEntry(s, path, name, g))
  {
    var s' := WithEntry(s, path, name, g);
    var n := |s.renderers|;
    assert s'.renderers[n].title == name;
    forall k | k in s'.gauges
      ensures exists i :: 0 <= i < |s'.renderers| && s'.renderers[i].title == k
    {
      if k != name {
        var i :| 0 <= i < |s.renderers| && s.renderers[i].title == k;
        assert s'.renderers[i].title == k;
      }
    }
  }

  /** A cached or freshly loaded gauge keeps the registry valid; a fresh id
      exceeds every id `init` has seen before, so ids are never reused. */
  lemma GetOrLoadPreservesValid(s: Loader, env: Env, path: string, name: string)
    requires Valid(s)
    ensures var r := GetOrLoadGauge(s, env, path, name);
            && Valid(r.state)
            && r.state.baseCtx >= s.baseCtx
            && (r.result.Success? && name !in s.gauges ==>
                  forall c :: c in InitCtxs(s.trace) ==> c < r.result.value.0)
  {
    if name !in s.gauges {
      if GetOrLoadGauge(s, env, path, name).result.Failure? {
        FailedLookupPreservesValid(s, env, path, name);
      } else {
        FreshLookupPreservesValid(s, env, path, name);
      }
    }
  }

  /** A failed lookup only opens and closes a handle, so the registry stays
      valid and `base_ctx` stays put. */
  lemma FailedLookupPreservesValid(s: Loader, env: Env, path: string, name: string)
    requires Valid(s)
    requires name !in s.gauges
    ensures var r := GetOrLoadGauge(s, env, path, name);
            r.result.Failure? ==> Valid(r.state) && r.state.baseCtx == s.baseCtx
  {
    var r := GetOrLoadGauge(s, env, path, name);
    if r.result.Failure? && env.dlopen(path).Some? {
      FailedLoadIssuesNoId(s.trace, path, env.dlopen(path).value);
    }
  }

  /** A fresh successful lookup registers a fully resolved gauge under its
      name with id `base_ctx`, which no earlier `init` has seen. */
  lemma FreshLookupPreservesValid(s: Loader, env: Env, path: string, name: string)
    requires Valid(s)
    requires name !in s.gauges
    ensures var r := GetOrLoadGauge(s, env, path, name);
            r.result.Success? ==>
            && Valid(r.state)
            && r.state.baseCtx == s.baseCtx + 1
            && forall c :: c in InitCtxs(s.trace) ==> c < r.result.value.0
  {
    var r := GetOrLoadGauge(s, env, path, name);
    if r.result.Success? {
      FreshLoadShape(s, env, path, name);
      WithEntryPreservesValid(s, path, name, r.result.value.1);
    }
  }

  /** Tearing down keeps the registry valid, and leaves `base_ctx` (so the
      next id) untouched. */
  lemma UnloadGaugePreservesValid(s: Loader, name: string)
    requires Valid(s)
    ensures Valid(UnloadGauge(s, name).state)
    ensures UnloadGauge(s, name).state.baseCtx == s.baseCtx
  {
    var r := UnloadGauge(s, name);
    if r.result.Success? {
      InitCtxsAppend(s.trace, r.state.trace[|s.trace|..]);
      assert s.trace + r.state.trace[|s.trace|..] == r.state.trace;
      var (ctx, g) := s.gauges[Mfd];
      var delta := r.state.trace[|s.trace|..];
      assert delta == (if g.kill != Null then [KillCalled(g.kill, ctx)] else []) + [Closed(g.handle)];
      assert delta[..1] == [KillCalled(g.kill, ctx)];
      assert delta[..1][..0] == [];
    }
  }

  lemma UnloadAllPreservesValid(s: Loader)
    requires Valid(s)
    ensures Valid(UnloadAllGauges(s).state)
    ensures UnloadAllGauges(s).state.baseCtx == s.baseCtx
  {
    if s.gauges != map[] {
      UnloadGaugePreservesValid(s, Mfd);
    }
  }

  lemma ReloadPreservesValid(s: Loader)
    requires Valid(s)
    ensures ReloadGauge(s).Success? ==> Valid(ReloadGauge(s).value)
    ensures ReloadGauge(s).Success? ==> ReloadGauge(s).value.baseCtx == s.baseCtx
  {
    UnloadAllPreservesValid(s);
    var u := UnloadAllGauges(s).state;
    InitCtxsAppend(u.trace, [UpdateQueued]);
    assert [UpdateQueued][..0] == [];
  }

  /** What can happen to the registry: the public calls and a watcher that
      observed a sequence of polls. */
  datatype Command =
    | GetOrLoad(path: string, name: string)
    | Unload(name: string)
    | UnloadAll
    | WatcherPolls(first: GaugeWatcher.Poll, polls: seq<GaugeWatcher.Poll>)

  /** The state after one command. A reload whose `std::out_of_range` ends
      the process is over-approximated: the last state stays in place and
      later commands still run, which only adds behaviours the invariant
      must survive. */
  function Apply(s: Loader, env: Env, c: Command): Loader {
    match c
    case GetOrLoad(path, name) => GetOrLoadGauge(s, env, path, name).state
    case Unload(name) => UnloadGauge(s, name).state
    case UnloadAll => UnloadAllGauges(s).state
    case WatcherPolls(first, polls) =>
      match OnWatcherPolls(s, first, polls)
      case Success(s') => s'
      case Failure(_) => s
  }

  /** A sequence of commands, each run against the outside world as it is
      at that moment: `envs[i]` is what `dlopen`, `dlsym`, `exists` and the
      descriptor parser answer during `cs[i]`, so a library or descriptor
      rebuilt between two calls is covered. */
  function Run(s: Loader, envs: seq<Env>, cs: seq<Command>): Loader
    requires |envs| == |cs|
    decreases |cs|
  {
    if |cs| == 0 then s else Run(Apply(s, envs[0], cs[0]), envs[1..], cs[1..])
  }

  /** Every single command keeps the invariant and never lowers `base_ctx`. */
  lemma ApplyPreservesValid(s: Loader, env: Env, c: Command)
    requires Valid(s)
    ensures Valid(Apply(s, env, c))
    ensures Apply(s, env, c).baseCtx >= s.baseCtx
  {
    match c {
      case GetOrLoad(path, name) => GetOrLoadPreservesValid(s, env, path, name);
      case Unload(name) => UnloadGaugePreservesValid(s, name);
      case UnloadAll => UnloadAllPreservesValid(s);
      case WatcherPolls(first, polls) => ReloadPreservesValid(s);
    }
  }

  /** From the initial registry, any sequence of calls keeps the invariant:
      context ids are issued 1, 2, 3, ... with no gap and no reuse, and only
      fully resolved gauges are ever visible. */
  lemma {:induction false} RunPreservesValid(s: Loader, envs: seq<Env>, cs: seq<Command>)
    requires Valid(s)
    requires |envs| == |cs|
    ensures Valid(Run(s, envs, cs))
    ensures Run(s, envs, cs).baseCtx >= s.baseCtx
    decreases |cs|
  {
    if |cs| > 0 {
      ApplyPreservesValid(s, envs[0], cs[0]);
      RunPreservesValid(Apply(s, envs[0], cs[0]), envs[1..], cs[1..]);
    }
  }

  /** In a valid registry the ids `init` has seen are strictly increasing,
      so no two loads ever share a context id. */
  lemma IdsStrictlyIncreasing(s: Loader)
    requires Valid(s)
    ensures forall i, j :: 0 <= i < j < |InitCtxs(s.trace)| ==> InitCtxs(s.trace)[i] < InitCtxs(s.trace)[j]
    ensures forall i :: 0 <= i < |InitCtxs(s.trace)| ==> 1 <= InitCtxs(s.trace)[i] < s.baseCtx
  {
  }

  /** `GetAllGauges` and `GetAllRenderers` agree: every renderer in the copy
      is the gauge stored under its title, they come in load order, and
      every gauge has its renderer. */
  lemma SnapshotsAgree(s: Loader)
    requires Valid(s)
    ensures var gs := GetAllGauges(s);
            var rs := GetAllRenderers(s);
            && (forall i :: 0 <= i < |rs| ==> rs[i].title in gs && gs[rs[i].title] == (rs[i].gaugeCtx, rs[i].gauge))
            && (forall i, j :: 0 <= i < j < |rs| ==> rs[i].gaugeCtx < rs[j].gaugeCtx)
            && (forall name :: name in gs ==> exists i :: 0 <= i < |rs| && rs[i].title == name)
  {
    assert forall i :: 0 <= i < |s.renderers| ==> Registered(s, s.renderers[i]);
  }

  /** `UnloadGauge` does the same thing whatever name it is given, as long
      as something is loaded. */
  lemma UnloadGaugeIgnoresName(s: Loader, a: string, b: string)
    requires s.gauges != map[]
    ensures UnloadGauge(s, a) == UnloadGauge(s, b)
  {
  }

  /** Gauges other than `"MFD"` disappear from the map without their kill
      callback running and without their handle being closed. */
  lemma UnloadGaugeSkipsOtherTeardown(s: Loader, name: string, other: string)
    requires Mfd in s.gauges && other in s.gauges && other != Mfd
    requires s.gauges[other].1.handle != s.gauges[Mfd].1.handle
    requires s.gauges[other].1.kill != s.gauges[Mfd].1.kill
    ensures var r := UnloadGauge(s, name);
            var delta := r.state.trace[|s.trace|..];
            && other !in r.state.gauges
            && Closed(s.gauges[other].1.handle) !in delta
            && KillCalled(s.gauges[other].1.kill, s.gauges[other].0) !in delta
  {
  }

  /** A renderer keeps the title, id and gauge it was built with, and
      `GetTitle` hands the title back. */
  lemma RendererKeepsFields(title: string, ctx: Ctx, g: Gauge)
    ensures var r := Renderer(title, ctx, g);
            r.GetTitle() == title && r.gaugeCtx == ctx && r.gauge == g
  {
  }

  /** The singleton is created once and handed out unchanged afterwards. */
  lemma GetInstanceStable(instance: Option<Loader>)
    ensures var (held, first) := GetInstance(instance);
            GetInstance(held) == (held, first)
  {
  }
}
