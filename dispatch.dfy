/**
 * The specification of the MapLibre widget's call dispatcher and control registry.
 *
 * The live map is abstract: the names of the functions it exposes, which invocations throw,
 * and which controls `map.addControl` refuses. Everything the front end keeps between events
 * is one `State` value, and every handler is a function from state to state. The `Widget`
 * class (module MapLibreWidget) is proved to follow these functions.
 */
module MapLibreDispatch {
  import opened Wrappers
  import opened Json
  import opened Text
  import opened MapLibreControls

  /** One entry of the `calls` model field; only `method` and `args` are read. */
  datatype Call = Call(name: string, args: Option<seq<Value>>)

  /** `map[method](...args)` as the live map received it. */
  datatype Invocation = Invocation(name: string, args: seq<Value>)

  /**
   * A control object on the map. Each `new` yields a distinct `id`, which stands for the
   * object's identity.
   */
  datatype Control =
    | Builtin(id: nat, kind: ControlKind, position: Value, options: Value)
    | DrawTool(id: nat, position: Value, drawOptions: map<string, Value>)

  /** What the live map is: its callable method names and the foreign behaviour of its calls. */
  datatype MapSurface = MapSurface(
    methods: set<string>,
    fails: Invocation -> bool,
    refuses: Control -> bool)

  /** The diagnostic channel (console.log and console.warn). */
  datatype Diagnostic =
    | CallingMethod(call: Call)
    | UnknownControlType(controlType: string)
    | AddedControl(controlType: string)
    | FailedToAddControl(controlType: string)
    | RemovedControl(controlType: string)
    | ControlNotFound(requested: Option<Value>)
    | AddedDrawControl
    | FailedToAddDrawControl
    | RemovedDrawControl
    | DrawControlNotFound
    | DeletedAllDrawFeatures
    | MethodFailed(name: string)
    | NotAFunction(name: string)

  /**
   * The five draw fields of the model. `all` holds the features of the
   * `draw_feature_collection_all` FeatureCollection.
   */
  datatype DrawFields = DrawFields(
    selected: seq<Value>,
    all: seq<Value>,
    created: seq<Value>,
    updated: seq<Value>,
    deleted: seq<Value>)

  /** The value every draw field is reset to: empty lists and an empty FeatureCollection. */
  const EmptyDrawFields := DrawFields([], [], [], [], [])

  /**
   * The front end's state: the `processedCallsCount` cursor, the `controlRegistry`, the
   * draw fields, and the part of the live map the handlers touch (attached controls,
   * invocations received, the features held by the registered draw tool).
   */
  datatype State = State(
    cursor: nat,
    registry: map<string, Control>,
    attached: seq<Control>,
    invoked: seq<Invocation>,
    drawStore: seq<Value>,
    fields: DrawFields,
    console: seq<Diagnostic>,
    nextId: nat)

  /** The state right after the map is created: nothing processed, nothing registered. */
  const Initial := State(0, map[], [], [], [], EmptyDrawFields, [], 0)

  /** The outcome of a handler: it returned, or an exception escaped it (`Threw`). */
  datatype Step = Done(state: State) | Threw(state: State)

  /** The names the dispatcher routes to the registry instead of the map. */
  const SpecialMethods: set<string> :=
    {"addControl", "removeControl", "addDrawControl", "removeDrawControl", "drawFeaturesDeleteAll"}

  /** `args[i]` after array destructuring: `None` stands for `undefined`. */
  function Arg(args: seq<Value>, i: nat): Option<Value> {
    if i < |args| then Some(args[i]) else None
  }

  function Log(s: State, d: Diagnostic): State {
    s.(console := s.console + [d])
  }

  /** The sequence without any occurrence of `c` (`map.removeControl(c)`). */
  function Without(cs: seq<Control>, c: Control): (r: seq<Control>)
    ensures forall x :: x in r <==> x in cs && x != c
    ensures c !in cs ==> r == cs
    decreases |cs|
  {
    if cs == [] then []
    else if cs[0] == c then Without(cs[1..], c)
    else [cs[0]] + Without(cs[1..], c)
  }

  lemma {:induction false} WithoutAppended(cs: seq<Control>, c: Control)
    requires c !in cs
    ensures Without(cs + [c], c) == cs
    decreases |cs|
  {
    if cs == [] {
      assert Without([c], c) == Without([], c);
    } else {
      assert (cs + [c])[1..] == cs[1..] + [c];
      WithoutAppended(cs[1..], c);
    }
  }

  /** `addControlToMap(map, controlType, position = "top-right", options = {})`. */
  function AddControl(m: MapSurface, s: State, controlType: Option<Value>,
                      position: Option<Value>, options: Option<Value>): Step
  {
    if !(controlType.Some? && controlType.value.Str?) then
      Threw(s)  // `controlType.toLowerCase` is not a function
    else
      var t := controlType.value.s;
      Done(AttachControl(m, s, t, KindOf(t), position, options))
  }

  /** The rest of `addControlToMap` once the normalised type has selected `kind`, or nothing. */
  function AttachControl(m: MapSurface, s: State, t: string, kind: Option<ControlKind>,
                         position: Option<Value>, options: Option<Value>): State
  {
    match kind
    case None => Log(s, UnknownControlType(t))
    case Some(k) =>
      var c := Builtin(s.nextId, k, position.GetOr(Str("top-right")), options.GetOr(Obj(map[])));
      var s1 := s.(nextId := s.nextId + 1);
      if m.refuses(c) then Log(s1, FailedToAddControl(t))
      else Log(s1.(attached := s1.attached + [c], registry := s1.registry[t := c]), AddedControl(t))
  }

  /** `removeControlFromMap(map, controlType)`: look the raw type up, detach, forget. */
  function RemoveControl(s: State, controlType: Option<Value>): State {
    if controlType.Some? && controlType.value.Str? && controlType.value.s in s.registry then
      var t := controlType.value.s;
      var c := s.registry[t];
      Log(s.(attached := Without(s.attached, c), registry := s.registry - {t}), RemovedControl(t))
    else
      Log(s, ControlNotFound(controlType))
  }

  /** `updateDrawFeatures`: the collection field mirrors the draw tool's features. */
  function RefreshAll(s: State): State {
    s.(fields := s.fields.(all := s.drawStore))
  }

  /** The initial-geojson branch of `addDrawControlToMap`, run after the tool is registered. */
  function Seed(s: State, geojson: Option<Value>): State {
    if geojson.None? || !Truthy(geojson.value) then s
    else
      var g := geojson.value;
      if Field(g, "type") == Some(Str("FeatureCollection")) then
        match Field(g, "features")
        case Some(Arr(fs)) => RefreshAll(s.(drawStore := s.drawStore + fs))
        case _ => Log(s, FailedToAddDrawControl)  // `features.forEach` threw inside the try
      else if Field(g, "type") == Some(Str("Feature")) then
        RefreshAll(s.(drawStore := s.drawStore + [g]))
      else
        RefreshAll(s)
  }

  /** `new MapboxDraw(drawOptions)`, at the position asked for ("top-right" when omitted). */
  function NewDrawTool(s: State, options: Option<Value>, controls: Option<Value>, position: Option<Value>): Control {
    DrawTool(s.nextId, position.GetOr(Str("top-right")), DrawOptions(options, controls))
  }

  /** A draw tool the map accepted: attached, registered under "draw", its store empty. */
  function InstallDraw(s: State, d: Control): State {
    Log(s.(attached := s.attached + [d], registry := s.registry["draw" := d], drawStore := []), AddedDrawControl)
  }

  /** The `try` block of `addDrawControlToMap`, for a draw tool `d` just created. */
  function AttachDraw(m: MapSurface, s: State, d: Control, geojson: Option<Value>): State {
    var s1 := s.(nextId := s.nextId + 1);
    if m.refuses(d) then Log(s1, FailedToAddDrawControl)
    else Seed(InstallDraw(s1, d), geojson)
  }

  /** `addDrawControlToMap(map, options = {}, controls = {}, position = "top-right", geojson = null)`. */
  function AddDrawControl(m: MapSurface, s: State, options: Option<Value>, controls: Option<Value>,
                          position: Option<Value>, geojson: Option<Value>): State
  {
    AttachDraw(m, s, NewDrawTool(s, options, controls, position), geojson)
  }

  /** `removeDrawControlFromMap(map)`. */
  function RemoveDrawControl(s: State): State {
    if "draw" in s.registry then
      var d := s.registry["draw"];
      Log(s.(attached := Without(s.attached, d), registry := s.registry - {"draw"},
             drawStore := [], fields := EmptyDrawFields), RemovedDrawControl)
    else
      Log(s, DrawControlNotFound)
  }

  /** `deleteAllDrawFeatures(map)`. */
  function DeleteAllDrawFeatures(s: State): State {
    if "draw" !in s.registry then Log(s, DrawControlNotFound)
    else if |s.drawStore| == 0 then s
    else
      var prior := s.drawStore;
      Log(s.(drawStore := [], fields := s.fields.(deleted := prior, all := [])), DeletedAllDrawFeatures)
  }

  /** Any other name: call it on the map if it is a function there, inside a try. */
  function Invoke(m: MapSurface, s: State, name: string, args: Option<seq<Value>>): State {
    if name in m.methods then
      var inv := Invocation(name, args.GetOr([]));
      var s1 := s.(invoked := s.invoked + [inv]);
      if m.fails(inv) then Log(s1, MethodFailed(name)) else s1
    else
      Log(s, NotAFunction(name))
  }

  /** The body of the `forEach` over new calls, for one call. */
  function Dispatch(m: MapSurface, s: State, c: Call): Step {
    var s1 := Log(s, CallingMethod(c));
    if c.name == "addControl" then
      if c.args.None? then Threw(s1)  // destructuring `undefined`
      else AddControl(m, s1, Arg(c.args.value, 0), Arg(c.args.value, 1), Arg(c.args.value, 2))
    else if c.name == "removeControl" then
      if c.args.None? then Threw(s1)
      else Done(RemoveControl(s1, Arg(c.args.value, 0)))
    else if c.name == "addDrawControl" then
      if c.args.None? then Threw(s1)
      else
        var a := c.args.value;
        Done(AddDrawControl(m, s1, Arg(a, 0), Arg(a, 1), Arg(a, 2), Arg(a, 3)))
    else if c.name == "removeDrawControl" then Done(RemoveDrawControl(s1))
    else if c.name == "drawFeaturesDeleteAll" then Done(DeleteAllDrawFeatures(s1))
    else Done(Invoke(m, s1, c.name, c.args))
  }

  /** The calls in order, stopping at the first one whose exception escapes. */
  function DispatchAll(m: MapSurface, s: State, cs: seq<Call>): Step
    decreases |cs|
  {
    if cs == [] then Done(s)
    else
      match DispatchAll(m, s, cs[..|cs| - 1])
      case Threw(t) => Threw(t)
      case Done(t) => Dispatch(m, t, cs[|cs| - 1])
  }

  /** Dispatching one more call of the batch, when the calls before it returned. */
  lemma DispatchAllStep(m: MapSurface, s: State, cs: seq<Call>, i: nat, t: State)
    requires i < |cs| && DispatchAll(m, s, cs[..i]) == Done(t)
    ensures DispatchAll(m, s, cs[..i + 1]) == Dispatch(m, t, cs[i])
  {
    assert cs[..i + 1][..i] == cs[..i];
  }

  /** `calls.slice(processedCallsCount)`: empty once the cursor is at or past the end. */
  function NewCalls(cursor: nat, calls: seq<Call>): seq<Call> {
    if cursor <= |calls| then calls[cursor..] else []
  }

  /** The `change:calls` handler; a missing `calls` field reads as the empty list. */
  function HandleCalls(m: MapSurface, s: State, calls: Option<seq<Call>>): Step {
    var list := calls.GetOr([]);
    match DispatchAll(m, s, NewCalls(s.cursor, list))
    case Threw(t) => Threw(t)
    case Done(t) => Done(t.(cursor := |list|))
  }

  // ---------------------------------------------------------------------------------------
  // Invariant of the registry

  /** A registry key and its control agree: "draw" holds the draw tool, any other key names a built-in kind. */
  predicate RegisteredUnder(k: string, c: Control) {
    if k == "draw" then c.DrawTool? else c.Builtin? && KindOf(k) == Some(c.kind)
  }

  /**
   * Every registered control is on the map, under a key that names it, no two keys share one,
   * and identities are below the next one handed out.
   */
  ghost predicate Valid(s: State) {
    && (forall k | k in s.registry :: s.registry[k] in s.attached && RegisteredUnder(k, s.registry[k]))
    && (forall k1, k2 | k1 in s.registry && k2 in s.registry && k1 != k2 :: s.registry[k1].id != s.registry[k2].id)
    && (forall c | c in s.attached :: c.id < s.nextId)
  }

  lemma InitialValid()
    ensures Valid(Initial)
  {
  }

  /** What a handler leaves alone when it only writes a diagnostic. */
  predicate OnlyLogged(s: State, t: State) {
    t == s.(console := t.console)
  }

  // ---------------------------------------------------------------------------------------
  // The cursor and the batch

  /** A call whose arguments can be destructured: the special routes read `args` directly. */
  predicate WellFormed(c: Call) {
    && (c.name in {"addControl", "removeControl", "addDrawControl"} ==> c.args.Some?)
    && (c.name == "addControl" ==> Arg(c.args.value, 0).Some? && Arg(c.args.value, 0).value.Str?)
  }

  /** The calls the diagnostic log says were dispatched, in order. */
  function CallsLogged(log: seq<Diagnostic>): seq<Call>
    decreases |log|
  {
    if log == [] then []
    else
      var init := CallsLogged(log[..|log| - 1]);
      match log[|log| - 1]
      case CallingMethod(c) => init + [c]
      case _ => init
  }

  lemma {:induction false} CallsLoggedAppend(a: seq<Diagnostic>, b: seq<Diagnostic>)
    ensures CallsLogged(a + b) == CallsLogged(a) + CallsLogged(b)
    decreases |b|
  {
    if b == [] {
      assert a + b == a;
    } else {
      var b' := b[..|b| - 1];
      assert (a + b)[..|a + b| - 1] == a + b';
      CallsLoggedAppend(a, b');
    }
  }

  /** A state whose log grew only by entries that are not `CallingMethod`. */
  predicate LogGrewQuietly(s: State, t: State) {
    |s.console| <= |t.console| && t.console[..|s.console|] == s.console
    && CallsLogged(t.console[|s.console|..]) == []
  }

  lemma {:induction false} LogOneQuiet(s: State, d: Diagnostic)
    requires !d.CallingMethod?
    ensures LogGrewQuietly(s, Log(s, d))
  {
    assert Log(s, d).console[|s.console|..] == [d];
    assert [d][..0] == [];
  }

  lemma {:induction false} QuietTransitive(s: State, t: State, u: State)
    requires LogGrewQuietly(s, t) && LogGrewQuietly(t, u)
    ensures LogGrewQuietly(s, u)
  {
    var a, b := t.console[|s.console|..], u.console[|t.console|..];
    assert u.console[..|t.console|] == t.console;
    assert u.console[|s.console|..] == a + b;
    CallsLoggedAppend(a, b);
  }

  lemma {:induction false} QuietSame(s: State, t: State)
    requires t.console == s.console
    ensures LogGrewQuietly(s, t)
  {
    assert t.console[|s.console|..] == [];
  }

  lemma AttachControlLogsQuietly(m: MapSurface, s: State, t: string, kind: Option<ControlKind>,
                                 position: Option<Value>, options: Option<Value>)
    ensures LogGrewQuietly(s, AttachControl(m, s, t, kind, position, options))
  {
    match kind
    case None => LogOneQuiet(s, UnknownControlType(t));
    case Some(k) =>
      var c := Builtin(s.nextId, k, position.GetOr(Str("top-right")), options.GetOr(Obj(map[])));
      var s1 := s.(nextId := s.nextId + 1);
      if m.refuses(c) {
        LogOneQuiet(s1, FailedToAddControl(t));
      } else {
        LogOneQuiet(s1.(attached := s1.attached + [c], registry := s1.registry[t := c]), AddedControl(t));
      }
  }

  lemma {:induction false} HandlersLogQuietly(m: MapSurface, s: State, c: Call)
    requires WellFormed(c)
    ensures Dispatch(m, s, c).Done?
    ensures LogGrewQuietly(Log(s, CallingMethod(c)), Dispatch(m, s, c).state)
  {
    var s1 := Log(s, CallingMethod(c));
    var t := Dispatch(m, s, c).state;
    if c.name == "addControl" {
      var a := c.args.value;
      var ct := Arg(a, 0).value.s;
      AttachControlLogsQuietly(m, s1, ct, KindOf(ct), Arg(a, 1), Arg(a, 2));
      assert Dispatch(m, s, c) == Done(AttachControl(m, s1, ct, KindOf(ct), Arg(a, 1), Arg(a, 2)));
    } else if c.name == "removeControl" {
      var ct := Arg(c.args.value, 0);
      if ct.Some? && ct.value.Str? && ct.value.s in s1.registry {
        var cc := s1.registry[ct.value.s];
        LogOneQuiet(s1.(attached := Without(s1.attached, cc), registry := s1.registry - {ct.value.s}),
                    RemovedControl(ct.value.s));
      } else {
        LogOneQuiet(s1, ControlNotFound(ct));
      }
    } else if c.name == "addDrawControl" {
      var a := c.args.value;
      AddDrawLogsQuietly(m, s1, Arg(a, 0), Arg(a, 1), Arg(a, 2), Arg(a, 3));
    } else if c.name == "removeDrawControl" {
      if "draw" in s1.registry {
        var d := s1.registry["draw"];
        LogOneQuiet(s1.(attached := Without(s1.attached, d), registry := s1.registry - {"draw"},
                        drawStore := [], fields := EmptyDrawFields), RemovedDrawControl);
      } else {
        LogOneQuiet(s1, DrawControlNotFound);
      }
    } else if c.name == "drawFeaturesDeleteAll" {
      if "draw" !in s1.registry {
        LogOneQuiet(s1, DrawControlNotFound);
      } else if |s1.drawStore| == 0 {
        QuietSame(s1, t);
      } else {
        LogOneQuiet(s1.(drawStore := [], fields := s1.fields.(deleted := s1.drawStore, all := [])),
                    DeletedAllDrawFeatures);
      }
    } else {
      if c.name in m.methods {
        var inv := Invocation(c.name, c.args.GetOr([]));
        var s2 := s1.(invoked := s1.invoked + [inv]);
        if m.fails(inv) { LogOneQuiet(s2, MethodFailed(c.name)); } else { QuietSame(s1, s2); }
      } else {
        LogOneQuiet(s1, NotAFunction(c.name));
      }
    }
  }

  lemma {:induction false} AttachDrawLogsQuietly(m: MapSurface, s: State, d: Control, geojson: Option<Value>)
    ensures LogGrewQuietly(s, AttachDraw(m, s, d, geojson))
  {
    var s1 := s.(nextId := s.nextId + 1);
    if m.refuses(d) {
      LogOneQuiet(s1, FailedToAddDrawControl);
    } else {
      var s2 := s1.(attached := s1.attached + [d], registry := s1.registry["draw" := d], drawStore := []);
      var s3 := Log(s2, AddedDrawControl);
      LogOneQuiet(s2, AddedDrawControl);
      var s4 := Seed(s3, geojson);
      if s4.console == s3.console {
        QuietSame(s3, s4);
      } else {
        LogOneQuiet(s3, FailedToAddDrawControl);
      }
      QuietTransitive(s, s3, s4);
    }
  }

  lemma AddDrawLogsQuietly(m: MapSurface, s: State, options: Option<Value>,
                           controls: Option<Value>, position: Option<Value>, geojson: Option<Value>)
    ensures LogGrewQuietly(s, AddDrawControl(m, s, options, controls, position, geojson))
  {
    AttachDrawLogsQuietly(m, s, NewDrawTool(s, options, controls, position), geojson);
  }

  /** One more dispatched call extends the calls the log records by that call. */
  lemma {:induction false} LogStep(sc: seq<Diagnostic>, tc: seq<Diagnostic>, uc: seq<Diagnostic>,
                                   init: seq<Call>, c: Call)
    requires |sc| <= |tc| && tc[..|sc|] == sc && CallsLogged(tc[|sc|..]) == init
    requires |tc| + 1 <= |uc| && uc[..|tc| + 1] == tc + [CallingMethod(c)]
    requires CallsLogged(uc[|tc| + 1..]) == []
    ensures |sc| <= |uc| && uc[..|sc|] == sc && CallsLogged(uc[|sc|..]) == init + [c]
  {
    var a := tc[|sc|..];
    var b := [CallingMethod(c)];
    var rest := uc[|tc| + 1..];
    assert CallsLogged(b) == [c] by { assert b[..0] == []; }
    assert uc == tc + b + rest by {
      assert uc == uc[..|tc| + 1] + rest;
    }
    assert uc[..|sc|] == sc;
    assert uc[|sc|..] == a + b + rest;
    CallsLoggedAppend(a + b, rest);
    CallsLoggedAppend(a, b);
  }

  /** The inductive step of `DispatchAllLogsCalls`: one more well-formed call. */
  lemma DispatchAllLogsOneMore(m: MapSurface, s: State, init: seq<Call>, c: Call, t: State)
    requires DispatchAll(m, s, init) == Done(t) && WellFormed(c)
    requires |s.console| <= |t.console| && t.console[..|s.console|] == s.console
    requires CallsLogged(t.console[|s.console|..]) == init
    ensures DispatchAll(m, s, init + [c]).Done?
    ensures var u := DispatchAll(m, s, init + [c]).state;
      |s.console| <= |u.console| && u.console[..|s.console|] == s.console &&
      CallsLogged(u.console[|s.console|..]) == init + [c]
  {
    HandlersLogQuietly(m, t, c);
    assert (init + [c])[..|init|] == init;
    assert DispatchAll(m, s, init + [c]) == Dispatch(m, t, c);
    var u := Dispatch(m, t, c).state;
    LogStep(s.console, t.console, u.console, init, c);
  }

  /**
   * When every new call is well formed, the batch dispatches exactly those calls, in list
   * order (the log records one `CallingMethod` per call and no other), and then no exception
   * escapes.
   */
  lemma {:induction false} DispatchAllLogsCalls(m: MapSurface, s: State, cs: seq<Call>)
    requires forall i | 0 <= i < |cs| :: WellFormed(cs[i])
    ensures DispatchAll(m, s, cs).Done?
    ensures |s.console| <= |DispatchAll(m, s, cs).state.console|
    ensures DispatchAll(m, s, cs).state.console[..|s.console|] == s.console
    ensures CallsLogged(DispatchAll(m, s, cs).state.console[|s.console|..]) == cs
    decreases |cs|
  {
    if cs == [] {
      assert s.console[|s.console|..] == [];
    } else {
      var init := cs[..|cs| - 1];
      var c := cs[|cs| - 1];
      assert cs == init + [c];
      DispatchAllLogsCalls(m, s, init);
      DispatchAllLogsOneMore(m, s, init, c, DispatchAll(m, s, init).state);
    }
  }

  /**
   * A `calls` change whose new entries are well formed dispatches exactly the entries from
   * the cursor to the end, in order, and then moves the cursor to the list's length.
   */
  lemma HandleCallsDispatchesNewCalls(m: MapSurface, s: State, calls: Option<seq<Call>>)
    requires forall c | c in NewCalls(s.cursor, calls.GetOr([])) :: WellFormed(c)
    ensures HandleCalls(m, s, calls).Done?
    ensures HandleCalls(m, s, calls).state.cursor == |calls.GetOr([])|
    ensures var log := HandleCalls(m, s, calls).state.console;
      |s.console| <= |log| && log[..|s.console|] == s.console &&
      CallsLogged(log[|s.console|..]) == NewCalls(s.cursor, calls.GetOr([]))
  {
    var cs := NewCalls(s.cursor, calls.GetOr([]));
    assert forall i | 0 <= i < |cs| :: cs[i] in cs;
    DispatchAllLogsCalls(m, s, cs);
  }

  /** A missing `calls` field dispatches nothing and puts the cursor at 0. */
  lemma MissingCallsResetCursor(m: MapSurface, s: State)
    ensures HandleCalls(m, s, None) == Done(s.(cursor := 0))
  {
  }

  /** Handling the same list a second time dispatches nothing and changes nothing. */
  lemma HandleSameCallsTwice(m: MapSurface, s: State, calls: Option<seq<Call>>, t: State)
    requires HandleCalls(m, s, calls) == Done(t)
    ensures HandleCalls(m, t, calls) == Done(t)
  {
  }

  /**
   * A malformed special call (no `args`, or `addControl` without a string type) throws out of
   * the handler before the cursor moves: the calls before it in the batch have run, and every
   * later change with a longer list runs them again and stops at the same call.
   */
  lemma {:induction false} MalformedCallStalls(m: MapSurface, s: State, calls: seq<Call>, more: seq<Call>)
    requires s.cursor < |calls| && !WellFormed(calls[s.cursor])
    ensures HandleCalls(m, s, Some(calls)).Threw?
    ensures HandleCalls(m, s, Some(calls + more)).Threw?
    ensures HandleCalls(m, s, Some(calls)).state.cursor == s.cursor
  {
    var cs := NewCalls(s.cursor, calls);
    var cs' := NewCalls(s.cursor, calls + more);
    assert cs[..1] == [calls[s.cursor]] && cs'[..1] == [calls[s.cursor]];
    DispatchAllPrefixThrows(m, s, cs, 1);
    DispatchAllPrefixThrows(m, s, cs', 1);
  }

  /** Once a prefix of the batch throws, the rest of the batch never runs. */
  lemma {:induction false} DispatchAllPrefixThrows(m: MapSurface, s: State, cs: seq<Call>, n: nat)
    requires n <= |cs| && DispatchAll(m, s, cs[..n]).Threw?
    ensures DispatchAll(m, s, cs) == DispatchAll(m, s, cs[..n])
    ensures DispatchAll(m, s, cs).state.cursor == s.cursor
    decreases |cs|
  {
    DispatchKeepsCursor(m, s, cs[..n]);
    if n < |cs| {
      assert cs[..|cs| - 1][..n] == cs[..n];
      DispatchAllPrefixThrows(m, s, cs[..|cs| - 1], n);
    } else {
      assert cs[..n] == cs;
    }
  }

  /** No handler touches the cursor. */
  lemma DispatchOneKeepsCursor(m: MapSurface, s: State, c: Call)
    ensures Dispatch(m, s, c).state.cursor == s.cursor
  {
    var s1 := Log(s, CallingMethod(c));
    if c.name == "addControl" {
      if c.args.Some? {
        var a := c.args.value;
        if Arg(a, 0).Some? && Arg(a, 0).value.Str? {
          var t := Arg(a, 0).value.s;
          assert Dispatch(m, s, c) == Done(AttachControl(m, s1, t, KindOf(t), Arg(a, 1), Arg(a, 2)));
          assert AttachControl(m, s1, t, KindOf(t), Arg(a, 1), Arg(a, 2)).cursor == s1.cursor;
        }
      }
    } else if c.name == "addDrawControl" {
      if c.args.Some? {
        var a := c.args.value;
        var d := NewDrawTool(s1, Arg(a, 0), Arg(a, 1), Arg(a, 2));
        assert Dispatch(m, s, c) == Done(AttachDraw(m, s1, d, Arg(a, 3)));
        SeedKeepsRegistry(Log(s1.(nextId := s1.nextId + 1,
                                  attached := s1.attached + [d], registry := s1.registry["draw" := d], drawStore := []),
                              AddedDrawControl), Arg(a, 3));
      }
    }
  }

  lemma {:induction false} DispatchKeepsCursor(m: MapSurface, s: State, cs: seq<Call>)
    ensures DispatchAll(m, s, cs).state.cursor == s.cursor
    decreases |cs|
  {
    if cs != [] {
      DispatchKeepsCursor(m, s, cs[..|cs| - 1]);
      match DispatchAll(m, s, cs[..|cs| - 1])
      case Threw(t) =>
      case Done(t) => DispatchOneKeepsCursor(m, t, cs[|cs| - 1]);
    }
  }

  // ---------------------------------------------------------------------------------------
  // Routing

  /**
   * The five special names go to the registry whatever the map exposes: two maps that differ
   * only in their method names dispatch them alike.
   */
  lemma SpecialNamesBypassMap(m: MapSurface, s: State, c: Call, methods: set<string>)
    requires c.name in SpecialMethods
    ensures Dispatch(m, s, c) == Dispatch(m.(methods := methods), s, c)
  {
  }

  /**
   * Any other name that the map has as a function is invoked with `args`, or with no
   * arguments when `args` is absent; a throw only adds a warning. Nothing else changes.
   */
  lemma GenericNameInvoked(m: MapSurface, s: State, c: Call)
    requires c.name !in SpecialMethods && c.name in m.methods
    ensures Dispatch(m, s, c).Done?
    ensures var t := Dispatch(m, s, c).state;
      var inv := Invocation(c.name, c.args.GetOr([]));
      && t.invoked == s.invoked + [inv]
      && t.console == s.console + [CallingMethod(c)] + (if m.fails(inv) then [MethodFailed(c.name)] else [])
      && t == s.(invoked := t.invoked, console := t.console)
  {
  }

  /** Any other name that the map lacks only produces a warning. */
  lemma UnknownNameOnlyWarns(m: MapSurface, s: State, c: Call)
    requires c.name !in SpecialMethods && c.name !in m.methods
    ensures Dispatch(m, s, c) == Done(s.(console := s.console + [CallingMethod(c), NotAFunction(c.name)]))
  {
  }

  /**
   * Failing map methods are contained: a batch of ordinary calls always completes, and the map
   * receives every call whose name it has, in order, whether or not earlier ones threw.
   */
  lemma {:induction false} OrdinaryCallsAllInvoked(m: MapSurface, s: State, cs: seq<Call>)
    requires forall i | 0 <= i < |cs| :: cs[i].name !in SpecialMethods
    ensures DispatchAll(m, s, cs).Done?
    ensures DispatchAll(m, s, cs).state.invoked == s.invoked + Invocations(m, cs)
    ensures DispatchAll(m, s, cs).state.registry == s.registry
    ensures DispatchAll(m, s, cs).state.attached == s.attached
    decreases |cs|
  {
    if cs != [] {
      OrdinaryCallsAllInvoked(m, s, cs[..|cs| - 1]);
    }
  }

  /** The invocations a batch of ordinary calls makes on the map. */
  function Invocations(m: MapSurface, cs: seq<Call>): seq<Invocation>
    decreases |cs|
  {
    if cs == [] then []
    else
      var c := cs[|cs| - 1];
      Invocations(m, cs[..|cs| - 1]) +
        (if c.name in m.methods then [Invocation(c.name, c.args.GetOr([]))] else [])
  }

  // ---------------------------------------------------------------------------------------
  // The control registry

  /**
   * Adding a control of a known type registers it under the RAW type string, and only
   * when the map accepts it; an unknown type or a refused control leaves registry and map alone.
   */
  lemma AddControlRegistersRawType(m: MapSurface, s: State, t: string, position: Option<Value>,
                                   options: Option<Value>)
    ensures var r := AddControl(m, s, Some(Str(t)), position, options);
      && r.Done?
      && (KindOf(t).None? ==> OnlyLogged(s, r.state))
      && (KindOf(t).Some? ==>
            var c := Builtin(s.nextId, KindOf(t).value, position.GetOr(Str("top-right")), options.GetOr(Obj(map[])));
            if m.refuses(c) then r.state.registry == s.registry && r.state.attached == s.attached
            else r.state.registry == s.registry[t := c] && r.state.attached == s.attached + [c])
  {
  }

  /** Re-adding a registered type overwrites the entry, and the earlier control stays on the map. */
  lemma ReAddKeepsEarlierControl(m: MapSurface, s: State, t: string, position: Option<Value>,
                                 options: Option<Value>)
    requires Valid(s) && t in s.registry
    requires var r := AddControl(m, s, Some(Str(t)), position, options);
      r.Done? && r.state.registry != s.registry
    ensures var r := AddControl(m, s, Some(Str(t)), position, options);
      && s.registry[t] in r.state.attached
      && r.state.registry[t] != s.registry[t]
  {
  }

  /** Removing a registered type detaches exactly its control and deletes exactly that key. */
  lemma RemoveRegisteredControl(s: State, t: string)
    requires Valid(s) && t in s.registry
    ensures var r := RemoveControl(s, Some(Str(t)));
      && r.registry == s.registry - {t}
      && r.attached == Without(s.attached, s.registry[t])
      && s.registry[t] !in r.attached
      && (forall k | k in r.registry :: r.registry[k] in r.attached)
  {
  }

  /** Removing a type that is not registered changes nothing but the log. */
  lemma RemoveUnregisteredIsNoop(s: State, controlType: Option<Value>)
    requires !(controlType.Some? && controlType.value.Str? && controlType.value.s in s.registry)
    ensures RemoveControl(s, controlType) == Log(s, ControlNotFound(controlType))
  {
  }

  /**
   * `removeControl("draw")` finds the draw tool too (it is registered under "draw") and
   * detaches it, but leaves the five draw fields as they were: only `removeDrawControl` resets them.
   */
  lemma RemoveControlDrawKeepsFields(s: State)
    requires "draw" in s.registry
    ensures var r := RemoveControl(s, Some(Str("draw")));
      "draw" !in r.registry && s.registry["draw"] !in r.attached && r.fields == s.fields
  {
  }

  /** Adding a control of a new known type and then removing it restores registry and map. */
  lemma AddThenRemoveRestores(m: MapSurface, s: State, t: string, position: Option<Value>,
                              options: Option<Value>)
    requires Valid(s) && t !in s.registry
    ensures var r := AddControl(m, s, Some(Str(t)), position, options).state;
      var u := RemoveControl(r, Some(Str(t)));
      u.registry == s.registry && u.attached == s.attached
  {
    var r := AddControl(m, s, Some(Str(t)), position, options).state;
    if KindOf(t).Some? {
      var c := Builtin(s.nextId, KindOf(t).value, position.GetOr(Str("top-right")), options.GetOr(Obj(map[])));
      if !m.refuses(c) {
        assert c !in s.attached;
        WithoutAppended(s.attached, c);
        assert r.registry - {t} == s.registry;
      }
    }
  }

  /**
   * The registry is keyed by the raw type: after adding "NavigationControl", removing
   * "navigation" finds nothing, and the control stays registered and attached.
   */
  lemma NormalisedNameDoesNotRemove(m: MapSurface, s: State, position: Option<Value>, options: Option<Value>)
    requires "navigation" !in s.registry
    ensures var r := AddControl(m, s, Some(Str("NavigationControl")), position, options).state;
      RemoveControl(r, Some(Str("navigation"))) == Log(r, ControlNotFound(Some(Str("navigation"))))
  {
    NavigationControlIsNavigation();
  }

  // ---------------------------------------------------------------------------------------
  // The draw tool

  /** A draw tool the map accepts is registered under "draw" with the merged options. */
  lemma AddDrawControlRegisters(m: MapSurface, s: State, options: Option<Value>, controls: Option<Value>,
                                position: Option<Value>, geojson: Option<Value>)
    ensures var d := DrawTool(s.nextId, position.GetOr(Str("top-right")), DrawOptions(options, controls));
      var r := AddDrawControl(m, s, options, controls, position, geojson);
      && (m.refuses(d) ==> r.registry == s.registry && r.attached == s.attached && r.drawStore == s.drawStore)
      && (!m.refuses(d) ==> r.registry == s.registry["draw" := d] && r.attached == s.attached + [d])
  {
  }

  /** The initial geojson's features become the draw tool's features and the collection field. */
  lemma AddDrawControlSeeds(m: MapSurface, s: State, options: Option<Value>, controls: Option<Value>,
                            position: Option<Value>, fs: seq<Value>)
    requires !m.refuses(DrawTool(s.nextId, position.GetOr(Str("top-right")), DrawOptions(options, controls)))
    ensures var g := Obj(map["type" := Str("FeatureCollection"), "features" := Arr(fs)]);
      var r := AddDrawControl(m, s, options, controls, position, Some(g));
      r.drawStore == fs && r.fields.all == fs
  {
  }

  /** With a draw tool, removing it deletes "draw" and resets the five fields; without, nothing changes. */
  lemma RemoveDrawControlResets(s: State)
    ensures var r := RemoveDrawControl(s);
      && ("draw" in s.registry ==>
            r.registry == s.registry - {"draw"} && r.fields == EmptyDrawFields && r.drawStore == []
            && r.attached == Without(s.attached, s.registry["draw"]))
      && ("draw" !in s.registry ==> OnlyLogged(s, r))
  {
  }

  /**
   * Deleting all features acts exactly when a draw tool is registered and holds a feature;
   * then all prior features are recorded as deleted and none remain.
   */
  lemma DeleteAllActsOnlyWithFeatures(s: State)
    ensures var r := DeleteAllDrawFeatures(s);
      && (("draw" in s.registry && |s.drawStore| > 0) ==>
            r.fields.deleted == s.drawStore && r.drawStore == [] && r.fields.all == []
            && r.registry == s.registry && r.attached == s.attached)
      && (!("draw" in s.registry && |s.drawStore| > 0) ==> OnlyLogged(s, r))
  {
  }

  // ---------------------------------------------------------------------------------------
  // The invariant is kept

  lemma LogKeepsValid(s: State, d: Diagnostic)
    requires Valid(s)
    ensures Valid(Log(s, d))
  {
  }

  /** "draw" is no control type, so `addControl` never overwrites the draw tool's entry. */
  lemma DrawIsNoControlType()
    ensures KindOf("draw").None?
  {
    assert ToLower("draw") == "draw";
    assert forall j | 0 <= j <= 4 :: !OccursAt("draw", "control", j);
  }

  lemma AttachControlKeepsValid(m: MapSurface, s: State, t: string, kind: Option<ControlKind>,
                                position: Option<Value>, options: Option<Value>)
    requires Valid(s) && (kind.Some? ==> RegisteredUnder(t, Builtin(s.nextId, kind.value, Null, Null)))
    ensures Valid(AttachControl(m, s, t, kind, position, options))
  {
    var r := AttachControl(m, s, t, kind, position, options);
    if kind.Some? {
      var c := Builtin(s.nextId, kind.value, position.GetOr(Str("top-right")), options.GetOr(Obj(map[])));
      if !m.refuses(c) {
        assert r.registry == s.registry[t := c] && r.attached == s.attached + [c] && r.nextId == s.nextId + 1;
        forall k | k in r.registry ensures r.registry[k] in r.attached && RegisteredUnder(k, r.registry[k]) {
          if k != t { assert r.registry[k] == s.registry[k]; }
        }
        forall k1, k2 | k1 in r.registry && k2 in r.registry && k1 != k2
          ensures r.registry[k1].id != r.registry[k2].id
        {
          if k1 != t && k2 != t {
            assert r.registry[k1] == s.registry[k1] && r.registry[k2] == s.registry[k2];
          }
        }
      }
    }
  }

  lemma AddControlKeepsValid(m: MapSurface, s: State, controlType: Option<Value>,
                             position: Option<Value>, options: Option<Value>)
    requires Valid(s)
    ensures Valid(AddControl(m, s, controlType, position, options).state)
  {
    if controlType.Some? && controlType.value.Str? {
      var t := controlType.value.s;
      DrawIsNoControlType();
      var kind := KindOf(t);
      assert kind.Some? ==> RegisteredUnder(t, Builtin(s.nextId, kind.value, Null, Null));
      AttachControlKeepsValid(m, s, t, kind, position, options);
    }
  }

  lemma RemoveControlKeepsValid(s: State, controlType: Option<Value>)
    requires Valid(s)
    ensures Valid(RemoveControl(s, controlType))
  {
    if controlType.Some? && controlType.value.Str? && controlType.value.s in s.registry {
      var r := RemoveControl(s, controlType);
      var gone := s.registry[controlType.value.s];
      forall k | k in r.registry ensures r.registry[k] in r.attached {
        assert r.registry[k] == s.registry[k] && r.registry[k].id != gone.id;
      }
    }
  }

  /** Seeding touches only the draw features, the draw fields and the log. */
  lemma SeedKeepsRegistry(s: State, geojson: Option<Value>)
    ensures var r := Seed(s, geojson);
      r.registry == s.registry && r.attached == s.attached && r.nextId == s.nextId
  {
  }

  lemma AttachDrawKeepsValid(m: MapSurface, s: State, d: Control, geojson: Option<Value>)
    requires Valid(s) && d.DrawTool? && d.id == s.nextId
    ensures Valid(AttachDraw(m, s, d, geojson))
  {
    var s1 := s.(nextId := s.nextId + 1);
    if m.refuses(d) {
      assert AttachDraw(m, s, d, geojson) == Log(s1, FailedToAddDrawControl);
    } else {
      var s2 := s1.(attached := s1.attached + [d], registry := s1.registry["draw" := d], drawStore := []);
      assert Valid(s2) by {
        forall k1, k2 | k1 in s2.registry && k2 in s2.registry && k1 != k2
          ensures s2.registry[k1].id != s2.registry[k2].id
        {
          if k1 != "draw" && k2 != "draw" {
            assert s2.registry[k1] == s.registry[k1] && s2.registry[k2] == s.registry[k2];
          }
        }
      }
      var s3 := Log(s2, AddedDrawControl);
      SeedKeepsRegistry(s3, geojson);
      assert AttachDraw(m, s, d, geojson) == Seed(s3, geojson);
    }
  }

  lemma AddDrawControlKeepsValid(m: MapSurface, s: State, options: Option<Value>, controls: Option<Value>,
                                 position: Option<Value>, geojson: Option<Value>)
    requires Valid(s)
    ensures Valid(AddDrawControl(m, s, options, controls, position, geojson))
  {
    AttachDrawKeepsValid(m, s, NewDrawTool(s, options, controls, position), geojson);
  }

  lemma RemoveDrawControlKeepsValid(s: State)
    requires Valid(s)
    ensures Valid(RemoveDrawControl(s))
  {
    if "draw" in s.registry {
      var r := RemoveDrawControl(s);
      var gone := s.registry["draw"];
      forall k | k in r.registry ensures r.registry[k] in r.attached {
        assert r.registry[k] == s.registry[k] && r.registry[k].id != gone.id;
      }
    }
  }

  lemma {:induction false} DispatchKeepsValid(m: MapSurface, s: State, c: Call)
    requires Valid(s)
    ensures Valid(Dispatch(m, s, c).state)
  {
    var s1 := Log(s, CallingMethod(c));
    LogKeepsValid(s, CallingMethod(c));
    if c.name == "addControl" {
      if c.args.Some? {
        var a := c.args.value;
        AddControlKeepsValid(m, s1, Arg(a, 0), Arg(a, 1), Arg(a, 2));
        assert Dispatch(m, s, c) == AddControl(m, s1, Arg(a, 0), Arg(a, 1), Arg(a, 2));
      }
    } else if c.name == "removeControl" {
      if c.args.Some? {
        RemoveControlKeepsValid(s1, Arg(c.args.value, 0));
        assert Dispatch(m, s, c) == Done(RemoveControl(s1, Arg(c.args.value, 0)));
      }
    } else if c.name == "addDrawControl" {
      if c.args.Some? {
        var a := c.args.value;
        AddDrawControlKeepsValid(m, s1, Arg(a, 0), Arg(a, 1), Arg(a, 2), Arg(a, 3));
        assert Dispatch(m, s, c) == Done(AddDrawControl(m, s1, Arg(a, 0), Arg(a, 1), Arg(a, 2), Arg(a, 3)));
      }
    } else if c.name == "removeDrawControl" {
      RemoveDrawControlKeepsValid(s1);
      assert Dispatch(m, s, c) == Done(RemoveDrawControl(s1));
    } else if c.name == "drawFeaturesDeleteAll" {
      assert Dispatch(m, s, c) == Done(DeleteAllDrawFeatures(s1));
    } else {
      assert Dispatch(m, s, c) == Done(Invoke(m, s1, c.name, c.args));
    }
  }

  lemma {:induction false} DispatchAllKeepsValid(m: MapSurface, s: State, cs: seq<Call>)
    requires Valid(s)
    ensures Valid(DispatchAll(m, s, cs).state)
    decreases |cs|
  {
    if cs != [] {
      DispatchAllKeepsValid(m, s, cs[..|cs| - 1]);
      match DispatchAll(m, s, cs[..|cs| - 1])
      case Threw(t) =>
      case Done(t) => DispatchKeepsValid(m, t, cs[|cs| - 1]);
    }
  }

  /** Every `calls` change, completed or interrupted, keeps the registry invariant. */
  lemma HandleCallsKeepsValid(m: MapSurface, s: State, calls: Option<seq<Call>>)
    requires Valid(s)
    ensures Valid(HandleCalls(m, s, calls).state)
  {
    DispatchAllKeepsValid(m, s, NewCalls(s.cursor, calls.GetOr([])));
  }
}
