/**
 * The MapLibre widget front end as the object it is: the closures created when the map is
 * initialised share a cursor, a control registry and the model's draw fields, and update
 * them in place. Each method is proved to do what module MapLibreDispatch specifies.
 */
module MapLibreWidget {
  import opened Wrappers
  import opened Json
  import opened MapLibreControls
  import opened MapLibreDispatch

  class Widget {
    /** The live map, as far as the dispatcher can observe it. */
    const liveMap: MapSurface

    var processedCallsCount: nat
    var controlRegistry: map<string, Control>

    // The model's draw fields.
    var drawFeaturesSelected: seq<Value>
    var drawFeatureCollectionAll: seq<Value>
    var drawFeaturesCreated: seq<Value>
    var drawFeaturesUpdated: seq<Value>
    var drawFeaturesDeleted: seq<Value>

    // What the handlers do to the live map, and the diagnostic channel.
    var attached: seq<Control>
    var invoked: seq<Invocation>
    var drawStore: seq<Value>
    var console: seq<Diagnostic>
    var nextId: nat

    /** The abstract value of the front end's state. */
    ghost function State(): MapLibreDispatch.State
      reads this
    {
      MapLibreDispatch.State(
        processedCallsCount, controlRegistry, attached, invoked, drawStore,
        DrawFields(drawFeaturesSelected, drawFeatureCollectionAll, drawFeaturesCreated,
                   drawFeaturesUpdated, drawFeaturesDeleted),
        console, nextId)
    }

    /** `initMap`: an empty registry, the cursor at 0 and the five draw fields initialised. */
    constructor (liveMap: MapSurface)
      ensures this.liveMap == liveMap
      ensures State() == Initial && Valid(State())
    {
      this.liveMap := liveMap;
      processedCallsCount := 0;
      controlRegistry := map[];
      drawFeaturesSelected := [];
      drawFeatureCollectionAll := [];
      drawFeaturesCreated := [];
      drawFeaturesUpdated := [];
      drawFeaturesDeleted := [];
      attached := [];
      invoked := [];
      drawStore := [];
      console := [];
      nextId := 0;
      InitialValid();
    }

    method Warn(d: Diagnostic)
      modifies this
      ensures State() == Log(old(State()), d)
    {
      console := console + [d];
    }

    /** `addControlToMap`; `threw` reports the exception that escapes for a non-string type. */
    method AddControlToMap(controlType: Option<Value>, position: Option<Value>, options: Option<Value>)
      returns (threw: bool)
      modifies this
      ensures var r := AddControl(liveMap, old(State()), controlType, position, options);
        threw == r.Threw? && State() == r.state
    {
      if !(controlType.Some? && controlType.value.Str?) {
        return true;
      }
      threw := false;
      var t := controlType.value.s;
      var kind := KindOf(t);
      AttachControlToMap(t, kind, position, options);
    }

    /** The `switch` result and the `try` block of `addControlToMap`. */
    method AttachControlToMap(t: string, kind: Option<ControlKind>, position: Option<Value>, options: Option<Value>)
      modifies this
      ensures State() == AttachControl(liveMap, old(State()), t, kind, position, options)
    {
      if kind.None? {
        Warn(UnknownControlType(t));
        return;
      }
      var control := Builtin(nextId, kind.value, position.GetOr(Str("top-right")), options.GetOr(Obj(map[])));
      nextId := nextId + 1;
      if liveMap.refuses(control) {
        Warn(FailedToAddControl(t));
      } else {
        attached := attached + [control];
        controlRegistry := controlRegistry[t := control];
        console := console + [AddedControl(t)];
      }
    }

    /** `removeControlFromMap`. */
    method RemoveControlFromMap(controlType: Option<Value>)
      modifies this
      ensures State() == RemoveControl(old(State()), controlType)
    {
      if controlType.Some? && controlType.value.Str? && controlType.value.s in controlRegistry {
        var t := controlType.value.s;
        var control := controlRegistry[t];
        attached := Without(attached, control);
        controlRegistry := controlRegistry - {t};
        console := console + [RemovedControl(t)];
      } else {
        Warn(ControlNotFound(controlType));
      }
    }

    /** `updateDrawFeatures`. */
    method UpdateDrawFeatures()
      modifies this
      ensures State() == RefreshAll(old(State()))
    {
      drawFeatureCollectionAll := drawStore;
    }

    /** `addDrawControlToMap`, including the `forEach` that adds the initial features one by one. */
    method AddDrawControlToMap(options: Option<Value>, controls: Option<Value>,
                               position: Option<Value>, geojson: Option<Value>)
      modifies this
      ensures State() == AddDrawControl(liveMap, old(State()), options, controls, position, geojson)
    {
      var draw := DrawTool(nextId, position.GetOr(Str("top-right")), DrawOptions(options, controls));
      AttachDrawTool(draw, geojson);
    }

    /** The `try` block of `addDrawControlToMap`: attach, register, seed. */
    method AttachDrawTool(draw: Control, geojson: Option<Value>)
      modifies this
      ensures State() == AttachDraw(liveMap, old(State()), draw, geojson)
    {
      nextId := nextId + 1;
      if liveMap.refuses(draw) {
        Warn(FailedToAddDrawControl);
      } else {
        InstallDrawTool(draw);
        SeedDrawFeatures(geojson);
      }
    }

    /** The accepted branch of the `try` block: the draw tool attached and registered, its store still empty. */
    method InstallDrawTool(draw: Control)
      modifies this
      ensures State() == InstallDraw(old(State()), draw)
    {
      attached := attached + [draw];
      controlRegistry := controlRegistry["draw" := draw];
      drawStore := [];
      console := console + [AddedDrawControl];
    }

    /** The initial-geojson branch of `addDrawControlToMap`. */
    method SeedDrawFeatures(geojson: Option<Value>)
      modifies this
      ensures State() == Seed(old(State()), geojson)
    {
      if geojson.Some? && Truthy(geojson.value) {
        var g := geojson.value;
        if Field(g, "type") == Some(Str("FeatureCollection")) {
          var features := Field(g, "features");
          if features.Some? && features.value.Arr? {
            var fs := features.value.items;
            ghost var before := State();
            for i := 0 to |fs|
              invariant State() == before.(drawStore := before.drawStore + fs[..i])
            {
              drawStore := drawStore + [fs[i]];
              assert fs[..i + 1] == fs[..i] + [fs[i]];
            }
            assert fs[..|fs|] == fs;
            UpdateDrawFeatures();
          } else {
            Warn(FailedToAddDrawControl);
          }
        } else if Field(g, "type") == Some(Str("Feature")) {
          drawStore := drawStore + [g];
          UpdateDrawFeatures();
        } else {
          UpdateDrawFeatures();
        }
      }
    }

    /** `removeDrawControlFromMap`. */
    method RemoveDrawControlFromMap()
      modifies this
      ensures State() == RemoveDrawControl(old(State()))
    {
      if "draw" in controlRegistry {
        var draw := controlRegistry["draw"];
        attached := Without(attached, draw);
        controlRegistry := controlRegistry - {"draw"};
        drawStore := [];
        drawFeaturesSelected := [];
        drawFeatureCollectionAll := [];
        drawFeaturesCreated := [];
        drawFeaturesUpdated := [];
        drawFeaturesDeleted := [];
        console := console + [RemovedDrawControl];
      } else {
        Warn(DrawControlNotFound);
      }
    }

    /** `deleteAllDrawFeatures`. */
    method DeleteAllDrawFeaturesOnMap()
      modifies this
      ensures State() == DeleteAllDrawFeatures(old(State()))
    {
      if "draw" in controlRegistry {
        var allFeatures := drawStore;
        if |allFeatures| > 0 {
          drawStore := [];
          drawFeaturesDeleted := allFeatures;
          UpdateDrawFeatures();
          console := console + [DeletedAllDrawFeatures];
        }
      } else {
        Warn(DrawControlNotFound);
      }
    }

    /** The `forEach` callback: route one call; `threw` reports an exception escaping it. */
    method DispatchCall(c: Call) returns (threw: bool)
      modifies this
      ensures var r := Dispatch(liveMap, old(State()), c); threw == r.Threw? && State() == r.state
    {
      console := console + [CallingMethod(c)];
      threw := false;
      if c.name == "addControl" {
        if c.args.None? { return true; }
        var a := c.args.value;
        threw := AddControlToMap(Arg(a, 0), Arg(a, 1), Arg(a, 2));
      } else if c.name == "removeControl" {
        if c.args.None? { return true; }
        RemoveControlFromMap(Arg(c.args.value, 0));
      } else if c.name == "addDrawControl" {
        if c.args.None? { return true; }
        var a := c.args.value;
        AddDrawControlToMap(Arg(a, 0), Arg(a, 1), Arg(a, 2), Arg(a, 3));
      } else if c.name == "removeDrawControl" {
        RemoveDrawControlFromMap();
      } else if c.name == "drawFeaturesDeleteAll" {
        DeleteAllDrawFeaturesOnMap();
      } else if c.name in liveMap.methods {
        var inv := Invocation(c.name, c.args.GetOr([]));
        invoked := invoked + [inv];
        if liveMap.fails(inv) {
          Warn(MethodFailed(c.name));
        }
      } else {
        Warn(NotAFunction(c.name));
      }
    }

    /**
     * The `change:calls` handler: dispatch the calls past the cursor in order, then move the
     * cursor to the list's length. `threw` reports an exception escaping the handler, in which
     * case the cursor stays where it was.
     */
    method OnCallsChange(calls: Option<seq<Call>>) returns (threw: bool)
      modifies this
      ensures var r := HandleCalls(liveMap, old(State()), calls); threw == r.Threw? && State() == r.state
      ensures !threw ==> processedCallsCount == |calls.GetOr([])|
    {
      var list := calls.GetOr([]);
      var newCalls := NewCalls(processedCallsCount, list);
      ghost var s0 := State();
      var i := 0;
      while i < |newCalls|
        invariant 0 <= i <= |newCalls|
        invariant DispatchAll(liveMap, s0, newCalls[..i]) == Done(State())
      {
        DispatchAllStep(liveMap, s0, newCalls, i, State());
        threw := DispatchCall(newCalls[i]);
        if threw {
          DispatchAllPrefixThrows(liveMap, s0, newCalls, i + 1);
          return;
        }
        i := i + 1;
      }
      assert newCalls[..i] == newCalls;
      processedCallsCount := |list|;
      threw := false;
    }
  }
}
