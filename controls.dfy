/**
 * The pure parts of the MapLibre widget front end: how a requested control type is
 * normalised and recognised, and how the draw tool's options are merged from defaults.
 */
module MapLibreControls {
  import opened Wrappers
  import opened Json
  import opened Text

  /** The built-in control classes the widget knows how to construct. */
  datatype ControlKind = Navigation | Geolocate | Scale | Fullscreen | Attribution | Globe | Logo | Terrain

  /** The normalised type name that selects each built-in control. */
  function KindName(k: ControlKind): string {
    match k
    case Navigation => "navigation"
    case Geolocate => "geolocate"
    case Scale => "scale"
    case Fullscreen => "fullscreen"
    case Attribution => "attribution"
    case Globe => "globe"
    case Logo => "logo"
    case Terrain => "terrain"
  }

  /** The `switch` over the normalised type: only the eight names build a control. */
  function KindNamed(name: string): Option<ControlKind> {
    if name == "navigation" then Some(Navigation)
    else if name == "geolocate" then Some(Geolocate)
    else if name == "scale" then Some(Scale)
    else if name == "fullscreen" then Some(Fullscreen)
    else if name == "attribution" then Some(Attribution)
    else if name == "globe" then Some(Globe)
    else if name == "logo" then Some(Logo)
    else if name == "terrain" then Some(Terrain)
    else None
  }

  /** The switch recognises exactly the names of the eight kinds, each as its own kind. */
  lemma KindNamedExactly(name: string, k: ControlKind)
    ensures KindNamed(name) == Some(k) <==> name == KindName(k)
  {
  }

  lemma KindNamedNone(name: string)
    ensures KindNamed(name).None? <==> forall k: ControlKind :: name != KindName(k)
  {
    if KindNamed(name).Some? {
      KindNamedExactly(name, KindNamed(name).value);
    }
  }

  /** `controlType.toLowerCase().replace("control", "")`. */
  function Normalize(controlType: string): string {
    ReplaceFirst(ToLower(controlType), "control", "")
  }

  /**
   * Normalisation lower-cases and then drops the first "control" only: with no "control" in
   * the lower-cased type it is returned unchanged, otherwise exactly the first one goes.
   */
  lemma NormalizeRemovesFirst(controlType: string)
    ensures var l := ToLower(controlType);
      && ((forall j | 0 <= j <= |l| :: !OccursAt(l, "control", j)) ==> Normalize(controlType) == l)
      && (forall i | 0 <= i <= |l| && OccursAt(l, "control", i) ::
            (forall j | 0 <= j < i :: !OccursAt(l, "control", j)) ==>
              Normalize(controlType) == l[..i] + l[i + 7..])
  {
    ReplaceFirstSpec(ToLower(controlType), "control", "");
  }

  /** The kind of built-in control a requested type builds, if any. */
  function KindOf(controlType: string): Option<ControlKind> {
    KindNamed(Normalize(controlType))
  }

  /** A lower-cased name `base + "control"` whose base holds no 'c' normalises to its base. */
  lemma NormalizeDropsSuffix(controlType: string, base: string)
    requires ToLower(controlType) == base + "control"
    requires forall j | 0 <= j < |base| :: base[j] != 'c'
    ensures Normalize(controlType) == base
  {
    var l := ToLower(controlType);
    var i := |base|;
    assert l[i..i + 7] == "control";
    forall j | 0 <= j < i ensures !OccursAt(l, "control", j) {
      assert l[j] == base[j];
    }
    FirstOccurrence(l, "control", i);
    assert l[..i] == base;
    assert l[i + 7..] == "";
  }

  /** "NavigationControl" normalises to "navigation" and so builds a navigation control. */
  lemma NavigationControlIsNavigation()
    ensures Normalize("NavigationControl") == "navigation"
    ensures KindOf("NavigationControl") == Some(Navigation)
  {
    assert ToLower("NavigationControl") == "navigation" + "control";
    NormalizeDropsSuffix("NavigationControl", "navigation");
  }

  /** The six draw-tool buttons the widget configures. */
  const DrawButtons: set<string> :=
    {"polygon", "line_string", "point", "trash", "combine_features", "uncombine_features"}

  /** The default buttons: the four drawing ones on, combine/uncombine off. */
  const DefaultDrawControls: map<string, Value> := map[
    "polygon" := Bool(true),
    "line_string" := Bool(true),
    "point" := Bool(true),
    "trash" := Bool(true),
    "combine_features" := Bool(false),
    "uncombine_features" := Bool(false)
  ]

  /** `{ ...defaultControls, ...controls }`. */
  function MergedDrawControls(controls: Option<Value>): map<string, Value> {
    DefaultDrawControls + Spread(controls)
  }

  /** `defaultOptions`: the six buttons are picked one by one out of the merged controls. */
  function DefaultDrawOptions(drawControls: map<string, Value>): map<string, Value>
    requires DrawButtons <= drawControls.Keys
  {
    map[
      "displayControlsDefault" := Bool(false),
      "controls" := Obj(map k | k in DrawButtons :: drawControls[k])
    ]
  }

  /** `{ ...defaultOptions, ...options }`, the options the draw tool is built with. */
  function DrawOptions(options: Option<Value>, controls: Option<Value>): map<string, Value> {
    DefaultDrawOptions(MergedDrawControls(controls)) + Spread(options)
  }

  /**
   * The caller's options override key by key; `displayControlsDefault` defaults to false;
   * unless overridden, `controls` holds exactly the six buttons, each from the caller's
   * controls or else its default.
   */
  lemma DrawOptionsMerge(options: Option<Value>, controls: Option<Value>)
    ensures var r := DrawOptions(options, controls);
      && r.Keys == {"displayControlsDefault", "controls"} + Spread(options).Keys
      && (forall k | k in Spread(options) :: r[k] == Spread(options)[k])
      && ("displayControlsDefault" !in Spread(options) ==> r["displayControlsDefault"] == Bool(false))
      && ("controls" !in Spread(options) ==>
            && r["controls"].Obj?
            && r["controls"].fields.Keys == DrawButtons
            && forall k | k in DrawButtons ::
                 r["controls"].fields[k] == if k in Spread(controls) then Spread(controls)[k] else DefaultDrawControls[k])
  {
  }

  /** With neither options nor controls, the draw tool gets exactly the documented defaults. */
  lemma DrawOptionsDefaults()
    ensures DrawOptions(None, None) ==
      map["displayControlsDefault" := Bool(false), "controls" := Obj(DefaultDrawControls)]
  {
    var r := DrawOptions(None, None);
    assert r["controls"].fields == DefaultDrawControls;
  }

  /**
   * A caller-supplied button outside the six reaches the draw tool only if the caller also
   * replaces the whole `controls` option: the defaults pick the six buttons by name.
   */
  lemma DrawOptionsDropUnknownButtons(options: Option<Value>, controls: Option<Value>, k: string)
    requires k in Spread(controls) && k !in DrawButtons
    requires "controls" !in Spread(options)
    ensures k !in DrawOptions(options, controls)["controls"].fields
  {
    DrawOptionsMerge(options, controls);
  }
}
