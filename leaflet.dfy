/**
 * The Leaflet widget's Python methods that build a message for the front end. Sending is
 * modelled by returning the message the method would send.
 */
module LeafletMap {
  import opened Wrappers
  import opened Json
  import opened Text
  import opened Ordered
  import opened BasemapCatalogue

  /** A custom message: a JSON object. */
  type Message = map<string, Value>

  datatype AddBasemapError =
    | CatalogueFailed(error: CatalogueError)  // raised by `get_xyz_dict` itself
    | ValueError(message: string)             // the basemap name is not in the table

  const BasemapKeys: set<string> := {"type", "url", "attribution", "maxZoom", "opacity", "name"}

  /** A string's repr, without escaping. */
  function Quote(s: string): string {
    "'" + s + "'"
  }

  /** The items of a list's repr, separated by a comma and a space. */
  function ReprItems(keys: seq<string>): string
    decreases |keys|
  {
    if keys == [] then ""
    else if |keys| == 1 then Quote(keys[0])
    else Quote(keys[0]) + ", " + ReprItems(keys[1..])
  }

  const NotFoundPrefix: string := " not found. It must be one of the following: ["

  /** The text of the `ValueError` for a name that is not in the table. */
  function NotFoundMessage(name: string, keys: seq<string>): string {
    "Basemap " + name + NotFoundPrefix + ReprItems(keys) + "]"
  }

  /** The message for `name` in the table that `get_xyz_dict` returned. */
  function BasemapMessage(xyzTiles: Dict<TileEntry>, name: string, opacity: Value): Result<Message, AddBasemapError> {
    if name in xyzTiles.values then
      var e := xyzTiles.values[name];
      Ok(map[
        "type" := Str("add_basemap"),
        "url" := Str(e.url),
        "attribution" := Str(e.attribution),
        "maxZoom" := Num(e.maxZoom as real),
        "opacity" := opacity,
        "name" := Str(name)])
    else
      Err(ValueError(NotFoundMessage(name, xyzTiles.keys)))
  }

  /**
   * `add_basemap(name, opacity=1.0, **kwargs)`: refreshes the table with
   * `get_xyz_dict()` (free services only) and looks the name up in what it returns.
   */
  function AddBasemap(tiles: Dict<TileEntry>, catalogue: seq<Member>, name: string, opacity: Option<Value>, kwargs: map<string, Value>): Result<Message, AddBasemapError>
    requires Valid(tiles)
  {
    var r := GetXyzDict(tiles, catalogue, true);
    if r.raised.Some? then Err(CatalogueFailed(r.raised.value))
    else BasemapMessage(r.table, name, opacity.GetOr(Num(1.0)))
  }

  /**
   * A name in the refreshed table gives an `add_basemap` message with exactly six keys,
   * carrying that entry's URL, attribution and maximum zoom, the opacity (1.0 when
   * omitted) and the name; the extra keyword arguments play no part.
   */
  lemma AddBasemapFound(tiles: Dict<TileEntry>, catalogue: seq<Member>, name: string, opacity: Option<Value>, kwargs: map<string, Value>)
    requires Valid(tiles) && GetXyzDict(tiles, catalogue, true).raised.None?
    requires name in GetXyzDict(tiles, catalogue, true).table.values
    ensures var e := GetXyzDict(tiles, catalogue, true).table.values[name];
      var r := AddBasemap(tiles, catalogue, name, opacity, kwargs);
      && r.Ok? && r.value.Keys == BasemapKeys
      && r.value["type"] == Str("add_basemap")
      && r.value["url"] == Str(e.url)
      && r.value["attribution"] == Str(e.attribution)
      && r.value["maxZoom"] == Num(e.maxZoom as real)
      && r.value["opacity"] == (if opacity.Some? then opacity.value else Num(1.0))
      && r.value["name"] == Str(name)
      && r == AddBasemap(tiles, catalogue, name, opacity, map[])
  {
    var t := GetXyzDict(tiles, catalogue, true).table;
    BasemapMessageFields(t, name, opacity.GetOr(Num(1.0)));
  }

  /** The fields of the message for a name in the table. */
  lemma BasemapMessageFields(t: Dict<TileEntry>, name: string, opacity: Value)
    requires name in t.values
    ensures var e := t.values[name];
      var r := BasemapMessage(t, name, opacity);
      && r.Ok? && r.value.Keys == BasemapKeys
      && r.value["type"] == Str("add_basemap")
      && r.value["url"] == Str(e.url)
      && r.value["attribution"] == Str(e.attribution)
      && r.value["maxZoom"] == Num(e.maxZoom as real)
      && r.value["opacity"] == opacity
      && r.value["name"] == Str(name)
  {
  }

  /** The repr of `k` occurs somewhere in `s`. */
  ghost predicate Mentions(s: string, k: string) {
    exists j: nat :: OccursAt(s, Quote(k), j)
  }

  /** A key's repr appears in the repr of any list that holds it. */
  lemma {:induction false} ReprItemsNamesEveryKey(keys: seq<string>, i: nat)
    requires i < |keys|
    ensures Mentions(ReprItems(keys), keys[i])
    decreases |keys|
  {
    if |keys| == 1 {
      assert OccursAt(ReprItems(keys), Quote(keys[i]), 0);
    } else if i == 0 {
      var s := ReprItems(keys);
      assert s == Quote(keys[0]) + (", " + ReprItems(keys[1..]));
      assert s[0..|Quote(keys[0])|] == Quote(keys[0]);
      assert OccursAt(s, Quote(keys[0]), 0);
    } else {
      ReprItemsNamesEveryKey(keys[1..], i - 1);
      var j: nat :| OccursAt(ReprItems(keys[1..]), Quote(keys[1..][i - 1]), j);
      OccursWithin(Quote(keys[0]) + ", ", ReprItems(keys[1..]), "", Quote(keys[i]), j);
      assert ReprItems(keys) == Quote(keys[0]) + ", " + ReprItems(keys[1..]) + "";
    }
  }

  /** An occurrence in `s` is an occurrence in `a + s + b`, shifted by `|a|`. */
  lemma OccursWithin(a: string, s: string, b: string, pat: string, j: nat)
    requires OccursAt(s, pat, j)
    ensures OccursAt(a + s + b, pat, |a| + j)
  {
    var t := a + s + b;
    assert t[|a| + j..|a| + j + |pat|] == s[j..j + |pat|];
  }

  /** The `ValueError` text holds the name and the repr of every key of the table. */
  lemma NotFoundMessageNamesKeys(name: string, keys: seq<string>)
    ensures OccursAt(NotFoundMessage(name, keys), name, |"Basemap "|)
    ensures forall i | 0 <= i < |keys| :: Mentions(NotFoundMessage(name, keys), keys[i])
  {
    var m := NotFoundMessage(name, keys);
    var pre := "Basemap " + name + NotFoundPrefix;
    assert m == pre + ReprItems(keys) + "]";
    assert m[|"Basemap "|..|"Basemap "| + |name|] == name;
    forall i | 0 <= i < |keys|
      ensures Mentions(m, keys[i])
    {
      ReprItemsNamesEveryKey(keys, i);
      var j: nat :| OccursAt(ReprItems(keys), Quote(keys[i]), j);
      OccursWithin(pre, ReprItems(keys), "]", Quote(keys[i]), j);
      assert OccursAt(m, Quote(keys[i]), |pre| + j);
    }
  }

  /**
   * A name not in the refreshed table raises `ValueError`, whose text holds the name and the
   * repr of every key of the table.
   */
  lemma AddBasemapNotFound(tiles: Dict<TileEntry>, catalogue: seq<Member>, name: string, opacity: Option<Value>, kwargs: map<string, Value>)
    requires Valid(tiles) && GetXyzDict(tiles, catalogue, true).raised.None?
    requires name !in GetXyzDict(tiles, catalogue, true).table.values
    ensures var t := GetXyzDict(tiles, catalogue, true).table;
      && AddBasemap(tiles, catalogue, name, opacity, kwargs) == Err(ValueError(NotFoundMessage(name, t.keys)))
      && OccursAt(NotFoundMessage(name, t.keys), name, |"Basemap "|)
      && forall i | 0 <= i < |t.keys| :: Mentions(NotFoundMessage(name, t.keys), t.keys[i])
  {
    NotFoundMessageNamesKeys(name, GetXyzDict(tiles, catalogue, true).table.keys);
  }

  /** An exception from `get_xyz_dict` escapes `add_basemap` unchanged. */
  lemma AddBasemapPropagatesCatalogueError(tiles: Dict<TileEntry>, catalogue: seq<Member>, name: string, opacity: Option<Value>, kwargs: map<string, Value>)
    requires Valid(tiles)
    ensures AddBasemap(tiles, catalogue, name, opacity, kwargs).Err? <==>
      GetXyzDict(tiles, catalogue, true).raised.Some? || name !in GetXyzDict(tiles, catalogue, true).table.values
    ensures GetXyzDict(tiles, catalogue, true).raised.Some? ==>
      AddBasemap(tiles, catalogue, name, opacity, kwargs) == Err(CatalogueFailed(GetXyzDict(tiles, catalogue, true).raised.value))
  {
  }

  /** The hand-written services are never removed, so their names are always found. */
  lemma HandWrittenBasemapsFound(tiles: Dict<TileEntry>, catalogue: seq<Member>, i: nat, opacity: Option<Value>, kwargs: map<string, Value>)
    requires TableValid(tiles) && i < |HandWrittenKeys|
    requires GetXyzDict(tiles, catalogue, true).raised.None?
    ensures AddBasemap(tiles, catalogue, HandWrittenKeys[i], opacity, kwargs).Ok?
  {
    GetXyzDictKeepsKeys(tiles, catalogue, true);
  }

  const LayerKeys: set<string> := {"type", "url", "attribution", "maxZoom", "name", "opacity"}

  /**
   * `add_layer(url, name='Layer', attribution='', max_zoom=24, opacity=1.0, **kwargs)`:
   * an omitted argument takes its default; the keyword arguments are dropped.
   */
  function AddLayer(url: Value, name: Option<Value>, attribution: Option<Value>, maxZoom: Option<Value>, opacity: Option<Value>, kwargs: map<string, Value>): Message {
    map[
      "type" := Str("add_layer"),
      "url" := url,
      "attribution" := attribution.GetOr(Str("")),
      "maxZoom" := maxZoom.GetOr(Num(24.0)),
      "name" := name.GetOr(Str("Layer")),
      "opacity" := opacity.GetOr(Num(1.0))]
  }

  /**
   * The `add_layer` message has exactly six keys; each given argument is passed through
   * and each omitted one takes its default, whatever the keyword arguments.
   */
  lemma AddLayerFields(url: Value, name: Option<Value>, attribution: Option<Value>, maxZoom: Option<Value>, opacity: Option<Value>, kwargs: map<string, Value>)
    ensures var r := AddLayer(url, name, attribution, maxZoom, opacity, kwargs);
      && r.Keys == LayerKeys
      && r["type"] == Str("add_layer")
      && r["url"] == url
      && (name.Some? ==> r["name"] == name.value) && (name.None? ==> r["name"] == Str("Layer"))
      && (attribution.Some? ==> r["attribution"] == attribution.value) && (attribution.None? ==> r["attribution"] == Str(""))
      && (maxZoom.Some? ==> r["maxZoom"] == maxZoom.value) && (maxZoom.None? ==> r["maxZoom"] == Num(24.0))
      && (opacity.Some? ==> r["opacity"] == opacity.value) && (opacity.None? ==> r["opacity"] == Num(1.0))
      && r == AddLayer(url, name, attribution, maxZoom, opacity, map[])
  {
  }
}
