/**
 * The basemap module's state: the module-level table of XYZ tile services, which every
 * call of `get_xyz_dict` updates in place through an alias and returns.
 */
module BasemapTable {
  import opened Wrappers
  import opened Text
  import opened Ordered
  import opened BasemapCatalogue

  /** `_unpack_sub_parameters(var, param)`: one attribute lookup per dot-separated segment. */
  method UnpackSubParameters(root: Node, param: string) returns (r: Option<Node>)
    ensures r == Resolve(root, Split(param, '.'))
  {
    var path := Split(param, '.');
    var temp := root;
    for i := 0 to |path|
      invariant Resolve(root, path[..i]) == Some(temp)
    {
      assert path[..i + 1] == path[..i] + [path[i]];
      ResolveAppend(root, path[..i], [path[i]]);
      var next := match temp case Leaf(_) => None case Bunch(ms) => Lookup(ms, path[i]);
      if next.None? {
        // getattr raises: the lookup ends here
        assert path == path[..i + 1] + path[i + 1..];
        ResolveAppend(root, path[..i + 1], path[i + 1..]);
        return None;
      }
      temp := next.value;
    }
    assert path[..|path|] == path;
    return Some(temp);
  }

  class Basemaps {
    /** `xyz_tiles`: the hand-written services, then whatever earlier calls merged in. */
    var xyzTiles: Dict<TileEntry>

    ghost predicate Valid()
      reads this
    {
      TableValid(xyzTiles)
    }

    constructor ()
      ensures xyzTiles == HandWritten
      ensures Valid()
    {
      xyzTiles := HandWritten;
      HandWrittenValid();
    }

    /** The admission of one resolved provider under the token filter. */
    static method Admit(xyzDict: Dict<Provider>, freeOnly: bool, name: string, tile: Provider) returns (r: Dict<Provider>)
      requires Ordered.Valid(xyzDict)
      ensures r == Keep(xyzDict, freeOnly, name, tile)
    {
      r := xyzDict;
      if tile.requiresToken {
        if !freeOnly {
          r := Put(xyzDict, name, tile);
        }
      } else {
        r := Put(xyzDict, name, tile);
      }
    }

    /** The `except` branch: each member of a group is looked up as a provider. */
    static method ScanGroup(root: Node, freeOnly: bool, d0: Dict<Provider>, ms: seq<Member>)
      returns (r: Result<Dict<Provider>, CatalogueError>)
      requires Ordered.Valid(d0)
      ensures r == CollectGroup(root, freeOnly, d0, ms)
    {
      var xyzDict := d0;
      for j := 0 to |ms|
        invariant CollectGroup(root, freeOnly, d0, ms[..j]) == Ok(xyzDict)
      {
        assert ms[..j + 1][..j] == ms[..j];
        match ms[j].node
        case Leaf(p) =>
          var tile := UnpackSubParameters(root, p.name);
          if tile.Some? && tile.value.Leaf? {
            xyzDict := Admit(xyzDict, freeOnly, p.name, tile.value.provider);
          } else {
            CollectGroupPrefixErr(root, freeOnly, d0, ms, j + 1);
            return Err(AttributeError);
          }
        case Bunch(cms) =>
          // a nested group has no provider name to read
          var e := if Lookup(cms, "name").Some? then AttributeError else KeyError("name");
          CollectGroupPrefixErr(root, freeOnly, d0, ms, j + 1);
          return Err(e);
      }
      assert ms[..|ms|] == ms;
      return Ok(xyzDict);
    }

    /** The loop that fills `xyz_dict` from the catalogue's top-level items. */
    static method Scan(catalogue: seq<Member>, freeOnly: bool) returns (r: Result<Dict<Provider>, CatalogueError>)
      ensures r == Collect(Bunch(catalogue), freeOnly, catalogue)
    {
      var root := Bunch(catalogue);
      var xyzDict := Empty<Provider>();
      for i := 0 to |catalogue|
        invariant Collect(root, freeOnly, catalogue[..i]) == Ok(xyzDict)
      {
        assert catalogue[..i + 1][..i] == catalogue[..i];
        match catalogue[i].node
        case Leaf(p) =>
          var tile := UnpackSubParameters(root, p.name);
          if tile.Some? && tile.value.Leaf? {
            xyzDict := Admit(xyzDict, freeOnly, p.name, tile.value.provider);
          } else {
            // the except branch indexes a provider's field as if it were a group
            CollectPrefixErr(root, freeOnly, catalogue, i + 1);
            return Err(TypeError);
          }
        case Bunch(ms) =>
          var g := ScanGroup(root, freeOnly, xyzDict, ms);
          if g.Err? {
            CollectPrefixErr(root, freeOnly, catalogue, i + 1);
            return Err(g.error);
          }
          xyzDict := g.value;
      }
      assert catalogue[..|catalogue|] == catalogue;
      return Ok(xyzDict);
    }

    /**
     * `tiles[item] = {...}` for each key of `order`, writing through the alias `tiles`;
     * `failed` reports that `build_url()` raised, ending the loop.
     */
    method Merge(xyzDict: Dict<Provider>, order: seq<string>) returns (failed: bool)
      requires Ordered.Valid(xyzTiles)
      requires forall i | 0 <= i < |order| :: order[i] in xyzDict.values
      modifies this
      ensures Merged(xyzTiles, failed) == MergeInto(old(xyzTiles), xyzDict, order)
    {
      for k := 0 to |order|
        invariant MergeInto(old(xyzTiles), xyzDict, order[..k]) == Merged(xyzTiles, false)
      {
        assert order[..k + 1][..k] == order[..k];
        var q := xyzDict.values[order[k]];
        var url := q.url;
        if url.None? {
          MergeIntoFails(old(xyzTiles), xyzDict, order[..k]);
          MergeIntoStops(old(xyzTiles), xyzDict, order, k);
          return true;
        }
        var maxZoom := if q.maxZoom.Some? then q.maxZoom.value else 24;
        xyzTiles := Put(xyzTiles, order[k], TileEntry(q.name, url.value, q.attribution, maxZoom));
      }
      assert order[..|order|] == order;
      return false;
    }

    /**
     * `get_xyz_dict(free_only)`: scans the catalogue, merges the kept providers in sorted
     * order into the table and returns the table itself. An exception from the scan escapes
     * before the table is touched; one from `build_url()` escapes after the earlier writes.
     */
    method GetXyzDict(catalogue: seq<Member>, freeOnly: bool) returns (r: Result<Dict<TileEntry>, CatalogueError>)
      requires Valid()
      modifies this
      ensures var spec := BasemapCatalogue.GetXyzDict(old(xyzTiles), catalogue, freeOnly);
        && xyzTiles == spec.table
        && (spec.raised.None? ==> r == Ok(xyzTiles))
        && (spec.raised.Some? ==> r == Err(spec.raised.value))
      ensures Valid()
    {
      GetXyzDictKeepsKeys(xyzTiles, catalogue, freeOnly);
      var scanned := Scan(catalogue, freeOnly);
      if scanned.Err? {
        return Err(scanned.error);
      }
      var xyzDict := scanned.value;
      var order := MergeOrder(xyzDict);
      var failed := Merge(xyzDict, order);
      if failed {
        return Err(BuildUrlError);
      }
      return Ok(xyzTiles);
    }

    /** `get_basemap_list(free_only)`: the keys of the updated table, in order. */
    method GetBasemapList(catalogue: seq<Member>, freeOnly: bool) returns (r: Result<seq<string>, CatalogueError>)
      requires Valid()
      modifies this
      ensures r == BasemapList(old(xyzTiles), catalogue, freeOnly)
      ensures xyzTiles == BasemapCatalogue.GetXyzDict(old(xyzTiles), catalogue, freeOnly).table
      ensures r.Ok? ==> r.value == xyzTiles.keys
      ensures Valid()
    {
      var t := GetXyzDict(catalogue, freeOnly);
      match t
      case Err(e) => r := Err(e);
      case Ok(tiles) => r := Ok(tiles.keys);
    }
  }
}
