/**
 * The specification of the basemap table builder: how the tile-provider catalogue is
 * scanned and filtered, and how its entries are normalised and merged into the
 * module-level table of XYZ tile services.
 */
module BasemapCatalogue {
  import opened Wrappers
  import opened Text
  import opened Ordered

  /** A tile provider as the catalogue describes it. */
  datatype Provider = Provider(
    name: string,
    requiresToken: bool,
    url: Option<string>,  // what `build_url()` returns, or None when it raises
    attribution: string,
    maxZoom: Option<int>)

  /** The catalogue is a tree: a provider, or a named group of members in order. */
  datatype Node = Leaf(provider: Provider) | Bunch(members: seq<Member>)
  datatype Member = Member(key: string, node: Node)

  /** One entry of the tile table: exactly a name, a URL, an attribution and a maximum zoom. */
  datatype TileEntry = TileEntry(name: string, url: string, attribution: string, maxZoom: int)

  /** The exception that escapes `get_xyz_dict`: from the scan, or from `build_url()`. */
  datatype CatalogueError = TypeError | AttributeError | KeyError(key: string) | BuildUrlError

  /** `getattr(group, key)`: the first member with that key. */
  function Lookup(ms: seq<Member>, key: string): (r: Option<Node>)
    ensures r.Some? ==> exists i | 0 <= i < |ms| :: ms[i].key == key && ms[i].node == r.value
    ensures r.None? ==> forall i | 0 <= i < |ms| :: ms[i].key != key
    decreases |ms|
  {
    if ms == [] then None
    else if ms[0].key == key then Some(ms[0].node)
    else Lookup(ms[1..], key)
  }

  /** Following a path of attribute names from `n`, one segment at a time from the left. */
  function Resolve(n: Node, path: seq<string>): Option<Node>
    decreases |path|
  {
    if path == [] then Some(n)
    else match n
      case Leaf(_) => None
      case Bunch(ms) =>
        match Lookup(ms, path[0])
        case None => None
        case Some(child) => Resolve(child, path[1..])
  }

  /** Resolving `p + q` is resolving `p` and then resolving `q` from where `p` led. */
  lemma {:induction false} ResolveAppend(n: Node, p: seq<string>, q: seq<string>)
    ensures Resolve(n, p + q) == match Resolve(n, p) { case None => None case Some(m) => Resolve(m, q) }
    decreases |p|
  {
    if p == [] {
      assert p + q == q;
    } else {
      assert (p + q)[0] == p[0] && (p + q)[1..] == p[1..] + q;
      match n
      case Leaf(_) =>
      case Bunch(ms) =>
        match Lookup(ms, p[0])
        case None =>
        case Some(child) => ResolveAppend(child, p[1..], q);
    }
  }

  /** `_unpack_sub_parameters(xyz, name)` followed by the provider check. */
  function Found(root: Node, name: string): Option<Provider> {
    match Resolve(root, Split(name, '.'))
    case Some(Leaf(q)) => Some(q)
    case _ => None
  }

  /** The token filter: with `free_only`, a provider that requires a token is skipped. */
  predicate Admit(freeOnly: bool, p: Provider) {
    !(freeOnly && p.requiresToken)
  }

  function Keep(d: Dict<Provider>, freeOnly: bool, name: string, q: Provider): (r: Dict<Provider>)
    requires Valid(d)
    ensures Valid(r)
  {
    if Admit(freeOnly, q) then Put(d, name, q) else d
  }

  /** The sub-items of a group without a name, each under the same filter. */
  function CollectGroup(root: Node, freeOnly: bool, d: Dict<Provider>, ms: seq<Member>): (r: Result<Dict<Provider>, CatalogueError>)
    requires Valid(d)
    ensures r.Ok? ==> Valid(r.value)
    decreases |ms|
  {
    if ms == [] then Ok(d)
    else
      match CollectGroup(root, freeOnly, d, ms[..|ms| - 1])
      case Err(e) => Err(e)
      case Ok(d1) =>
        match ms[|ms| - 1].node
        case Leaf(p) =>
          (match Found(root, p.name)
           case Some(q) => Ok(Keep(d1, freeOnly, p.name, q))
           case None => Err(AttributeError))
        case Bunch(cms) =>
          if Lookup(cms, "name").Some? then Err(AttributeError) else Err(KeyError("name"))
  }

  /** One top-level item: a provider is looked up by its name, anything else is a group. */
  function CollectItem(root: Node, freeOnly: bool, d: Dict<Provider>, item: Node): (r: Result<Dict<Provider>, CatalogueError>)
    requires Valid(d)
    ensures r.Ok? ==> Valid(r.value)
  {
    match item
    case Leaf(p) =>
      (match Found(root, p.name)
       case Some(q) => Ok(Keep(d, freeOnly, p.name, q))
       case None => Err(TypeError))
    case Bunch(ms) => CollectGroup(root, freeOnly, d, ms)
  }

  /** The scan that fills `xyz_dict`, over the catalogue's top-level items in order. */
  function Collect(root: Node, freeOnly: bool, items: seq<Member>): (r: Result<Dict<Provider>, CatalogueError>)
    ensures r.Ok? ==> Valid(r.value)
    decreases |items|
  {
    if items == [] then Ok(Empty())
    else
      match Collect(root, freeOnly, items[..|items| - 1])
      case Err(e) => Err(e)
      case Ok(d) => CollectItem(root, freeOnly, d, items[|items| - 1].node)
  }

  /** An exception stops the scan: once a prefix of the items raises, the whole scan raises that. */
  lemma {:induction false} CollectPrefixErr(root: Node, freeOnly: bool, items: seq<Member>, n: nat)
    requires n <= |items| && Collect(root, freeOnly, items[..n]).Err?
    ensures Collect(root, freeOnly, items) == Collect(root, freeOnly, items[..n])
    decreases |items| - n
  {
    if n < |items| {
      assert items[..n + 1][..n] == items[..n];
      CollectPrefixErr(root, freeOnly, items, n + 1);
    } else {
      assert items[..n] == items;
    }
  }

  /** The same within one group. */
  lemma {:induction false} CollectGroupPrefixErr(root: Node, freeOnly: bool, d: Dict<Provider>, ms: seq<Member>, n: nat)
    requires Valid(d) && n <= |ms| && CollectGroup(root, freeOnly, d, ms[..n]).Err?
    ensures CollectGroup(root, freeOnly, d, ms) == CollectGroup(root, freeOnly, d, ms[..n])
    decreases |ms| - n
  {
    if n < |ms| {
      assert ms[..n + 1][..n] == ms[..n];
      CollectGroupPrefixErr(root, freeOnly, d, ms, n + 1);
    } else {
      assert ms[..n] == ms;
    }
  }

  /** The names the scan reads: a top-level provider's, and those of each group's providers. */
  function GroupNames(ms: seq<Member>): seq<string>
    decreases |ms|
  {
    if ms == [] then []
    else GroupNames(ms[..|ms| - 1]) + ItemName(ms[|ms| - 1].node)
  }

  /** The name a group's member contributes: a provider's own, none for a nested group. */
  function ItemName(n: Node): seq<string> {
    match n
    case Leaf(p) => [p.name]
    case Bunch(_) => []
  }

  function ItemNames(item: Node): seq<string> {
    match item
    case Leaf(p) => [p.name]
    case Bunch(ms) => GroupNames(ms)
  }

  function Names(items: seq<Member>): seq<string>
    decreases |items|
  {
    if items == [] then [] else Names(items[..|items| - 1]) + ItemNames(items[|items| - 1].node)
  }

  /** A group's members are all providers that resolve by name. */
  predicate GroupScannable(root: Node, ms: seq<Member>) {
    forall i | 0 <= i < |ms| :: ms[i].node.Leaf? && Found(root, ms[i].node.provider.name).Some?
  }

  /** The scan raises nothing: every provider resolves and no group nests another group. */
  predicate Scannable(root: Node, items: seq<Member>) {
    forall i | 0 <= i < |items| ::
      match items[i].node
      case Leaf(p) => Found(root, p.name).Some?
      case Bunch(ms) => GroupScannable(root, ms)
  }

  /** A name the filter keeps: it resolves, and its provider passes the token filter. */
  predicate Admitted(root: Node, freeOnly: bool, n: string) {
    Found(root, n).Some? && Admit(freeOnly, Found(root, n).value)
  }

  /** `d` holds exactly the admitted names among `ns`, each mapped to the provider it resolves to. */
  ghost predicate Describes(root: Node, freeOnly: bool, ns: seq<string>, d: Dict<Provider>) {
    && (forall n :: n in d.values <==> n in ns && Admitted(root, freeOnly, n))
    && (forall n | n in d.values :: Found(root, n) == Some(d.values[n]))
  }

  /** Keeping one more resolved name extends what the dictionary describes by that name. */
  lemma KeepDescribes(root: Node, freeOnly: bool, ns: seq<string>, d: Dict<Provider>, name: string, q: Provider)
    requires Valid(d) && Describes(root, freeOnly, ns, d) && Found(root, name) == Some(q)
    ensures Describes(root, freeOnly, ns + [name], Keep(d, freeOnly, name, q))
  {
  }

  lemma GroupScannableSnoc(root: Node, ms: seq<Member>)
    requires ms != []
    ensures GroupScannable(root, ms) <==>
      GroupScannable(root, ms[..|ms| - 1]) &&
      ms[|ms| - 1].node.Leaf? && Found(root, ms[|ms| - 1].node.provider.name).Some?
  {
    var init := ms[..|ms| - 1];
    assert forall i | 0 <= i < |init| :: init[i] == ms[i];
  }

  /** A group's scan succeeds exactly when all its members are providers that resolve. */
  lemma {:induction false} CollectGroupSucceeds(root: Node, freeOnly: bool, d0: Dict<Provider>, ms: seq<Member>)
    requires Valid(d0)
    ensures CollectGroup(root, freeOnly, d0, ms).Ok? <==> GroupScannable(root, ms)
    decreases |ms|
  {
    if ms != [] {
      CollectGroupSucceeds(root, freeOnly, d0, ms[..|ms| - 1]);
      GroupScannableSnoc(root, ms);
    }
  }

  /** A group's scan adds exactly its admitted provider names. */
  lemma {:induction false} CollectGroupContents(root: Node, freeOnly: bool, ns: seq<string>, d0: Dict<Provider>, ms: seq<Member>)
    requires Valid(d0) && Describes(root, freeOnly, ns, d0)
    requires CollectGroup(root, freeOnly, d0, ms).Ok?
    ensures Describes(root, freeOnly, ns + GroupNames(ms), CollectGroup(root, freeOnly, d0, ms).value)
    decreases |ms|
  {
    if ms == [] {
      assert ns + GroupNames(ms) == ns;
    } else {
      var init := ms[..|ms| - 1];
      CollectGroupContents(root, freeOnly, ns, d0, init);
      var d := CollectGroup(root, freeOnly, d0, init).value;
      var p := ms[|ms| - 1].node.provider;
      assert ns + GroupNames(ms) == (ns + GroupNames(init)) + [p.name];
      KeepDescribes(root, freeOnly, ns + GroupNames(init), d, p.name, Found(root, p.name).value);
    }
  }

  /** The scan succeeds exactly when every provider resolves and no group nests a group. */
  lemma {:induction false} CollectSucceeds(root: Node, freeOnly: bool, items: seq<Member>)
    ensures Collect(root, freeOnly, items).Ok? <==> Scannable(root, items)
    decreases |items|
  {
    if items != [] {
      var init := items[..|items| - 1];
      CollectSucceeds(root, freeOnly, init);
      ScannableSnoc(root, items);
      match Collect(root, freeOnly, init)
      case Err(_) =>
      case Ok(d) => {
        match items[|items| - 1].node
        case Leaf(p) =>
        case Bunch(ms) => CollectGroupSucceeds(root, freeOnly, d, ms);
      }
    }
  }

  /**
   * After a successful scan `xyz_dict` holds exactly the names read whose provider passes
   * the token filter, each mapped to the provider its name resolves to.
   */
  lemma {:induction false} CollectContents(root: Node, freeOnly: bool, items: seq<Member>)
    requires Collect(root, freeOnly, items).Ok?
    ensures Describes(root, freeOnly, Names(items), Collect(root, freeOnly, items).value)
    decreases |items|
  {
    if items != [] {
      var init := items[..|items| - 1];
      var last := items[|items| - 1].node;
      CollectContents(root, freeOnly, init);
      var d := Collect(root, freeOnly, init).value;
      var d1 := Collect(root, freeOnly, items).value;
      assert d1 == CollectItem(root, freeOnly, d, last).value;
      assert Names(items) == Names(init) + ItemNames(last);
      match last
      case Leaf(p) =>
        KeepDescribes(root, freeOnly, Names(init), d, p.name, Found(root, p.name).value);
      case Bunch(ms) =>
        CollectGroupContents(root, freeOnly, Names(init), d, ms);
    }
  }

  /**
   * The scan succeeds exactly when every provider resolves and no group nests a group; then
   * `xyz_dict` holds exactly the names read whose provider passes the token filter, each
   * mapped to the provider its name resolves to.
   */
  lemma CollectCharacterised(root: Node, freeOnly: bool, items: seq<Member>)
    ensures Collect(root, freeOnly, items).Ok? <==> Scannable(root, items)
    ensures Collect(root, freeOnly, items).Ok? ==>
      var d := Collect(root, freeOnly, items).value;
      && (forall n :: n in d.values <==> n in Names(items) && Admitted(root, freeOnly, n))
      && (forall n | n in d.values :: Found(root, n) == Some(d.values[n]))
  {
    CollectSucceeds(root, freeOnly, items);
    if Collect(root, freeOnly, items).Ok? {
      CollectContents(root, freeOnly, items);
    }
  }

  /** The scan raises nothing on `items` exactly when it raises nothing on all but the last and on the last. */
  lemma ScannableSnoc(root: Node, items: seq<Member>)
    requires items != []
    ensures Scannable(root, items) <==>
      Scannable(root, items[..|items| - 1]) &&
      match items[|items| - 1].node
      case Leaf(p) => Found(root, p.name).Some?
      case Bunch(ms) => GroupScannable(root, ms)
  {
    var init := items[..|items| - 1];
    assert forall i | 0 <= i < |init| :: init[i] == items[i];
  }

  /** With `free_only`, no provider that requires a token is kept. */
  lemma FreeOnlyExcludesTokenProviders(root: Node, items: seq<Member>)
    requires Collect(root, true, items).Ok?
    ensures var d := Collect(root, true, items).value;
      forall n | n in d.values :: !d.values[n].requiresToken
  {
    CollectCharacterised(root, true, items);
  }

  /** Without `free_only`, every provider the scan reads is kept, sub-items of groups included. */
  lemma AllProvidersKept(root: Node, items: seq<Member>)
    requires Collect(root, false, items).Ok?
    ensures var d := Collect(root, false, items).value;
      forall n :: n in d.values <==> n in Names(items)
  {
    CollectCharacterised(root, false, items);
    var d := Collect(root, false, items).value;
    forall n | n in Names(items) ensures n in d.values {
      NamesResolve(root, items, n);
    }
  }

  lemma {:induction false} NamesResolve(root: Node, items: seq<Member>, n: string)
    requires Scannable(root, items) && n in Names(items)
    ensures Found(root, n).Some?
    decreases |items|
  {
    var init := items[..|items| - 1];
    var last := items[|items| - 1];
    assert Scannable(root, init) by {
      forall i | 0 <= i < |init| ensures init[i] == items[i] {}
    }
    if n in Names(init) {
      NamesResolve(root, init, n);
    } else {
      assert n in ItemNames(last.node);
      match last.node
      case Leaf(p) =>
      case Bunch(ms) => GroupNamesResolve(root, ms, n);
    }
  }

  lemma {:induction false} GroupNamesResolve(root: Node, ms: seq<Member>, n: string)
    requires GroupScannable(root, ms) && n in GroupNames(ms)
    ensures Found(root, n).Some?
    decreases |ms|
  {
    var init := ms[..|ms| - 1];
    assert GroupScannable(root, init) by {
      forall i | 0 <= i < |init| ensures init[i] == ms[i] {}
    }
    if n in GroupNames(init) {
      GroupNamesResolve(root, init, n);
    }
  }

  // ---------------------------------------------------------------------------------------
  // Normalising and merging

  /** The entry written for a provider whose URL was built; no maximum zoom gives 24. */
  function ToEntry(q: Provider): TileEntry
    requires q.url.Some?
  {
    TileEntry(q.name, q.url.value, q.attribution, q.maxZoom.GetOr(24))
  }

  /** The table after a run of the write loop, and whether `build_url()` raised in it. */
  datatype Merged = Merged(table: Dict<TileEntry>, failed: bool)

  /** `build_url()` succeeds for the provider of every key of `order`. */
  predicate Builds(d: Dict<Provider>, order: seq<string>)
    requires forall i | 0 <= i < |order| :: order[i] in d.values
  {
    forall i | 0 <= i < |order| :: d.values[order[i]].url.Some?
  }

  /**
   * `tiles[k] = {...}` for each key of `order` in turn, through the alias of the shared
   * table: the loop stops at the first key whose URL cannot be built, and the entries
   * already written stay.
   */
  function MergeInto(tiles: Dict<TileEntry>, d: Dict<Provider>, order: seq<string>): (r: Merged)
    requires Valid(tiles)
    requires forall i | 0 <= i < |order| :: order[i] in d.values
    ensures Valid(r.table)
    decreases |order|
  {
    if order == [] then Merged(tiles, false)
    else
      var m := MergeInto(tiles, d, order[..|order| - 1]);
      var q := d.values[order[|order| - 1]];
      if m.failed || q.url.None? then Merged(m.table, true)
      else Merged(Put(m.table, order[|order| - 1], ToEntry(q)), false)
  }

  /** The merge raises exactly when some provider's URL cannot be built. */
  lemma {:induction false} MergeIntoFails(tiles: Dict<TileEntry>, d: Dict<Provider>, order: seq<string>)
    requires Valid(tiles)
    requires forall i | 0 <= i < |order| :: order[i] in d.values
    ensures MergeInto(tiles, d, order).failed <==> !Builds(d, order)
    decreases |order|
  {
    if order != [] {
      var init := order[..|order| - 1];
      MergeIntoFails(tiles, d, init);
      assert Builds(d, order) <==> Builds(d, init) && d.values[order[|order| - 1]].url.Some? by {
        assert forall i | 0 <= i < |init| :: init[i] == order[i];
      }
    }
  }

  /**
   * At the first key `order[j]` whose URL cannot be built the loop raises, leaving the table
   * as the writes of the keys before it made it.
   */
  lemma {:induction false} MergeIntoStops(tiles: Dict<TileEntry>, d: Dict<Provider>, order: seq<string>, j: nat)
    requires Valid(tiles)
    requires forall i | 0 <= i < |order| :: order[i] in d.values
    requires j < |order| && d.values[order[j]].url.None? && Builds(d, order[..j])
    ensures MergeInto(tiles, d, order) == Merged(MergeInto(tiles, d, order[..j]).table, true)
    decreases |order|
  {
    var init := order[..|order| - 1];
    if j == |order| - 1 {
      MergeIntoFails(tiles, d, init);
    } else {
      assert init[..j] == order[..j] && init[j] == order[j];
      MergeIntoStops(tiles, d, init, j);
    }
  }

  /** The keys of `order` that `existing` lacks, in their order in `order`. */
  function NewKeys(order: seq<string>, existing: set<string>): seq<string>
    decreases |order|
  {
    if order == [] then []
    else
      NewKeys(order[..|order| - 1], existing) +
        (if order[|order| - 1] in existing then [] else [order[|order| - 1]])
  }

  lemma {:induction false} NewKeysMembers(order: seq<string>, existing: set<string>)
    ensures forall k :: k in NewKeys(order, existing) <==> k in order && k !in existing
    decreases |order|
  {
    if order != [] {
      NewKeysMembers(order[..|order| - 1], existing);
      assert order == order[..|order| - 1] + [order[|order| - 1]];
    }
  }

  /**
   * The merge never removes a key and adds only keys it was given; when every URL is built,
   * a key is present afterwards exactly when it was before or was merged.
   */
  lemma {:induction false} MergeIntoHas(tiles: Dict<TileEntry>, d: Dict<Provider>, order: seq<string>, k: string)
    requires Valid(tiles)
    requires forall i | 0 <= i < |order| :: order[i] in d.values
    ensures k in tiles.values ==> k in MergeInto(tiles, d, order).table.values
    ensures k in MergeInto(tiles, d, order).table.values ==> k in tiles.values || k in order
    ensures Builds(d, order) ==> (k in MergeInto(tiles, d, order).table.values <==> k in tiles.values || k in order)
    decreases |order|
  {
    if order != [] {
      var init := order[..|order| - 1];
      assert order == init + [order[|order| - 1]];
      assert Builds(d, order) ==> Builds(d, init) by {
        assert forall i | 0 <= i < |init| :: init[i] == order[i];
      }
      MergeIntoFails(tiles, d, init);
      MergeIntoHas(tiles, d, init, k);
    }
  }

  /**
   * When every URL is built, the merge succeeds, the old keys keep their order and the new
   * keys follow in the order given.
   */
  lemma {:induction false} MergeIntoKeys(tiles: Dict<TileEntry>, d: Dict<Provider>, order: seq<string>)
    requires Valid(tiles) && Distinct(order)
    requires forall i | 0 <= i < |order| :: order[i] in d.values
    requires Builds(d, order)
    ensures !MergeInto(tiles, d, order).failed
    ensures MergeInto(tiles, d, order).table.keys == tiles.keys + NewKeys(order, tiles.values.Keys)
    decreases |order|
  {
    MergeIntoFails(tiles, d, order);
    if order != [] {
      var init := order[..|order| - 1];
      var k := order[|order| - 1];
      assert Distinct(init);
      assert Builds(d, init) by {
        assert forall i | 0 <= i < |init| :: init[i] == order[i];
      }
      MergeIntoKeys(tiles, d, init);
      assert k !in init;
      MergeIntoHas(tiles, d, init, k);
      var r0 := MergeInto(tiles, d, init).table;
      assert MergeInto(tiles, d, order).table == Put(r0, k, ToEntry(d.values[k]));
      assert NewKeys(order, tiles.values.Keys) ==
        NewKeys(init, tiles.values.Keys) + (if k in tiles.values then [] else [k]);
    }
  }

  /**
   * When every URL is built, the merge only inserts or overwrites: every key it is given
   * maps to its normalised provider and every other key keeps its entry.
   */
  lemma {:induction false} MergeIntoValues(tiles: Dict<TileEntry>, d: Dict<Provider>, order: seq<string>)
    requires Valid(tiles)
    requires forall i | 0 <= i < |order| :: order[i] in d.values
    requires Builds(d, order)
    ensures var r := MergeInto(tiles, d, order).table;
      && (forall k | k in order :: k in r.values && r.values[k] == ToEntry(d.values[k]))
      && (forall k | k in tiles.values && k !in order :: k in r.values && r.values[k] == tiles.values[k])
      && r.values.Keys == tiles.values.Keys + (set k | k in order)
    decreases |order|
  {
    if order != [] {
      var init := order[..|order| - 1];
      assert order == init + [order[|order| - 1]];
      assert Builds(d, init) by {
        assert forall i | 0 <= i < |init| :: init[i] == order[i];
      }
      MergeIntoFails(tiles, d, init);
      MergeIntoValues(tiles, d, init);
    }
  }

  /** The new keys of an ascending order are themselves ascending. */
  lemma {:induction false} NewKeysAscending(order: seq<string>, existing: set<string>)
    requires Ascending(order)
    ensures Ascending(NewKeys(order, existing))
    decreases |order|
  {
    if order != [] {
      var init := order[..|order| - 1];
      var k := order[|order| - 1];
      assert Ascending(init);
      NewKeysAscending(init, existing);
      NewKeysMembers(init, existing);
      var r := NewKeys(order, existing);
      var ri := NewKeys(init, existing);
      if k !in existing {
        forall i, j | 0 <= i < j < |r| ensures Less(r[i], r[j]) {
          if j == |r| - 1 {
            assert r[i] == ri[i] && ri[i] in init;
            var p :| 0 <= p < |init| && init[p] == ri[i];
            assert Less(order[p], order[|order| - 1]);
          } else {
            assert r[i] == ri[i] && r[j] == ri[j];
          }
        }
      }
    }
  }

  /** The sorted keys of the scan's dictionary: the order of the write loop. */
  function MergeOrder(d: Dict<Provider>): (order: seq<string>)
    requires Valid(d)
    ensures forall i | 0 <= i < |order| :: order[i] in d.values
  {
    var order := Sort(d.keys);
    assert forall i | 0 <= i < |order| :: order[i] in d.values by {
      forall i | 0 <= i < |order| ensures order[i] in d.values {
        assert order[i] in multiset(order);
      }
    }
    order
  }

  /** The sorted keys are exactly the dictionary's keys, each once, in ascending order. */
  lemma MergeOrderSorted(d: Dict<Provider>)
    requires Valid(d)
    ensures var order := MergeOrder(d);
      && Ascending(order) && Distinct(order)
      && forall k :: k in order <==> k in d.values
  {
    var order := Sort(d.keys);
    forall k ensures k in order <==> k in d.values {
      assert k in order <==> k in multiset(order);
      assert k in d.keys <==> k in multiset(d.keys);
    }
    assert Distinct(order) by {
      forall i, j | 0 <= i < j < |order| ensures order[i] != order[j] {
        LessIrreflexive(order[i]);
      }
    }
  }

  /** What `get_xyz_dict` leaves in the shared table, and the exception it raised, if any. */
  datatype Refresh = Refresh(table: Dict<TileEntry>, raised: Option<CatalogueError>)

  /** The second half of `get_xyz_dict`: the sorted write loop over what the scan kept. */
  function MergeScanned(tiles: Dict<TileEntry>, d: Dict<Provider>): (r: Refresh)
    requires Valid(tiles) && Valid(d)
    ensures Valid(r.table)
  {
    var m := MergeInto(tiles, d, MergeOrder(d));
    Refresh(m.table, if m.failed then Some(BuildUrlError) else None)
  }

  /**
   * `get_xyz_dict(free_only)` applied to the table's current value. The table it returns on
   * success is the shared table itself.
   */
  function GetXyzDict(tiles: Dict<TileEntry>, catalogue: seq<Member>, freeOnly: bool): (r: Refresh)
    requires Valid(tiles)
    ensures Valid(r.table)
  {
    match Collect(Bunch(catalogue), freeOnly, catalogue)
    case Err(e) => Refresh(tiles, Some(e))
    case Ok(d) => MergeScanned(tiles, d)
  }

  /** Every URL along the write order is built exactly when every kept provider's URL is. */
  lemma MergeOrderBuilds(d: Dict<Provider>)
    requires Valid(d)
    ensures Builds(d, MergeOrder(d)) <==> forall k | k in d.values :: d.values[k].url.Some?
  {
    var order := MergeOrder(d);
    MergeOrderSorted(d);
    if Builds(d, order) {
      forall k | k in d.values ensures d.values[k].url.Some? {
        var i :| 0 <= i < |order| && order[i] == k;
      }
    }
  }

  /** A write loop that raises nothing keeps the old keys first and appends the new ones ascending. */
  lemma MergeScannedKeys(tiles: Dict<TileEntry>, d: Dict<Provider>)
    requires Valid(tiles) && Valid(d) && MergeScanned(tiles, d).raised.None?
    ensures var r := MergeScanned(tiles, d).table;
      && |tiles.keys| <= |r.keys| && r.keys[..|tiles.keys|] == tiles.keys
      && Ascending(r.keys[|tiles.keys|..])
  {
    var order := MergeOrder(d);
    MergeOrderSorted(d);
    MergeIntoFails(tiles, d, order);
    MergeIntoKeys(tiles, d, order);
    NewKeysAscending(order, tiles.values.Keys);
    var r := MergeInto(tiles, d, order).table;
    assert r.keys[|tiles.keys|..] == NewKeys(order, tiles.values.Keys);
  }

  /** A write loop that raises nothing writes every kept provider and keeps every other entry. */
  lemma MergeScannedValues(tiles: Dict<TileEntry>, d: Dict<Provider>)
    requires Valid(tiles) && Valid(d) && MergeScanned(tiles, d).raised.None?
    ensures var r := MergeScanned(tiles, d).table;
      && (forall k :: k in r.values <==> k in tiles.values || k in d.values)
      && (forall k | k in d.values :: d.values[k].url.Some? && r.values[k] == ToEntry(d.values[k]))
      && (forall k | k in tiles.values && k !in d.values :: r.values[k] == tiles.values[k])
  {
    var order := MergeOrder(d);
    MergeOrderSorted(d);
    MergeIntoFails(tiles, d, order);
    MergeOrderBuilds(d);
    MergeIntoValues(tiles, d, order);
  }

  /**
   * A write loop that raises nothing keeps every existing key in its place and appends the
   * newly kept providers' names in ascending order; each of them maps to its normalised
   * provider and the table keeps every other entry.
   */
  lemma MergeScannedMerges(tiles: Dict<TileEntry>, d: Dict<Provider>)
    requires Valid(tiles) && Valid(d) && MergeScanned(tiles, d).raised.None?
    ensures var r := MergeScanned(tiles, d).table;
      && |tiles.keys| <= |r.keys| && r.keys[..|tiles.keys|] == tiles.keys
      && Ascending(r.keys[|tiles.keys|..])
      && (forall k :: k in r.values <==> k in tiles.values || k in d.values)
      && (forall k | k in d.values :: d.values[k].url.Some? && r.values[k] == ToEntry(d.values[k]))
      && (forall k | k in tiles.values && k !in d.values :: r.values[k] == tiles.values[k])
  {
    MergeScannedKeys(tiles, d);
    MergeScannedValues(tiles, d);
  }

  /**
   * The write loop raises exactly when some kept provider's URL cannot be built; then the
   * table keeps the writes of the sorted keys before the first such provider, and that
   * provider's key is not written.
   */
  lemma MergeScannedRaises(tiles: Dict<TileEntry>, d: Dict<Provider>)
    requires Valid(tiles) && Valid(d)
    ensures var r := MergeScanned(tiles, d);
      && (r.raised.Some? <==> exists k | k in d.values :: d.values[k].url.None?)
      && (r.raised.Some? ==> r.raised == Some(BuildUrlError))
    ensures var order := MergeOrder(d);
      forall j | 0 <= j < |order| && d.values[order[j]].url.None? && Builds(d, order[..j]) ::
        && MergeScanned(tiles, d).table == MergeInto(tiles, d, order[..j]).table
        && (order[j] in MergeScanned(tiles, d).table.values <==> order[j] in tiles.values)
  {
    var order := MergeOrder(d);
    MergeOrderSorted(d);
    MergeIntoFails(tiles, d, order);
    MergeOrderBuilds(d);
    forall j | 0 <= j < |order| && d.values[order[j]].url.None? && Builds(d, order[..j])
      ensures MergeScanned(tiles, d).table == MergeInto(tiles, d, order[..j]).table
      ensures order[j] in MergeScanned(tiles, d).table.values <==> order[j] in tiles.values
    {
      MergeIntoStops(tiles, d, order, j);
      assert order[j] !in order[..j];
      MergeIntoHas(tiles, d, order[..j], order[j]);
    }
  }

  /** A call that raises nothing merges what the scan kept, as `MergeScannedMerges` states. */
  lemma GetXyzDictMerges(tiles: Dict<TileEntry>, catalogue: seq<Member>, freeOnly: bool)
    requires Valid(tiles) && GetXyzDict(tiles, catalogue, freeOnly).raised.None?
    ensures Collect(Bunch(catalogue), freeOnly, catalogue).Ok?
    ensures var d := Collect(Bunch(catalogue), freeOnly, catalogue).value;
      var r := GetXyzDict(tiles, catalogue, freeOnly).table;
      && |tiles.keys| <= |r.keys| && r.keys[..|tiles.keys|] == tiles.keys
      && Ascending(r.keys[|tiles.keys|..])
      && (forall k :: k in r.values <==> k in tiles.values || k in d.values)
      && (forall k | k in d.values :: d.values[k].url.Some? && r.values[k] == ToEntry(d.values[k]))
      && (forall k | k in tiles.values && k !in d.values :: r.values[k] == tiles.values[k])
  {
    MergeScannedMerges(tiles, Collect(Bunch(catalogue), freeOnly, catalogue).value);
  }

  /**
   * How `get_xyz_dict` raises: an exception from the scan escapes before the table is
   * touched; otherwise the write loop raises as `MergeScannedRaises` states.
   */
  lemma GetXyzDictRaises(tiles: Dict<TileEntry>, catalogue: seq<Member>, freeOnly: bool)
    requires Valid(tiles)
    ensures var scan := Collect(Bunch(catalogue), freeOnly, catalogue);
      && (scan.Err? ==> GetXyzDict(tiles, catalogue, freeOnly) == Refresh(tiles, Some(scan.error)))
      && (scan.Ok? ==> GetXyzDict(tiles, catalogue, freeOnly) == MergeScanned(tiles, scan.value))
    ensures var r := GetXyzDict(tiles, catalogue, freeOnly);
      r.raised.Some? <==> (Collect(Bunch(catalogue), freeOnly, catalogue).Err? ||
        exists k | k in Collect(Bunch(catalogue), freeOnly, catalogue).value.values ::
          Collect(Bunch(catalogue), freeOnly, catalogue).value.values[k].url.None?)
  {
    var scan := Collect(Bunch(catalogue), freeOnly, catalogue);
    if scan.Ok? {
      MergeScannedRaises(tiles, scan.value);
    }
  }

  /** `get_basemap_list(free_only)`: the keys of the table `get_xyz_dict` returns, in order. */
  function BasemapList(tiles: Dict<TileEntry>, catalogue: seq<Member>, freeOnly: bool): Result<seq<string>, CatalogueError>
    requires Valid(tiles)
  {
    var r := GetXyzDict(tiles, catalogue, freeOnly);
    if r.raised.Some? then Err(r.raised.value) else Ok(r.table.keys)
  }

  /**
   * The list starts with the table's earlier keys in their order, then the newly kept
   * providers' names in ascending order, and it names every kept provider.
   */
  lemma BasemapListOrder(tiles: Dict<TileEntry>, catalogue: seq<Member>, freeOnly: bool)
    requires Valid(tiles) && BasemapList(tiles, catalogue, freeOnly).Ok?
    ensures Collect(Bunch(catalogue), freeOnly, catalogue).Ok?
    ensures var l := BasemapList(tiles, catalogue, freeOnly).value;
      var d := Collect(Bunch(catalogue), freeOnly, catalogue).value;
      && |tiles.keys| <= |l| && l[..|tiles.keys|] == tiles.keys
      && Ascending(l[|tiles.keys|..])
      && Distinct(l)
      && (forall k :: k in l <==> k in tiles.values || k in d.values)
  {
    GetXyzDictMerges(tiles, catalogue, freeOnly);
  }

  // ---------------------------------------------------------------------------------------
  // The hand-written table

  const HandWrittenKeys: seq<string> := ["OpenStreetMap", "ROADMAP", "SATELLITE", "TERRAIN", "HYBRID"]

  /** The module-level table before any call: five hand-written services. */
  const HandWritten: Dict<TileEntry> := Dict(HandWrittenKeys, map[
    "OpenStreetMap" := TileEntry("OpenStreetMap", "https://{s}.tile.openstreetmap.org/{z}/{x}/{y}.png", "OpenStreetMap", 24),
    "ROADMAP" := TileEntry("Google Maps", "https://mt1.google.com/vt/lyrs=m&x={x}&y={y}&z={z}", "Google", 24),
    "SATELLITE" := TileEntry("Google Satellite", "https://mt1.google.com/vt/lyrs=s&x={x}&y={y}&z={z}", "Google", 24),
    "TERRAIN" := TileEntry("Google Terrain", "https://mt1.google.com/vt/lyrs=p&x={x}&y={y}&z={z}", "Google", 24),
    "HYBRID" := TileEntry("Google Satellite", "https://mt1.google.com/vt/lyrs=y&x={x}&y={y}&z={z}", "Google", 24)
  ])

  /** The table's invariant: a consistent dictionary that holds the five hand-written keys. */
  ghost predicate TableValid(tiles: Dict<TileEntry>) {
    Valid(tiles) && forall i | 0 <= i < |HandWrittenKeys| :: HandWrittenKeys[i] in tiles.values
  }

  /** The table as first defined satisfies the invariant. */
  lemma HandWrittenValid()
    ensures TableValid(HandWritten)
  {
  }

  /**
   * No call removes a key, whether it raises or not, so the hand-written services are
   * always present.
   */
  lemma GetXyzDictKeepsKeys(tiles: Dict<TileEntry>, catalogue: seq<Member>, freeOnly: bool)
    requires Valid(tiles)
    ensures tiles.values.Keys <= GetXyzDict(tiles, catalogue, freeOnly).table.values.Keys
    ensures TableValid(tiles) ==> TableValid(GetXyzDict(tiles, catalogue, freeOnly).table)
  {
    var scan := Collect(Bunch(catalogue), freeOnly, catalogue);
    if scan.Ok? {
      var d := scan.value;
      forall k | k in tiles.values ensures k in MergeScanned(tiles, d).table.values {
        MergeIntoHas(tiles, d, MergeOrder(d), k);
      }
    }
  }

  /**
   * Because the table is shared, a provider that requires a token and was added by a call
   * without `free_only` is still listed after any later call, one with `free_only` included,
   * even one that raises. (The first call succeeds only if `build_url()` built every kept
   * provider's URL.)
   */
  lemma TokenEntriesPersist(tiles: Dict<TileEntry>, catalogue: seq<Member>, freeOnly: bool, k: string)
    requires Valid(tiles) && GetXyzDict(tiles, catalogue, false).raised.None?
    requires k in Names(catalogue)
    ensures var t1 := GetXyzDict(tiles, catalogue, false).table;
      k in GetXyzDict(t1, catalogue, freeOnly).table.values
  {
    GetXyzDictMerges(tiles, catalogue, false);
    AllProvidersKept(Bunch(catalogue), catalogue);
    var t1 := GetXyzDict(tiles, catalogue, false).table;
    GetXyzDictKeepsKeys(t1, catalogue, freeOnly);
  }
}
