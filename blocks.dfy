/**
 * The block-composition engine: registration of blocks and menu items, the
 * per-request route handler that decides, once per block and request,
 * whether a block joins its region, and the `blocks_<region>` helpers that
 * collect a region's blocks, merge their content into clones and order the
 * clones by weight.
 *
 * Route matching and the `loaders` middleware are outside the model: a call
 * of `Request.RunBlockHandler` stands for "this block's route matched and its
 * loaders ran". What a block's filter or content function returns on a call
 * is an input of the operation that calls it.
 */
module Blocks {
  import opened Wrappers
  import opened JsValues

  // ---------------------------------------------------------------------
  // Registration defaults
  // ---------------------------------------------------------------------

  /** The fields `addBlock` fills in when the caller leaves them out. */
  function BlockDefaults(): Fields
  {
    map[
      "path" := Str("*"),
      "region" := Str("right"),
      "loaders" := Arr([]),
      "filter" := Null,
      "weight" := Num(0),
      "content" := Obj(map[])
    ]
  }

  /** Value of `key` in `supplied` when present there, otherwise `fallback`. */
  function Supplied(supplied: Fields, key: string, fallback: Value): Value
  {
    if key in supplied then supplied[key] else fallback
  }

  /**
   * The definition `addBlock` keeps for `block`: every field the caller
   * supplied, and the default for each of the six standard fields it left out.
   */
  function BlockDefinition(block: Fields): (def: Fields)
    ensures def.Keys == block.Keys + {"path", "region", "loaders", "filter", "weight", "content"}
    ensures forall k :: k in block ==> def[k] == block[k]
    ensures def["path"] == Supplied(block, "path", Str("*"))
    ensures def["region"] == Supplied(block, "region", Str("right"))
    ensures def["loaders"] == Supplied(block, "loaders", Arr([]))
    ensures def["filter"] == Supplied(block, "filter", Null)
    ensures def["weight"] == Supplied(block, "weight", Num(0))
    ensures def["content"] == Supplied(block, "content", Obj(map[]))
  {
    Extend(BlockDefaults(), Obj(block))
  }

  /** The fields `addMenuItem` fills in before handing the item to `addBlock`. */
  function MenuItemDefaults(): Fields
  {
    map[
      "_template" := Str("menuItem.jade"),
      "region" := Str("menu"),
      "content" := Obj(map[]),
      "href" := Null,
      "title" := Null
    ]
  }

  /** The item `addMenuItem` passes on: its defaults overridden by the caller's fields. */
  function MenuItem(item: Fields): (r: Fields)
    ensures r.Keys == item.Keys + {"_template", "region", "content", "href", "title"}
    ensures forall k :: k in item ==> r[k] == item[k]
    ensures r["_template"] == Supplied(item, "_template", Str("menuItem.jade"))
    ensures r["region"] == Supplied(item, "region", Str("menu"))
    ensures r["content"] == Supplied(item, "content", Obj(map[]))
    ensures r["href"] == Supplied(item, "href", Null)
    ensures r["title"] == Supplied(item, "title", Null)
  {
    Extend(MenuItemDefaults(), Obj(item))
  }

  /**
   * What a menu item is registered as, part one: the caller's fields win, and
   * the menu defaults fill template, region, content, href and title.
   */
  lemma MenuItemDefinition(item: Fields)
    ensures var def := BlockDefinition(MenuItem(item));
      && (forall k :: k in item ==> def[k] == item[k])
      && def["_template"] == Supplied(item, "_template", Str("menuItem.jade"))
      && def["region"] == Supplied(item, "region", Str("menu"))
      && def["content"] == Supplied(item, "content", Obj(map[]))
      && def["href"] == Supplied(item, "href", Null)
      && def["title"] == Supplied(item, "title", Null)
  {
    var m := MenuItem(item);
    var def := BlockDefinition(m);
    forall k | k in {"_template", "region", "content", "href", "title"}
      ensures def[k] == m[k]
    {
    }
  }

  /**
   * What a menu item is registered as, part two: `addBlock` fills path,
   * loaders, filter and weight unless the caller supplied them.
   */
  lemma MenuItemBlockDefaults(item: Fields)
    ensures var def := BlockDefinition(MenuItem(item));
      && def["path"] == Supplied(item, "path", Str("*"))
      && def["loaders"] == Supplied(item, "loaders", Arr([]))
      && def["filter"] == Supplied(item, "filter", Null)
      && def["weight"] == Supplied(item, "weight", Num(0))
  {
    var m := MenuItem(item);
    forall k | k in {"path", "loaders", "filter", "weight"}
      ensures (k in m <==> k in item) && (k in item ==> m[k] == item[k])
    {
    }
  }

  // ---------------------------------------------------------------------
  // Registry
  // ---------------------------------------------------------------------

  /** A registered block: the id `_.uniqueId()` gave it and its definition. */
  datatype Registered = Registered(id: nat, def: Fields)

  /** Distinct registrations carry distinct ids. */
  ghost predicate DistinctIds(blocks: seq<Registered>)
  {
    NoDuplicates(Ids(blocks))
  }

  /** The ids of the registered blocks, in registration order. */
  function Ids(blocks: seq<Registered>): (ids: seq<nat>)
    ensures |ids| == |blocks|
    ensures forall i :: 0 <= i < |blocks| ==> ids[i] == blocks[i].id
  {
    seq(|blocks|, i requires 0 <= i < |blocks| => blocks[i].id)
  }

  /** The blocks registered so far and the id counter behind `_.uniqueId()`. */
  class Registry {
    var blocks: seq<Registered>
    var nextId: nat

    /** Ids grow with registration order and stay below the counter. */
    ghost predicate Valid()
      reads this
    {
      && (forall i :: 0 <= i < |blocks| ==> blocks[i].id < nextId)
      && (forall i, j :: 0 <= i < j < |blocks| ==> blocks[i].id < blocks[j].id)
    }

    constructor ()
      ensures Valid()
      ensures blocks == [] && nextId == 0
    {
      blocks := [];
      nextId := 0;
    }

    /** Valid registries never give two blocks the same id. */
    lemma IdsAreDistinct()
      requires Valid()
      ensures DistinctIds(blocks)
    {
    }

    /** `addBlock`: fill in defaults, take a fresh id, keep the block. */
    method AddBlock(block: Fields)
      requires Valid()
      modifies this
      ensures Valid()
      ensures blocks == old(blocks) + [Registered(old(nextId), BlockDefinition(block))]
      ensures forall i :: 0 <= i < |old(blocks)| ==> old(blocks)[i].id != blocks[|blocks| - 1].id
    {
      var def := BlockDefinition(block);
      var id := nextId;
      nextId := nextId + 1;
      blocks := blocks + [Registered(id, def)];
    }

    /** `addMenuItem`: fill in menu defaults, then register as `addBlock` does. */
    method AddMenuItem(item: Fields)
      requires Valid()
      modifies this
      ensures Valid()
      ensures blocks == old(blocks) + [Registered(old(nextId), BlockDefinition(MenuItem(item)))]
      ensures forall i :: 0 <= i < |old(blocks)| ==> old(blocks)[i].id != blocks[|blocks| - 1].id
    {
      AddBlock(MenuItem(item));
    }
  }

  // ---------------------------------------------------------------------
  // Per-request handler
  // ---------------------------------------------------------------------

  /** A `blocks:<region>` listener: it pushes a clone of `block` when fired. */
  datatype Listener = Listener(id: nat, block: Fields)

  /** The region a definition names: its listeners are kept under this key. */
  function Region(def: Fields): Value
  {
    Get(def, "region")
  }

  /** The listeners attached under `key`, in attachment order. */
  function ListenersFor(listeners: map<Value, seq<Listener>>, key: Value): (ls: seq<Listener>)
    ensures key !in listeners ==> ls == []
  {
    if key in listeners then listeners[key] else []
  }

  /** `req.on('blocks:' + region, ...)`: one more listener, at the end of its region's list. */
  function Attach(listeners: map<Value, seq<Listener>>, l: Listener): (r: map<Value, seq<Listener>>)
    ensures r.Keys == listeners.Keys + {Region(l.block)}
    ensures r[Region(l.block)] == ListenersFor(listeners, Region(l.block)) + [l]
    ensures forall k :: k in listeners && k != Region(l.block) ==> r[k] == listeners[k]
  {
    listeners[Region(l.block) := ListenersFor(listeners, Region(l.block)) + [l]]
  }

  /** The block's filter is a function and this call of it returned a falsy value. */
  predicate FilterRejects(def: Fields, filterResult: Value)
  {
    IsFunction(Get(def, "filter")) && !Truthy(filterResult)
  }

  /**
   * A block registered without a filter keeps the default `null`, so no
   * filter result can reject it: its handler always attaches a listener.
   */
  lemma DefaultFilterNeverRejects(block: Fields, filterResult: Value)
    requires "filter" !in block
    ensures !FilterRejects(BlockDefinition(block), filterResult)
  {
  }

  /** No id occurs twice. */
  predicate NoDuplicates(ids: seq<nat>)
  {
    forall i, j :: 0 <= i < j < |ids| ==> ids[i] != ids[j]
  }

  /**
   * The invariant of the per-request state: each id is recorded once; every
   * listener belongs to a recorded, unrejected block, sits under that
   * block's own region, and no block has two listeners.
   */
  ghost predicate HandlerState(loaded: seq<nat>, listeners: map<Value, seq<Listener>>, rejected: set<nat>)
  {
    && NoDuplicates(loaded)
    && (forall id :: id in rejected ==> id in loaded)
    && (forall r, i :: r in listeners && 0 <= i < |listeners[r]| ==>
          && listeners[r][i].id in loaded
          && listeners[r][i].id !in rejected
          && Region(listeners[r][i].block) == r)
    && (forall r1, i, r2, j ::
          && r1 in listeners && 0 <= i < |listeners[r1]|
          && r2 in listeners && 0 <= j < |listeners[r2]|
          && (r1 != r2 || i != j)
          ==> listeners[r1][i].id != listeners[r2][j].id)
  }

  /** Recording a new id and attaching its listener keeps the invariant. */
  lemma AttachKeepsHandlerState(loaded: seq<nat>, listeners: map<Value, seq<Listener>>,
                                rejected: set<nat>, l: Listener)
    requires HandlerState(loaded, listeners, rejected)
    requires l.id !in loaded
    ensures HandlerState(loaded + [l.id], Attach(listeners, l), rejected)
  {
    var loaded': seq<nat> := loaded + [l.id];
    var listeners': map<Value, seq<Listener>> := Attach(listeners, l);
    var key := Region(l.block);
    forall r, i | r in listeners' && 0 <= i < |listeners'[r]|
      ensures listeners'[r][i].id in loaded' && listeners'[r][i].id !in rejected
      ensures Region(listeners'[r][i].block) == r
    {
      if r == key && i == |listeners'[r]| - 1 {
        assert listeners'[r][i] == l;
      } else {
        assert listeners'[r][i] == listeners[r][i];
      }
    }
    forall r1, i, r2, j |
      && r1 in listeners' && 0 <= i < |listeners'[r1]|
      && r2 in listeners' && 0 <= j < |listeners'[r2]|
      && (r1 != r2 || i != j)
      ensures listeners'[r1][i].id != listeners'[r2][j].id
    {
      var new1 := r1 == key && i == |listeners'[r1]| - 1;
      var new2 := r2 == key && j == |listeners'[r2]| - 1;
      if !new1 {
        assert listeners'[r1][i] == listeners[r1][i];
      }
      if !new2 {
        assert listeners'[r2][j] == listeners[r2][j];
      }
    }
  }

  /** The per-request state the block handlers share. */
  class Request {
    /** `req.blocksLoaded`: ids of the blocks whose handler has done its work. */
    var blocksLoaded: seq<nat>
    /** The `blocks:<region>` listeners, per region, in attachment order. */
    var listeners: map<Value, seq<Listener>>
    /** Ids whose filter rejected the block on this request. */
    ghost var rejected: set<nat>

    /**
     * Each id is recorded once; every listener belongs to a recorded,
     * unrejected block, sits under that block's own region, and no block
     * has two listeners.
     */
    ghost predicate Valid()
      reads this
    {
      HandlerState(blocksLoaded, listeners, rejected)
    }

    constructor ()
      ensures Valid()
      ensures blocksLoaded == [] && listeners == map[] && rejected == {}
    {
      blocksLoaded := [];
      listeners := map[];
      rejected := {};
    }

    /**
     * The route handler `addBlock` installs for `entry`, run once its route
     * matched; `filterResult` is what the block's filter returns if it is
     * called. Returns whether the filter was called.
     */
    method RunBlockHandler(entry: Registered, filterResult: Value) returns (filterCalled: bool)
      requires Valid()
      modifies this
      ensures Valid()
      ensures entry.id in blocksLoaded
      ensures filterCalled <==> entry.id !in old(blocksLoaded) && IsFunction(Get(entry.def, "filter"))
      ensures entry.id in old(blocksLoaded) ==>
                blocksLoaded == old(blocksLoaded) && listeners == old(listeners) && rejected == old(rejected)
      ensures entry.id !in old(blocksLoaded) ==> blocksLoaded == old(blocksLoaded) + [entry.id]
      ensures entry.id !in old(blocksLoaded) && FilterRejects(entry.def, filterResult) ==>
                listeners == old(listeners) && rejected == old(rejected) + {entry.id}
      ensures entry.id !in old(blocksLoaded) && !FilterRejects(entry.def, filterResult) ==>
                listeners == Attach(old(listeners), Listener(entry.id, entry.def)) && rejected == old(rejected)
    {
      if entry.id in blocksLoaded {
        return false;
      }
      blocksLoaded := blocksLoaded + [entry.id];
      filterCalled := IsFunction(Get(entry.def, "filter"));
      if filterCalled && !Truthy(filterResult) {
        rejected := rejected + {entry.id};
        return;
      }
      AttachKeepsHandlerState(old(blocksLoaded), listeners, rejected, Listener(entry.id, entry.def));
      listeners := Attach(listeners, Listener(entry.id, entry.def));
    }

    /**
     * `blocks_<region>(req, res)`: fire the region's listeners into a fresh
     * list of clones, merge each clone's content into it, sort by weight.
     * `contentResults(k)` is what the k-th clone's content function returns.
     * Nothing is modified: a later call sees the same listeners again.
     */
    method BlocksFor(region: string, contentResults: nat -> Value) returns (blocks: seq<Fields>)
      ensures |blocks| == |ListenersFor(listeners, Str(region))|
      ensures multiset(blocks) == multiset(Collected(ListenersFor(listeners, Str(region)), contentResults))
      ensures AllNumericWeights(Collected(ListenersFor(listeners, Str(region)), contentResults)) ==>
                SortedByWeight(blocks)
    {
      var ls := ListenersFor(listeners, Str(region));
      // req.emit('blocks:' + region, blocks): each listener pushes a clone
      var clones: seq<Fields> := [];
      for i := 0 to |ls|
        invariant clones == Clones(ls[..i])
      {
        clones := clones + [ls[i].block];
      }
      assert ls[..|ls|] == ls;
      // merge each clone's content into it, in place
      var a := new Fields[|clones|](k requires 0 <= k < |clones| => clones[k]);
      MergeContents(a, ls, contentResults);
      // sort by weight, in place
      SortBy(a, WeightOf);
      blocks := a[..];
    }

    /**
     * A block whose region is not among the configured regions is collected
     * by no helper.
     */
    lemma UnconfiguredRegionNeverCollected(regions: seq<string>, l: Listener)
      requires Valid()
      requires forall region :: region in regions ==> Region(l.block) != Str(region)
      ensures forall region :: region in regions ==> l !in ListenersFor(listeners, Str(region))
    {
      forall region | region in regions
        ensures l !in ListenersFor(listeners, Str(region))
      {
        CollectedBelongToRegion(region);
      }
    }

    /**
     * Calling a helper twice on one request: the listeners stay attached, so
     * the second call collects the same blocks again.
     */
    method BlocksForTwice(region: string, contentResults: nat -> Value)
      returns (first: seq<Fields>, second: seq<Fields>)
      ensures multiset(first) == multiset(second)
      ensures |first| == |second| == |ListenersFor(listeners, Str(region))|
    {
      first := BlocksFor(region, contentResults);
      second := BlocksFor(region, contentResults);
    }

    /**
     * The route of one block matching twice on one request: the second run
     * calls no filter and changes nothing.
     */
    method RunBlockHandlerTwice(entry: Registered, firstResult: Value, secondResult: Value)
      returns (firstCalled: bool, secondCalled: bool)
      requires Valid()
      modifies this
      ensures Valid()
      ensures firstCalled <==> entry.id !in old(blocksLoaded) && IsFunction(Get(entry.def, "filter"))
      ensures !secondCalled
    {
      firstCalled := RunBlockHandler(entry, firstResult);
      ghost var loaded, attached := blocksLoaded, listeners;
      secondCalled := RunBlockHandler(entry, secondResult);
      assert blocksLoaded == loaded && listeners == attached;
    }

    /** The helper for `region` exists only when `region` is configured; it returns `None` otherwise. */
    method RegionHelper(regions: seq<string>, region: string, contentResults: nat -> Value)
      returns (r: Option<seq<Fields>>)
      ensures region !in regions ==> r == None
      ensures region in regions ==>
                && r.Some?
                && multiset(r.value) == multiset(Collected(ListenersFor(listeners, Str(region)), contentResults))
                && (AllNumericWeights(Collected(ListenersFor(listeners, Str(region)), contentResults)) ==>
                      SortedByWeight(r.value))
    {
      if region !in regions {
        return None;
      }
      var blocks := BlocksFor(region, contentResults);
      return Some(blocks);
    }

    /**
     * Every listener a helper fires for `region` belongs to a block whose
     * handler ran on this request, whose filter did not reject it, and whose
     * own region is `region`.
     */
    lemma CollectedBelongToRegion(region: string)
      requires Valid()
      ensures forall l :: l in ListenersFor(listeners, Str(region)) ==>
                Region(l.block) == Str(region) && l.id in blocksLoaded && l.id !in rejected
    {
      forall l | l in ListenersFor(listeners, Str(region))
        ensures Region(l.block) == Str(region) && l.id in blocksLoaded && l.id !in rejected
      {
        var i :| 0 <= i < |listeners[Str(region)]| && listeners[Str(region)][i] == l;
      }
    }
  }

  // ---------------------------------------------------------------------
  // Region configuration
  // ---------------------------------------------------------------------

  /** The regions a helper is made for when `block_regions` is not set. */
  function DefaultRegions(): seq<string>
  {
    ["menu", "header", "footer", "left", "right", "content"]
  }

  /** `app.set('block_regions') || [...]`: a configured list wins, even an empty one. */
  function BlockRegions(configured: Option<seq<string>>): (regions: seq<string>)
    ensures configured.Some? ==> regions == configured.value
    ensures configured.None? ==> regions == ["menu", "header", "footer", "left", "right", "content"]
  {
    if configured.Some? then configured.value else DefaultRegions()
  }

  // ---------------------------------------------------------------------
  // Content merge
  // ---------------------------------------------------------------------

  /** The clones the listeners push, in firing order. */
  function Clones(ls: seq<Listener>): (cs: seq<Fields>)
    ensures |cs| == |ls|
    ensures forall k :: 0 <= k < |ls| ==> cs[k] == ls[k].block
  {
    seq(|ls|, k requires 0 <= k < |ls| => ls[k].block)
  }

  /**
   * `(_.isFunction(block.content) && block.content(req, res)) || block.content`:
   * the content function's result when it is truthy, the content itself otherwise.
   */
  function ContentSource(clone: Fields, result: Value): (r: Value)
    ensures !IsFunction(Get(clone, "content")) ==> r == Get(clone, "content")
    ensures IsFunction(Get(clone, "content")) && Truthy(result) ==> r == result
    ensures IsFunction(Get(clone, "content")) && !Truthy(result) ==> OwnEnumerable(r) == map[]
  {
    var content := Get(clone, "content");
    if IsFunction(content) && Truthy(result) then result else content
  }

  /**
   * `_.extend(clone, ContentSource(...))`: the clone keeps every field, and
   * the fields the content supplies win.
   */
  function Resolve(clone: Fields, result: Value): (r: Fields)
    ensures r.Keys == clone.Keys + OwnEnumerable(ContentSource(clone, result)).Keys
    ensures forall k :: k in clone && k !in OwnEnumerable(ContentSource(clone, result)) ==> r[k] == clone[k]
    ensures IsFunction(Get(clone, "content")) && !Truthy(result) ==> r == clone
    ensures IsFunction(Get(clone, "content")) && Truthy(result) ==>
              forall k :: k in OwnEnumerable(result) ==> r[k] == OwnEnumerable(result)[k]
    ensures !IsFunction(Get(clone, "content")) ==>
              forall k :: k in OwnEnumerable(Get(clone, "content")) ==> r[k] == OwnEnumerable(Get(clone, "content"))[k]
  {
    Extend(clone, ContentSource(clone, result))
  }

  /** The clones of `ls` with their content merged in, before sorting. */
  function Collected(ls: seq<Listener>, contentResults: nat -> Value): (cs: seq<Fields>)
    ensures |cs| == |ls|
    ensures forall k :: 0 <= k < |ls| ==> cs[k] == Resolve(ls[k].block, contentResults(k))
  {
    seq(|ls|, k requires 0 <= k < |ls| => Resolve(ls[k].block, contentResults(k)))
  }

  // ---------------------------------------------------------------------
  // Ordering by weight
  // ---------------------------------------------------------------------

  /** The number `block.weight` converts to, `None` for NaN. */
  function WeightOf(block: Fields): Option<int>
  {
    ToNumber(Get(block, "weight"))
  }

  /** Every element has a numeric key. */
  predicate AllNumeric<T>(s: seq<T>, key: T -> Option<int>)
  {
    forall k :: 0 <= k < |s| ==> key(s[k]).Some?
  }

  /** Both keys are numbers and the first is at most the second. */
  predicate KeyAtMost<T>(key: T -> Option<int>, x: T, y: T)
  {
    key(x).Some? && key(y).Some? && key(x).value <= key(y).value
  }

  /** Non-decreasing numeric keys. */
  predicate SortedBy<T>(s: seq<T>, key: T -> Option<int>)
  {
    forall p, q :: 0 <= p < q < |s| ==> KeyAtMost(key, s[p], s[q])
  }

  /**
   * `key(x) - key(y) > 0`. A NaN difference counts as 0, as a comparator
   * result of `Array.prototype.sort` does.
   */
  predicate ComesAfter<T>(key: T -> Option<int>, x: T, y: T)
  {
    key(x).Some? && key(y).Some? && key(x).value > key(y).value
  }

  predicate AllNumericWeights(s: seq<Fields>)
  {
    AllNumeric(s, WeightOf)
  }

  predicate SortedByWeight(s: seq<Fields>)
  {
    SortedBy(s, WeightOf)
  }

  /** Every element of `a` has a numeric key. */
  ghost predicate NumericArray<T>(a: array<T>, key: T -> Option<int>)
    reads a
  {
    forall k :: 0 <= k < a.Length ==> key(a[k]).Some?
  }

  /** `a[..n]` has non-decreasing numeric keys. */
  ghost predicate SortedPrefix<T>(a: array<T>, key: T -> Option<int>, n: int)
    reads a
    requires 0 <= n <= a.Length
  {
    forall p, q :: 0 <= p < q < n ==> KeyAtMost(key, a[p], a[q])
  }

  /**
   * `.sort(function(a, b) { return a.weight - b.weight })`, in place, with
   * `key` standing for the weight. The result is a permutation; it is ordered
   * by key whenever every key is a number.
   */
  method SortBy<T>(a: array<T>, key: T -> Option<int>)
    modifies a
    ensures multiset(a[..]) == multiset(old(a[..]))
    ensures AllNumeric(old(a[..]), key) ==> SortedBy(a[..], key)
  {
    ghost var numeric := AllNumeric(a[..], key);
    var i := 0;
    while i < a.Length
      invariant 0 <= i <= a.Length
      invariant multiset(a[..]) == multiset(old(a[..]))
      invariant numeric ==> NumericArray(a, key) && SortedPrefix(a, key, i)
    {
      InsertLast(a, key, i, numeric);
      i := i + 1;
    }
  }

  /** One insertion-sort step: move `a[i]` left past every element whose key is larger. */
  method InsertLast<T>(a: array<T>, key: T -> Option<int>, i: int, ghost numeric: bool)
    requires 0 <= i < a.Length
    requires numeric ==> NumericArray(a, key) && SortedPrefix(a, key, i)
    modifies a
    ensures multiset(a[..]) == multiset(old(a[..]))
    ensures numeric ==> NumericArray(a, key) && SortedPrefix(a, key, i + 1)
  {
    var j := i;
    while j > 0 && ComesAfter(key, a[j - 1], a[j])
      invariant 0 <= j <= i
      invariant multiset(a[..]) == multiset(old(a[..]))
      invariant numeric ==> NumericArray(a, key)
      invariant numeric ==> forall p, q :: 0 <= p < q <= i && p != j && q != j ==> KeyAtMost(key, a[p], a[q])
      invariant numeric ==> forall q :: j < q <= i ==> KeyAtMost(key, a[j], a[q])
    {
      Swap(a, j - 1, j);
      j := j - 1;
    }
  }

  /** Exchange two elements; nothing else changes. */
  method Swap<T>(a: array<T>, i: int, j: int)
    requires 0 <= i < j < a.Length
    modifies a
    ensures a[i] == old(a[j]) && a[j] == old(a[i])
    ensures forall k :: 0 <= k < a.Length && k != i && k != j ==> a[k] == old(a[k])
    ensures multiset(a[..]) == multiset(old(a[..]))
  {
    a[i], a[j] := a[j], a[i];
  }

  /** The `_.extend` pass of `blocks_<region>`: resolve each clone's content into it. */
  method MergeContents(a: array<Fields>, ls: seq<Listener>, contentResults: nat -> Value)
    requires a.Length == |ls|
    requires forall k :: 0 <= k < a.Length ==> a[k] == ls[k].block
    modifies a
    ensures a[..] == Collected(ls, contentResults)
  {
    for i := 0 to a.Length
      invariant forall k :: 0 <= k < i ==> a[k] == Resolve(ls[k].block, contentResults(k))
      invariant forall k :: i <= k < a.Length ==> a[k] == ls[k].block
    {
      a[i] := Resolve(a[i], contentResults(i));
    }
  }

}
