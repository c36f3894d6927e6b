/**
 * The style parser object: it walks a parsed style document and fills its
 * tables of constants, sources and layers, then resolves each layer's bucket,
 * following "ref" links between layers with a stack that stops circular
 * references.
 *
 * Layers are shared objects in the parser; here each is identified by its
 * unique id, the key of the `layers` table, and the stack holds ids.
 */
module StyleParser {
  import opened Json
  import opened Bucket
  import opened StyleProperties
  import opened KeyOrder

  /**
   * The fixed part of a `layers` table entry: the layer's JSON definition,
   * its "ref" member (looked up once, when the layer is created; the JSON
   * never changes afterwards) and the id and paints its StyleLayer is created
   * with.  The StyleLayer's two
   * fields that parseLayer updates in place, `type` and `bucket`, are kept in
   * the parser's `types` and `buckets` tables, keyed by the same id.
   */
  datatype LayerDef = LayerDef(value: Json, id: string, ref: Option<Json>, paints: map<ClassID, ClassProperties>)

  type Layers = map<string, LayerDef>
  /** A layer's `type` field, by layer id. */
  type Types = map<string, StyleLayerType>
  /** A layer's `bucket` field, by layer id, for the layers where it is not null. */
  type Buckets = map<string, StyleBucket>

  function Elems(s: seq<string>): set<string> {
    set x | x in s
  }

  // ---------------------------------------------------------------------------
  // Sources
  // ---------------------------------------------------------------------------

  /** The source properties parseSources reads (the TileJSON ones are not part of this model). */
  const SourceSpec: Calls<PropertySpec> :=
    Then(PropertySpec("type", EnumProperty),
    Then(PropertySpec("url", StringProperty),
    Then(PropertySpec("tileSize", UInt16Property),
    Done)))

  /** One member of "sources": an existing source of that name is reused and updated. */
  function AddSource(c: Constants, sources: map<string, Props>, m: Member): map<string, Props> {
    var info := if m.name in sources then sources[m.name] else map[];
    sources[m.name := ApplyAll(c, m.value, SourceSpec, info)]
  }

  function AddSources(c: Constants, sources: map<string, Props>, ms: seq<Member>): map<string, Props>
    decreases |ms|
  {
    if ms == [] then sources else AddSources(c, AddSource(c, sources, ms[0]), ms[1..])
  }

  /** parseSources creates one source per member name and leaves every other source as it was. */
  lemma {:induction false} SourcesRecorded(c: Constants, sources: map<string, Props>, ms: seq<Member>)
    ensures forall k :: k in AddSources(c, sources, ms) <==> k in sources || FindIn(ms, k).Some?
    ensures forall k :: k in sources && FindIn(ms, k).None? ==> AddSources(c, sources, ms)[k] == sources[k]
    decreases |ms|
  {
    if ms != [] {
      SourcesRecorded(c, AddSource(c, sources, ms[0]), ms[1..]);
    }
  }

  /** A new source's tile size, when set, is the member's value and fits 16 bits. */
  lemma NewSourceTileSize(c: Constants, sources: map<string, Props>, m: Member)
    requires m.name !in sources
    ensures var info := AddSource(c, sources, m)[m.name];
            ("tileSize" in info <==> ReadProperty(c, m.value, "tileSize", UInt16Property).Some?) &&
            ("tileSize" in info ==> Some(info["tileSize"]) == ReadProperty(c, m.value, "tileSize", UInt16Property)) &&
            ("tileSize" in info ==> info["tileSize"].IntVal? && 0 <= info["tileSize"].i <= 0xFFFF)
  {
    ApplyReadsOwn(c, m.value, SourceSpec, map[], PropertySpec("tileSize", UInt16Property));
    var read := ReadProperty(c, m.value, "tileSize", UInt16Property);
    if read.Some? {
      ConvertTyped(UInt16Property, ReplaceConstant(c, Find(m.value, "tileSize").value));
    }
  }

  // ---------------------------------------------------------------------------
  // Layers
  // ---------------------------------------------------------------------------

  /** The id createLayer accepts: an object with a string "id" member. */
  function LayerId(value: Json): (r: Option<string>)
    ensures r.Some? ==> value.Obj? && Find(value, "id") == Some(Str(r.value))
    ensures r.None? ==> !value.Obj? || !(Find(value, "id").Some? && Find(value, "id").value.Str?)
  {
    if value.Obj? then
      match Find(value, "id")
      case Some(Str(s)) => Some(s)
      case _ => None
    else None
  }

  /** The entry createLayer stores: the layer starts untyped and bucketless, with its paints parsed. */
  function NewEntry(c: Constants, classIdOf: string -> ClassID, value: Json, id: string): LayerDef
    requires value.Obj?
  {
    LayerDef(value, id, Find(value, "ref"), PaintsFrom(c, classIdOf, value.members, map[]))
  }

  /** The layer table after createLayer on each item in turn. */
  function AddLayers(c: Constants, classIdOf: string -> ClassID, m: map<string, LayerDef>, items: seq<Json>): map<string, LayerDef>
    decreases |items|
  {
    if items == [] then m
    else
      var prev := AddLayers(c, classIdOf, m, items[..|items| - 1]);
      var id := LayerId(items[|items| - 1]);
      if id.Some? && id.value !in prev then prev[id.value := NewEntry(c, classIdOf, items[|items| - 1], id.value)] else prev
  }

  /** The ids of the layers createLayers keeps, in input order: those with a fresh id. */
  function Accepted(keys: set<string>, items: seq<Json>): seq<string>
    decreases |items|
  {
    if items == [] then []
    else
      var prev := Accepted(keys, items[..|items| - 1]);
      var id := LayerId(items[|items| - 1]);
      if id.Some? && id.value !in keys && id.value !in prev then prev + [id.value] else prev
  }

  /** The table gains exactly the accepted ids, each entry built from the item carrying that id. */
  lemma {:induction false} LayersAccepted(c: Constants, classIdOf: string -> ClassID, m: map<string, LayerDef>, items: seq<Json>)
    ensures AddLayers(c, classIdOf, m, items).Keys == m.Keys + Elems(Accepted(m.Keys, items))
    ensures forall k :: k in m ==> AddLayers(c, classIdOf, m, items)[k] == m[k]
    ensures forall k :: k in AddLayers(c, classIdOf, m, items) && k !in m ==>
              LayerId(AddLayers(c, classIdOf, m, items)[k].value) == Some(k) &&
              AddLayers(c, classIdOf, m, items)[k].id == k
    decreases |items|
  {
    if items != [] {
      LayersAccepted(c, classIdOf, m, items[..|items| - 1]);
    }
  }

  /**
   * createLayers keeps every item with a fresh string id, once, and nothing
   * else: the kept ids are distinct, new, and each comes from some item.
   */
  lemma {:induction false} AcceptedExactly(keys: set<string>, items: seq<Json>)
    ensures forall i, j :: 0 <= i < j < |Accepted(keys, items)| ==> Accepted(keys, items)[i] != Accepted(keys, items)[j]
    ensures forall x :: x in Accepted(keys, items) ==> x !in keys && exists i :: 0 <= i < |items| && LayerId(items[i]) == Some(x)
    ensures forall i :: 0 <= i < |items| && LayerId(items[i]).Some? && LayerId(items[i]).value !in keys ==>
              LayerId(items[i]).value in Accepted(keys, items)
    decreases |items|
  {
    if items != [] {
      var init := items[..|items| - 1];
      AcceptedExactly(keys, init);
      assert forall i :: 0 <= i < |init| ==> init[i] == items[i];
    }
  }

  /** The position of the first item defining layer `x`, or |items| when no item does. */
  function FirstDefinition(items: seq<Json>, x: string): (i: nat)
    ensures i <= |items|
    ensures i < |items| ==> LayerId(items[i]) == Some(x)
    ensures forall j :: 0 <= j < i ==> LayerId(items[j]) != Some(x)
    decreases |items|
  {
    if items == [] then 0
    else if LayerId(items[0]) == Some(x) then 0
    else
      var i := 1 + FirstDefinition(items[1..], x);
      assert forall j :: 1 <= j < i ==> items[j] == items[1..][j - 1];
      i
  }

  /** Appending an item does not move a definition already made. */
  lemma FirstDefinitionKept(init: seq<Json>, z: Json, x: string)
    requires FirstDefinition(init, x) < |init|
    ensures FirstDefinition(init + [z], x) == FirstDefinition(init, x)
  {
    var i := FirstDefinition(init, x);
    assert (init + [z])[i] == init[i];
    assert forall j :: 0 <= j < i ==> (init + [z])[j] == init[j];
  }

  /** createLayers keeps the layers in the order in which the array first defines them. */
  lemma {:induction false} AcceptedInOrder(keys: set<string>, items: seq<Json>)
    ensures forall i, j :: 0 <= i < j < |Accepted(keys, items)| ==>
              FirstDefinition(items, Accepted(keys, items)[i]) < FirstDefinition(items, Accepted(keys, items)[j])
    decreases |items|
  {
    if items != [] {
      var init := items[..|items| - 1];
      var z := items[|items| - 1];
      assert items == init + [z];
      AcceptedInOrder(keys, init);
      AcceptedExactly(keys, init);
      var prev := Accepted(keys, init);
      forall y | y in prev
        ensures FirstDefinition(items, y) == FirstDefinition(init, y) < |init|
      {
        var j :| 0 <= j < |init| && LayerId(init[j]) == Some(y);
        FirstDefinitionKept(init, z, y);
      }
      var id := LayerId(z);
      if id.Some? && id.value !in keys && id.value !in prev {
        var n := FirstDefinition(items, id.value);
        if n < |init| {
          assert false;
        }
      }
    }
  }

  /** The layer type parseLayer reads from a string "type" member; otherwise the type is kept. */
  function ParsedType(layerTypeOf: string -> StyleLayerType, t: StyleLayerType, value: Json): StyleLayerType {
    match Find(value, "type")
    case Some(Str(s)) => layerTypeOf(s)
    case _ => t
  }

  /** Reading a layer's type a second time changes nothing: a read type is settled. */
  lemma ParsedTypeSettles(layerTypeOf: string -> StyleLayerType, t: StyleLayerType, value: Json)
    ensures ParsedType(layerTypeOf, ParsedType(layerTypeOf, t, value), value) == ParsedType(layerTypeOf, t, value)
  {
  }

  /** Layer `k`, if it has no "ref", kept its type from `before` to `after` or read it again from its definition. */
  ghost predicate TypeKeptOrRead(layerTypeOf: string -> StyleLayerType, layers: Layers, before: Types, after: Types, k: string) {
    k in before && k in after && k in layers && layers[k].ref.None? ==>
      after[k] == before[k] || after[k] == ParsedType(layerTypeOf, before[k], layers[k].value)
  }

  /** Between two states of the `types` table, every layer outside `skip` kept or re-read its type. */
  ghost predicate Retyped(layerTypeOf: string -> StyleLayerType, layers: Layers, before: Types, after: Types, skip: set<string>) {
    forall k {:trigger TypeKeptOrRead(layerTypeOf, layers, before, after, k)} ::
      k !in skip ==> TypeKeptOrRead(layerTypeOf, layers, before, after, k)
  }

  /**
   * If layer `k` has no "ref" and got its bucket between `before` and
   * `after`, that bucket is the one parseBucket builds from the layer's
   * definition and type, and that type is settled.
   */
  ghost predicate OwnBuiltAt(layerTypeOf: string -> StyleLayerType, c: Constants, sourceNames: set<string>,
                             layers: Layers, types: Types, before: Buckets, after: Buckets, k: string) {
    k in after && k !in before && k in layers && k in types && layers[k].ref.None? ==>
      after[k] == BuildBucket(c, sourceNames, layers[k].value, k, types[k]) &&
      types[k] == ParsedType(layerTypeOf, types[k], layers[k].value)
  }

  /** Every bucket that appeared between `before` and `after` for a layer without "ref" is its own. */
  ghost predicate OwnBuilt(layerTypeOf: string -> StyleLayerType, c: Constants, sourceNames: set<string>,
                           layers: Layers, types: Types, before: Buckets, after: Buckets) {
    forall k {:trigger OwnBuiltAt(layerTypeOf, c, sourceNames, layers, types, before, after, k)} ::
      OwnBuiltAt(layerTypeOf, c, sourceNames, layers, types, before, after, k)
  }

  /** Own buckets built earlier stay as built across a later step that keeps buckets and only re-reads types. */
  lemma OwnBuiltExtends(layerTypeOf: string -> StyleLayerType, c: Constants, sourceNames: set<string>, layers: Layers,
                        t1: Types, t2: Types, b0: Buckets, b1: Buckets, b2: Buckets)
    requires OwnBuilt(layerTypeOf, c, sourceNames, layers, t1, b0, b1)
    requires OwnBuilt(layerTypeOf, c, sourceNames, layers, t2, b1, b2)
    requires Kept(b1, b2) && Retyped(layerTypeOf, layers, t1, t2, {}) && t1.Keys == t2.Keys
    ensures OwnBuilt(layerTypeOf, c, sourceNames, layers, t2, b0, b2)
  {
    forall k
      ensures OwnBuiltAt(layerTypeOf, c, sourceNames, layers, t2, b0, b2, k)
    {
      assert OwnBuiltAt(layerTypeOf, c, sourceNames, layers, t1, b0, b1, k);
      assert OwnBuiltAt(layerTypeOf, c, sourceNames, layers, t2, b1, b2, k);
      assert TypeKeptOrRead(layerTypeOf, layers, t1, t2, k);
    }
  }

  /** Two steps that each keep or re-read the types of layers without "ref" together do the same. */
  lemma RetypedTransitive(layerTypeOf: string -> StyleLayerType, layers: Layers, t0: Types, t1: Types, t2: Types)
    requires Retyped(layerTypeOf, layers, t0, t1, {}) && Retyped(layerTypeOf, layers, t1, t2, {}) && t0.Keys == t1.Keys
    ensures Retyped(layerTypeOf, layers, t0, t2, {})
  {
    forall k
      ensures TypeKeptOrRead(layerTypeOf, layers, t0, t2, k)
    {
      assert TypeKeptOrRead(layerTypeOf, layers, t0, t1, k);
      assert TypeKeptOrRead(layerTypeOf, layers, t1, t2, k);
      if k in t0 && k in layers {
        ParsedTypeSettles(layerTypeOf, t0[k], layers[k].value);
      }
    }
  }

  /** Re-reading the type of layer `id` alone keeps or re-reads every type. */
  lemma TypeReread(layerTypeOf: string -> StyleLayerType, layers: Layers, t0: Types, id: string)
    requires id in t0 && id in layers
    ensures Retyped(layerTypeOf, layers, t0, t0[id := ParsedType(layerTypeOf, t0[id], layers[id].value)], {})
  {
    var t1 := t0[id := ParsedType(layerTypeOf, t0[id], layers[id].value)];
    forall k
      ensures TypeKeptOrRead(layerTypeOf, layers, t0, t1, k)
    {
    }
  }

  /** parseBucket on layer `id`, whose type was just read, builds its own bucket. */
  lemma OwnBucket(layerTypeOf: string -> StyleLayerType, c: Constants, sourceNames: set<string>, layers: Layers,
                  t0: Types, b0: Buckets, id: string)
    requires id in t0 && id in layers
    ensures var t1 := t0[id := ParsedType(layerTypeOf, t0[id], layers[id].value)];
            OwnBuilt(layerTypeOf, c, sourceNames, layers, t1, b0, b0[id := BuildBucket(c, sourceNames, layers[id].value, id, t1[id])])
  {
    var t1 := t0[id := ParsedType(layerTypeOf, t0[id], layers[id].value)];
    var b1 := b0[id := BuildBucket(c, sourceNames, layers[id].value, id, t1[id])];
    ParsedTypeSettles(layerTypeOf, t0[id], layers[id].value);
    forall k
      ensures OwnBuiltAt(layerTypeOf, c, sourceNames, layers, t1, b0, b1, k)
    {
    }
  }

  /** The frames of parseReference on layer `id`, which has a "ref", are the frames of parseLayer on it. */
  lemma RefFrames(layerTypeOf: string -> StyleLayerType, c: Constants, sourceNames: set<string>, layers: Layers,
                  t0: Types, t1: Types, t2: Types, b0: Buckets, b2: Buckets, id: string)
    requires id in layers && layers[id].ref.Some? && t1.Keys == t0.Keys
    requires forall k :: k in t0 && k != id ==> t1[k] == t0[k]
    requires Retyped(layerTypeOf, layers, t1, t2, {id})
    requires OwnBuilt(layerTypeOf, c, sourceNames, layers, t2, b0, b2 - {id})
    ensures Retyped(layerTypeOf, layers, t0, t2, {})
    ensures OwnBuilt(layerTypeOf, c, sourceNames, layers, t2, b0, b2)
  {
    forall k
      ensures TypeKeptOrRead(layerTypeOf, layers, t0, t2, k)
    {
      if k != id {
        assert TypeKeptOrRead(layerTypeOf, layers, t1, t2, k);
      }
    }
    forall k
      ensures OwnBuiltAt(layerTypeOf, c, sourceNames, layers, t2, b0, b2, k)
    {
      if k != id {
        assert OwnBuiltAt(layerTypeOf, c, sourceNames, layers, t2, b0, b2 - {id}, k);
      }
    }
  }

  /**
   * The frames of parseReference on layer `id` (popped off `stack`): parsing
   * the referenced layer, from tables t0 and b0 to t1 and b1, then taking
   * over its type and bucket, to t2 and b2.
   */
  lemma TakeOverFrames(layerTypeOf: string -> StyleLayerType, c: Constants, sourceNames: set<string>, layers: Layers, stack: seq<string>,
                       t0: Types, t1: Types, t2: Types, b0: Buckets, b1: Buckets, b2: Buckets, id: string)
    requires Retyped(layerTypeOf, layers, t0, t1, {}) && OwnBuilt(layerTypeOf, c, sourceNames, layers, t1, b0, b1)
    requires t1.Keys == t0.Keys && t2.Keys == t1.Keys && forall k :: k in t1 && k != id ==> t2[k] == t1[k]
    requires forall k :: k in b2 && k != id ==> k in b1 && b2[k] == b1[k]
    requires Kept(b0, b1) && Kept(b1, b2) && id !in stack && Unbuilt([id] + stack, b0, b1)
    ensures Kept(b0, b2) && Unbuilt(stack, b0, b2)
    ensures Retyped(layerTypeOf, layers, t0, t2, {id})
    ensures OwnBuilt(layerTypeOf, c, sourceNames, layers, t2, b0, b2 - {id})
  {
    UnbuiltPop(id, stack, b0, b1, b2);
    forall k | k != id
      ensures TypeKeptOrRead(layerTypeOf, layers, t0, t2, k)
    {
      assert TypeKeptOrRead(layerTypeOf, layers, t0, t1, k);
    }
    forall k
      ensures OwnBuiltAt(layerTypeOf, c, sourceNames, layers, t2, b0, b2 - {id}, k)
    {
      assert OwnBuiltAt(layerTypeOf, c, sourceNames, layers, t1, b0, b1, k);
    }
  }

  /** Buckets once set stay set, to the same bucket. */
  predicate Kept(before: map<string, StyleBucket>, after: map<string, StyleBucket>) {
    forall k :: k in before ==> k in after && after[k] == before[k]
  }

  /** No layer of `ids` that had no bucket before has one after. */
  predicate Unbuilt(ids: seq<string>, before: map<string, StyleBucket>, after: map<string, StyleBucket>) {
    forall k :: k in ids && k !in before ==> k !in after
  }

  /** Popping `id` off the stack and then giving `id` a bucket keeps the rest of the stack unbuilt. */
  lemma UnbuiltPop(id: string, stack: seq<string>, b0: map<string, StyleBucket>, b1: map<string, StyleBucket>, b2: map<string, StyleBucket>)
    requires id !in stack && Unbuilt([id] + stack, b0, b1)
    requires forall k :: k in b2 ==> k in b1 || k == id
    ensures Unbuilt(stack, b0, b2)
  {
    assert forall k :: k in stack ==> k in [id] + stack;
  }

  /**
   * The layers of `order` before position `i` that have no "ref" and are not
   * on the stack have a bucket and the type their definition names (read
   * from their type in `t0`).
   */
  ghost predicate PrefixParsed(layerTypeOf: string -> StyleLayerType, layers: Layers, stack: seq<string>, order: seq<string>, i: int,
                               t0: Types, types: Types, buckets: Buckets) {
    forall j :: 0 <= j < i && j < |order| && order[j] !in stack && order[j] in layers && layers[order[j]].ref.None? ==>
      order[j] in buckets && order[j] in t0 && order[j] in types &&
      types[order[j]] == ParsedType(layerTypeOf, t0[order[j]], layers[order[j]].value)
  }

  /**
   * One step of parseLayers: parsing layer order[i] (tables t1, b1 to t2, b2)
   * extends what the steps before it established since t0 and b0.
   */
  lemma LayerStep(layerTypeOf: string -> StyleLayerType, c: Constants, sourceNames: set<string>, layers: Layers, stack: seq<string>,
                  order: seq<string>, i: int, t0: Types, t1: Types, t2: Types, b0: Buckets, b1: Buckets, b2: Buckets)
    requires 0 <= i < |order| && t0.Keys == layers.Keys && t1.Keys == layers.Keys && t2.Keys == layers.Keys
    requires PrefixParsed(layerTypeOf, layers, stack, order, i, t0, t1, b1)
    requires Kept(b0, b1) && Retyped(layerTypeOf, layers, t0, t1, {}) && OwnBuilt(layerTypeOf, c, sourceNames, layers, t1, b0, b1)
    requires Kept(b1, b2) && Retyped(layerTypeOf, layers, t1, t2, {}) && OwnBuilt(layerTypeOf, c, sourceNames, layers, t2, b1, b2)
    requires order[i] in layers && layers[order[i]].ref.None? ==>
               t2[order[i]] == ParsedType(layerTypeOf, t1[order[i]], layers[order[i]].value) &&
               (order[i] !in stack ==> order[i] in b2)
    ensures PrefixParsed(layerTypeOf, layers, stack, order, i + 1, t0, t2, b2)
    ensures Kept(b0, b2) && Retyped(layerTypeOf, layers, t0, t2, {}) && OwnBuilt(layerTypeOf, c, sourceNames, layers, t2, b0, b2)
  {
    forall j | 0 <= j < i + 1 && order[j] !in stack && order[j] in layers && layers[order[j]].ref.None?
      ensures order[j] in b2 && order[j] in t0 && t2[order[j]] == ParsedType(layerTypeOf, t0[order[j]], layers[order[j]].value)
    {
      var k := order[j];
      assert TypeKeptOrRead(layerTypeOf, layers, t0, t1, k);
      assert TypeKeptOrRead(layerTypeOf, layers, t1, t2, k);
      ParsedTypeSettles(layerTypeOf, t0[k], layers[k].value);
    }
    OwnBuiltExtends(layerTypeOf, c, sourceNames, layers, t1, t2, b0, b1, b2);
    RetypedTransitive(layerTypeOf, layers, t0, t1, t2);
  }

  /** What parseLayers establishes once every layer of the table has been parsed. */
  lemma AllParsed(layerTypeOf: string -> StyleLayerType, c: Constants, sourceNames: set<string>, layers: Layers, stack: seq<string>,
                  t0: Types, types: Types, b0: Buckets, buckets: Buckets)
    requires layers.Keys == types.Keys && t0.Keys == layers.Keys
    requires PrefixParsed(layerTypeOf, layers, stack, SortedKeys(layers.Keys), |SortedKeys(layers.Keys)|, t0, types, buckets)
    requires OwnBuilt(layerTypeOf, c, sourceNames, layers, types, b0, buckets)
    ensures forall k :: k in layers && k !in stack && layers[k].ref.None? ==>
              k in buckets && types[k] == ParsedType(layerTypeOf, t0[k], layers[k].value)
    ensures forall k :: k in layers && k !in stack && k !in b0 && layers[k].ref.None? ==>
              buckets[k] == BuildBucket(c, sourceNames, layers[k].value, k, types[k])
  {
    var order := SortedKeys(layers.Keys);
    SortedKeysComplete(layers.Keys);
    forall k | k in layers && k !in stack && layers[k].ref.None?
      ensures k in buckets && k in t0 && types[k] == ParsedType(layerTypeOf, t0[k], layers[k].value)
      ensures k !in b0 ==> buckets[k] == BuildBucket(c, sourceNames, layers[k].value, k, types[k])
    {
      var j :| 0 <= j < |order| && order[j] == k;
      assert OwnBuiltAt(layerTypeOf, c, sourceNames, layers, types, b0, buckets, k);
    }
  }

  /** A layer's bucket pointer: None when it is null. */
  function BucketOf(buckets: map<string, StyleBucket>, id: string): Option<StyleBucket> {
    if id in buckets then Some(buckets[id]) else None
  }

  /** A stack of distinct layers is no longer than the layer table. */
  lemma {:induction false} StackBound(stack: seq<string>, keys: set<string>)
    requires forall i :: 0 <= i < |stack| ==> stack[i] in keys
    requires forall i, j :: 0 <= i < j < |stack| ==> stack[i] != stack[j]
    ensures |stack| <= |keys|
    decreases |stack|
  {
    if stack != [] {
      StackBound(stack[1..], keys - {stack[0]});
    }
  }

  class StyleParser {
    /** StyleLayerTypeClass: layer type by name (its table is not part of this model). */
    const layerTypeOf: string -> StyleLayerType
    /** ClassDictionary::lookup: paint class by name (not part of this model). */
    const classIdOf: string -> ClassID

    var constants: Constants
    var sources: map<string, Props>
    var layers: map<string, LayerDef>
    /** Each layer's `type` field. */
    var types: map<string, StyleLayerType>
    /** Each layer's `bucket` field, for the layers where it is not null. */
    var buckets: map<string, StyleBucket>
    var stack: seq<string>
    var root: Option<seq<string>>
    var sprite: string
    var glyphUrl: string

    /** Every layer is stored under its own id and was defined by an object. */
    ghost predicate LayersValid()
      reads this`layers
    {
      forall id :: id in layers ==> layers[id].id == id && layers[id].value.Obj?
    }

    /** Every layer has a type, and only layers have buckets. */
    ghost predicate FieldsValid()
      reads this`layers, this`types, this`buckets
    {
      (forall k :: k in types <==> k in layers) && (forall k :: k in buckets ==> k in layers)
    }

    /** The stack holds layers, each at most once. */
    ghost predicate StackValid()
      reads this`layers, this`stack
    {
      (forall i :: 0 <= i < |stack| ==> stack[i] in layers) &&
      (forall i, j :: 0 <= i < j < |stack| ==> stack[i] != stack[j])
    }

    ghost predicate Valid()
      reads this`layers, this`types, this`buckets
    {
      LayersValid() && FieldsValid()
    }

    /**
     * `id` took over the type and bucket of the layer `ref` names, or, when
     * `ref` names no layer, was left without a bucket.
     */
    ghost predicate Inherits(id: string, ref: Json)
      requires Valid() && id in layers
      reads this`layers, this`types, this`buckets
    {
      if ref.Str? && ref.s in layers then
        types[id] == types[ref.s] && BucketOf(buckets, id) == BucketOf(buckets, ref.s)
      else id !in buckets
    }

    constructor (layerTypeOf: string -> StyleLayerType, classIdOf: string -> ClassID)
      ensures this.layerTypeOf == layerTypeOf && this.classIdOf == classIdOf
      ensures constants == map[] && sources == map[] && layers == map[] && types == map[] && buckets == map[]
      ensures stack == [] && root == None && sprite == "" && glyphUrl == ""
      ensures Valid()
    {
      this.layerTypeOf := layerTypeOf;
      this.classIdOf := classIdOf;
      constants := map[];
      sources := map[];
      layers := map[];
      types := map[];
      buckets := map[];
      stack := [];
      root := None;
      sprite := "";
      glyphUrl := "";
    }

    method ParseConstants(value: Json)
      modifies this`constants
      ensures constants == (if value.Obj? then AddConstants(old(constants), value.members) else old(constants))
    {
      if value.Obj? {
        var ms := value.members;
        var i := 0;
        while i < |ms|
          invariant 0 <= i <= |ms|
          invariant AddConstants(constants, ms[i..]) == AddConstants(old(constants), ms)
        {
          assert ms[i..][1..] == ms[i + 1..];
          var name := ms[i].name;
          if |name| > 0 && name[0] == '@' && name !in constants {
            constants := constants[name := ms[i].value];
          }
          i := i + 1;
        }
      }
    }

    method ParseSources(value: Json)
      modifies this`sources
      ensures sources == (if value.Obj? then AddSources(constants, old(sources), value.members) else old(sources))
    {
      if value.Obj? {
        var ms := value.members;
        var i := 0;
        while i < |ms|
          invariant 0 <= i <= |ms|
          invariant AddSources(constants, sources, ms[i..]) == AddSources(constants, old(sources), ms)
        {
          assert ms[i..][1..] == ms[i + 1..];
          var name := ms[i].name;
          var info := if name in sources then sources[name] else map[];
          sources := sources[name := ApplyAll(constants, ms[i].value, SourceSpec, info)];
          i := i + 1;
        }
      }
    }

    /** parsePaints over a layer's members; the map starts empty. */
    method ParsePaints(ms: seq<Member>) returns (paints: map<ClassID, ClassProperties>)
      ensures paints == PaintsFrom(constants, classIdOf, ms, map[])
    {
      paints := map[];
      var i := 0;
      while i < |ms|
        invariant 0 <= i <= |ms|
        invariant PaintsFrom(constants, classIdOf, ms[i..], paints) == PaintsFrom(constants, classIdOf, ms, map[])
      {
        assert ms[i..][1..] == ms[i + 1..];
        var name := ms[i].name;
        if name == "paint" {
          var klass := if Default in paints then paints[Default] else [];
          paints := paints[Default := ParsePaint(constants, ReplaceConstant(constants, ms[i].value), klass)];
        } else if |name| > 6 && name[..6] == "paint." {
          var id := classIdOf(name[6..]);
          var klass := if id in paints then paints[id] else [];
          paints := paints[id := ParsePaint(constants, ReplaceConstant(constants, ms[i].value), klass)];
        }
        i := i + 1;
      }
    }

    /** createLayer: a layer with a fresh string id is stored untyped and bucketless; anything else is refused. */
    method CreateLayer(value: Json) returns (created: Option<string>)
      requires Valid()
      modifies this`layers, this`types
      ensures Valid()
      ensures created == (if LayerId(value).Some? && LayerId(value).value !in old(layers) then LayerId(value) else None)
      ensures created.Some? ==> layers == old(layers)[created.value := NewEntry(constants, classIdOf, value, created.value)]
      ensures created.Some? ==> types == old(types)[created.value := Unknown]
      ensures created.None? ==> layers == old(layers) && types == old(types)
    {
      if !value.Obj? {
        return None;
      }
      var id := Find(value, "id");
      if id.None? || !id.value.Str? {
        return None;
      }
      var name := id.value.s;
      if name in layers {
        return None;
      }
      var paints := ParsePaints(value.members);
      layers := layers[name := LayerDef(value, name, Find(value, "ref"), paints)];
      types := types[name := Unknown];
      return Some(name);
    }

    /** createLayers, with the group it returns stored in `root` (no group when `value` is not an array). */
    method CreateLayers(value: Json)
      requires Valid()
      modifies this`layers, this`types, this`root
      ensures Valid()
      ensures value.Arr? ==> layers == AddLayers(constants, classIdOf, old(layers), value.items)
      ensures value.Arr? ==> root == Some(Accepted(old(layers).Keys, value.items))
      ensures !value.Arr? ==> layers == old(layers) && root == None
      ensures forall k :: k in types ==> types[k] == if k in old(types) then old(types)[k] else Unknown
    {
      if !value.Arr? {
        root := None;
        return;
      }
      var items := value.items;
      var ids := [];
      var i := 0;
      while i < |items|
        invariant 0 <= i <= |items|
        invariant Valid()
        invariant layers == AddLayers(constants, classIdOf, old(layers), items[..i])
        invariant ids == Accepted(old(layers).Keys, items[..i])
        invariant forall k :: k in types ==> types[k] == if k in old(types) then old(types)[k] else Unknown
      {
        assert items[..i + 1][..i] == items[..i];
        LayersAccepted(constants, classIdOf, old(layers), items[..i]);
        var created := CreateLayer(items[i]);
        if created.Some? {
          ids := ids + [created.value];
        }
        i := i + 1;
      }
      assert items[..|items|] == items;
      root := Some(ids);
    }

    /** parseBucket: the layer gets the bucket built from its definition and its current type. */
    method ParseBucket(id: string)
      requires Valid() && id in layers
      modifies this`buckets
      ensures Valid()
      ensures buckets == old(buckets)[id := BuildBucket(constants, sources.Keys, layers[id].value, id, types[id])]
    {
      var def := layers[id];
      buckets := buckets[id := BuildBucket(constants, sources.Keys, def.value, def.id, types[id])];
    }

    /**
     * parseLayer: reads the layer's type, then, unless the layer already has
     * a bucket or is on the stack (a circular reference), inherits the bucket
     * of the layer its "ref" names or builds its own.
     */
    method ParseLayer(id: string)
      requires Valid() && StackValid() && id in layers
      modifies this`types, this`buckets, this`stack
      ensures Valid() && stack == old(stack)
      ensures Kept(old(buckets), buckets)
      ensures Unbuilt(old(stack), old(buckets), buckets)
      ensures layers[id].ref.None? ==>
                types[id] == ParsedType(layerTypeOf, old(types)[id], layers[id].value)
      ensures id !in old(stack) && layers[id].ref.None? ==> id in buckets
      ensures id !in old(stack) && id !in old(buckets) && layers[id].ref.None? ==>
                buckets[id] == BuildBucket(constants, sources.Keys, layers[id].value, id, types[id])
      ensures id !in old(stack) && id !in old(buckets) && layers[id].ref.Some? ==>
                Inherits(id, ReplaceConstant(constants, layers[id].ref.value))
      ensures id in old(buckets) || id in old(stack) ==>
                buckets == old(buckets) && types == old(types)[id := ParsedType(layerTypeOf, old(types)[id], layers[id].value)]
      ensures Retyped(layerTypeOf, layers, old(types), types, {})
      ensures OwnBuilt(layerTypeOf, constants, sources.Keys, layers, types, old(buckets), buckets)
      decreases |layers| - |stack|, 1
    {
      var def := layers[id];
      ghost var typesBefore := types;
      TypeReread(layerTypeOf, layers, types, id);
      types := types[id := ParsedType(layerTypeOf, types[id], def.value)];
      if id in buckets {
        return;
      }
      if id in stack {
        return;
      }
      if def.ref.Some? {
        ghost var typesRead := types;
        ParseReference(ReplaceConstant(constants, def.ref.value), id);
        RefFrames(layerTypeOf, constants, sources.Keys, layers, typesBefore, typesRead, types, old(buckets), buckets, id);
      } else {
        OwnBucket(layerTypeOf, constants, sources.Keys, layers, typesBefore, buckets, id);
        ParseBucket(id);
      }
    }

    /** parseReference: parses the referenced layer with this one on the stack, then copies its type and bucket. */
    method ParseReference(refValue: Json, id: string)
      requires Valid() && StackValid() && id in layers && id !in stack && id !in buckets
      modifies this`types, this`buckets, this`stack
      ensures Valid() && stack == old(stack)
      ensures Kept(old(buckets), buckets)
      ensures Unbuilt(old(stack), old(buckets), buckets)
      ensures Inherits(id, refValue)
      ensures !(refValue.Str? && refValue.s in layers) ==> types == old(types) && buckets == old(buckets)
      ensures Retyped(layerTypeOf, layers, old(types), types, {id})
      ensures OwnBuilt(layerTypeOf, constants, sources.Keys, layers, types, old(buckets), buckets - {id})
      decreases |layers| - |stack|, 0
    {
      if !refValue.Str? || refValue.s !in layers {
        return;
      }
      var ref := refValue.s;
      ghost var before := buckets;
      ghost var typesBefore := types;
      stack := [id] + stack;
      StackBound(stack, layers.Keys);
      ParseLayer(ref);
      stack := stack[1..];
      TakeOver(id, ref, typesBefore, before);
    }

    /**
     * The last step of parseReference: the layer takes over the referenced
     * layer's type and bucket pointer.  `typesBefore` and `bucketsBefore` are
     * the tables before the referenced layer was parsed; the frames of the
     * whole of parseReference are stated against them.
     */
    method TakeOver(id: string, ref: string, ghost typesBefore: Types, ghost bucketsBefore: Buckets)
      requires Valid() && id in layers && ref in layers && id !in buckets && id !in stack
      requires Kept(bucketsBefore, buckets) && Unbuilt([id] + stack, bucketsBefore, buckets)
      requires Retyped(layerTypeOf, layers, typesBefore, types, {}) && typesBefore.Keys == types.Keys
      requires OwnBuilt(layerTypeOf, constants, sources.Keys, layers, types, bucketsBefore, buckets)
      modifies this`types, this`buckets
      ensures Valid() && Kept(bucketsBefore, buckets) && Unbuilt(stack, bucketsBefore, buckets)
      ensures types == old(types)[id := old(types)[ref]]
      ensures buckets == if ref in old(buckets) then old(buckets)[id := old(buckets)[ref]] else old(buckets)
      ensures types[id] == types[ref] && BucketOf(buckets, id) == BucketOf(buckets, ref)
      ensures Retyped(layerTypeOf, layers, typesBefore, types, {id})
      ensures OwnBuilt(layerTypeOf, constants, sources.Keys, layers, types, bucketsBefore, buckets - {id})
    {
      ghost var typesParsed := types;
      ghost var parsed := buckets;
      types := types[id := types[ref]];
      if ref in buckets {
        buckets := buckets[id := buckets[ref]];
      }
      TakeOverFrames(layerTypeOf, constants, sources.Keys, layers, stack, typesBefore, typesParsed, types, bucketsBefore, parsed, buckets, id);
    }

    /**
     * parseLayers: parses every layer once, in the table's key order.  Every
     * layer without a "ref" ends up with the type its definition names and,
     * unless it already had one, with the bucket built from its definition.
     */
    method ParseLayers()
      requires Valid() && StackValid()
      modifies this`types, this`buckets, this`stack
      ensures Valid() && stack == old(stack)
      ensures Kept(old(buckets), buckets)
      ensures Retyped(layerTypeOf, layers, old(types), types, {})
      ensures forall k :: k in layers && k !in stack && layers[k].ref.None? ==>
                k in buckets && types[k] == ParsedType(layerTypeOf, old(types)[k], layers[k].value)
      ensures forall k :: k in layers && k !in stack && k !in old(buckets) && layers[k].ref.None? ==>
                buckets[k] == BuildBucket(constants, sources.Keys, layers[k].value, k, types[k])
    {
      var order := SortedKeys(layers.Keys);
      SortedKeysComplete(layers.Keys);
      for i := 0 to |order|
        invariant Valid() && StackValid() && stack == old(stack)
        invariant Kept(old(buckets), buckets)
        invariant Retyped(layerTypeOf, layers, old(types), types, {})
        invariant OwnBuilt(layerTypeOf, constants, sources.Keys, layers, types, old(buckets), buckets)
        invariant PrefixParsed(layerTypeOf, layers, stack, order, i, old(types), types, buckets)
      {
        ParseNext(order, i, old(types), old(buckets));
      }
      AllParsed(layerTypeOf, constants, sources.Keys, layers, stack, old(types), types, old(buckets), buckets);
    }

    /** One turn of parseLayers' loop: parses order[i] and extends what the turns before established. */
    method ParseNext(order: seq<string>, i: int, ghost t0: Types, ghost b0: Buckets)
      requires Valid() && StackValid() && 0 <= i < |order| && order[i] in layers && t0.Keys == layers.Keys
      requires Kept(b0, buckets) && Retyped(layerTypeOf, layers, t0, types, {})
      requires OwnBuilt(layerTypeOf, constants, sources.Keys, layers, types, b0, buckets)
      requires PrefixParsed(layerTypeOf, layers, stack, order, i, t0, types, buckets)
      modifies this`types, this`buckets, this`stack
      ensures Valid() && StackValid() && stack == old(stack)
      ensures Kept(b0, buckets) && Retyped(layerTypeOf, layers, t0, types, {})
      ensures OwnBuilt(layerTypeOf, constants, sources.Keys, layers, types, b0, buckets)
      ensures PrefixParsed(layerTypeOf, layers, stack, order, i + 1, t0, types, buckets)
    {
      ghost var before := buckets;
      ghost var typesBefore := types;
      assert typesBefore.Keys == layers.Keys;
      ParseLayer(order[i]);
      assert types.Keys == layers.Keys;
      LayerStep(layerTypeOf, constants, sources.Keys, layers, stack, order, i, t0, typesBefore, types, b0, before, buckets);
    }

    method ParseSprite(value: Json)
      modifies this`sprite
      ensures sprite == (if value.Str? then value.s else old(sprite))
    {
      if value.Str? {
        sprite := value.s;
      }
    }

    method ParseGlyphURL(value: Json)
      modifies this`glyphUrl
      ensures glyphUrl == (if value.Str? then value.s else old(glyphUrl))
    {
      if value.Str? {
        glyphUrl := value.s;
      }
    }

    /**
     * The "layers" step of parse: the layers are created, the group
     * createLayers returns becomes `root`, and then every layer is parsed.
     */
    method ParseLayerGroup(value: Json)
      requires Valid() && StackValid()
      modifies this`layers, this`types, this`buckets, this`stack, this`root
      ensures Valid() && stack == old(stack)
      ensures root == (if value.Arr? then Some(Accepted(old(layers).Keys, value.items)) else None)
      ensures layers.Keys == old(layers).Keys + (if value.Arr? then Elems(Accepted(old(layers).Keys, value.items)) else {})
      ensures value.Arr? ==> layers == AddLayers(constants, classIdOf, old(layers), value.items)
      ensures !value.Arr? ==> layers == old(layers)
      ensures Kept(old(buckets), buckets)
      ensures forall k :: k in layers && k !in stack && layers[k].ref.None? ==>
                k in buckets && types[k] == ParsedType(layerTypeOf, if k in old(types) then old(types)[k] else Unknown, layers[k].value)
      ensures forall k :: k in layers && k !in stack && k !in old(buckets) && layers[k].ref.None? ==>
                buckets[k] == BuildBucket(constants, sources.Keys, layers[k].value, k, types[k])
    {
      CreateLayers(value);
      if value.Arr? {
        LayersAccepted(constants, classIdOf, old(layers), value.items);
      }
      ParseLayers();
    }

    /** The first two steps of parse: the "constants" member, then the "sources" member. */
    method ParseDefinitions(document: Json)
      modifies this`constants, this`sources
      ensures HasMember(document, "constants") && Find(document, "constants").value.Obj? ==>
                constants == AddConstants(old(constants), Find(document, "constants").value.members)
      ensures !(HasMember(document, "constants") && Find(document, "constants").value.Obj?) ==> constants == old(constants)
      ensures HasMember(document, "sources") && Find(document, "sources").value.Obj? ==>
                sources == AddSources(constants, old(sources), Find(document, "sources").value.members)
      ensures !(HasMember(document, "sources") && Find(document, "sources").value.Obj?) ==> sources == old(sources)
    {
      if HasMember(document, "constants") {
        ParseConstants(Find(document, "constants").value);
      }
      if HasMember(document, "sources") {
        ParseSources(Find(document, "sources").value);
      }
    }

    /** The last two steps of parse: the "sprite" member, then the "glyphs" member. */
    method ParseResources(document: Json)
      modifies this`sprite, this`glyphUrl
      ensures sprite == (match Find(document, "sprite") case Some(Str(s)) => s case _ => old(sprite))
      ensures glyphUrl == (match Find(document, "glyphs") case Some(Str(s)) => s case _ => old(glyphUrl))
    {
      if HasMember(document, "sprite") {
        ParseSprite(Find(document, "sprite").value);
      }
      if HasMember(document, "glyphs") {
        ParseGlyphURL(Find(document, "glyphs").value);
      }
    }

    /** The layers step of parse, taken only when the document has a "layers" member. */
    method ParseLayersMember(document: Json)
      requires Valid() && StackValid()
      modifies this`layers, this`types, this`buckets, this`stack, this`root
      ensures Valid() && stack == old(stack)
      ensures HasMember(document, "layers") ==>
                root == (if Find(document, "layers").value.Arr?
                         then Some(Accepted(old(layers).Keys, Find(document, "layers").value.items)) else None)
      ensures HasMember(document, "layers") && Find(document, "layers").value.Arr? ==>
                layers == AddLayers(constants, classIdOf, old(layers), Find(document, "layers").value.items)
      ensures HasMember(document, "layers") ==> Kept(old(buckets), buckets)
      ensures HasMember(document, "layers") ==> LayersParsed(old(types), old(buckets))
      ensures !HasMember(document, "layers") ==> layers == old(layers) && buckets == old(buckets) && root == old(root)
    {
      if HasMember(document, "layers") {
        ParseLayerGroup(Find(document, "layers").value);
      }
    }

    /**
     * After the layers step: every layer without a "ref" that is not on the
     * stack has the type its definition names (read from its type in
     * `typesBefore`, or from Unknown for a layer created by the step) and a
     * bucket, and the bucket is the one built from its definition unless it
     * had one in `bucketsBefore`.
     */
    ghost predicate LayersParsed(typesBefore: Types, bucketsBefore: Buckets)
      reads this
    {
      (forall k :: k in layers && k !in stack && layers[k].ref.None? ==>
         k in buckets && k in types &&
         types[k] == ParsedType(layerTypeOf, if k in typesBefore then typesBefore[k] else Unknown, layers[k].value)) &&
      (forall k :: k in layers && k !in stack && k !in bucketsBefore && layers[k].ref.None? ==>
         k in buckets && k in types && buckets[k] == BuildBucket(constants, sources.Keys, layers[k].value, k, types[k]))
    }

    /** The steps of parse after the definitions: layers, then sprite and glyphs. */
    method ParseRest(document: Json)
      requires Valid() && StackValid()
      modifies this`layers, this`types, this`buckets, this`stack, this`root, this`sprite, this`glyphUrl
      ensures Valid() && stack == old(stack)
      ensures HasMember(document, "layers") ==>
                root == (if Find(document, "layers").value.Arr?
                         then Some(Accepted(old(layers).Keys, Find(document, "layers").value.items)) else None)
      ensures HasMember(document, "layers") && Find(document, "layers").value.Arr? ==>
                layers == AddLayers(constants, classIdOf, old(layers), Find(document, "layers").value.items)
      ensures HasMember(document, "layers") ==> Kept(old(buckets), buckets)
      ensures HasMember(document, "layers") ==> LayersParsed(old(types), old(buckets))
      ensures !HasMember(document, "layers") ==> layers == old(layers) && buckets == old(buckets) && root == old(root)
      ensures sprite == (match Find(document, "sprite") case Some(Str(s)) => s case _ => old(sprite))
      ensures glyphUrl == (match Find(document, "glyphs") case Some(Str(s)) => s case _ => old(glyphUrl))
    {
      ParseLayersMember(document);
      ParseResources(document);
    }

    /** parse: constants, then sources, then layers (created, then parsed), then sprite and glyphs. */
    method Parse(document: Json)
      requires Valid() && StackValid()
      modifies this`constants, this`sources, this`layers, this`types, this`buckets, this`stack, this`root
      modifies this`sprite, this`glyphUrl
      ensures Valid() && stack == old(stack)
      ensures HasMember(document, "constants") && Find(document, "constants").value.Obj? ==>
                constants == AddConstants(old(constants), Find(document, "constants").value.members)
      ensures !(HasMember(document, "constants") && Find(document, "constants").value.Obj?) ==> constants == old(constants)
      ensures HasMember(document, "layers") ==>
                root == (if Find(document, "layers").value.Arr?
                         then Some(Accepted(old(layers).Keys, Find(document, "layers").value.items)) else None)
      ensures HasMember(document, "sources") && Find(document, "sources").value.Obj? ==>
                sources == AddSources(constants, old(sources), Find(document, "sources").value.members)
      ensures !(HasMember(document, "sources") && Find(document, "sources").value.Obj?) ==> sources == old(sources)
      ensures HasMember(document, "layers") && Find(document, "layers").value.Arr? ==>
                layers == AddLayers(constants, classIdOf, old(layers), Find(document, "layers").value.items)
      ensures HasMember(document, "layers") ==> Kept(old(buckets), buckets)
      ensures HasMember(document, "layers") ==> LayersParsed(old(types), old(buckets))
      ensures !HasMember(document, "layers") ==> layers == old(layers) && buckets == old(buckets) && root == old(root)
      ensures sprite == (match Find(document, "sprite") case Some(Str(s)) => s case _ => old(sprite))
      ensures glyphUrl == (match Find(document, "glyphs") case Some(Str(s)) => s case _ => old(glyphUrl))
    {
      ParseDefinitions(document);
      ParseRest(document);
    }
  }
}
