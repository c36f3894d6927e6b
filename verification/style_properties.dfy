/**
 * The value-level half of the style parser: constant substitution, the typed
 * readers for layout ("render") properties and paint properties, stop
 * functions, the layout and bucket builders, and the paint classes of a
 * layer.  Everything here is a function of the JSON it reads
 * and of the constants table; the parser object that owns the tables is in
 * style_parser.dfy.
 */
module StyleProperties {
  import opened Json
  import opened Bucket

  // ---------------------------------------------------------------------------
  // Constants
  // ---------------------------------------------------------------------------

  /** The parser's constants table: name to the JSON value it stands for. */
  type Constants = map<string, Json>

  /** Only names starting with '@' are recorded as constants. */
  predicate IsConstantName(name: string) {
    |name| > 0 && name[0] == '@'
  }

  /** One member of the "constants" object; `emplace` keeps an existing entry. */
  function AddConstant(c: Constants, m: Member): Constants {
    if IsConstantName(m.name) && m.name !in c then c[m.name := m.value] else c
  }

  /** The constants table after parseConstants has walked `ms` in order. */
  function AddConstants(c: Constants, ms: seq<Member>): Constants
    decreases |ms|
  {
    if ms == [] then c else AddConstants(AddConstant(c, ms[0]), ms[1..])
  }

  /**
   * parseConstants records exactly the '@' names, never overwrites an entry,
   * and a name given twice keeps its first value.
   */
  lemma {:induction false} ConstantsRecorded(c: Constants, ms: seq<Member>)
    ensures forall k :: k in AddConstants(c, ms) <==> k in c || (IsConstantName(k) && FindIn(ms, k).Some?)
    ensures forall k :: k in c ==> AddConstants(c, ms)[k] == c[k]
    ensures forall k :: k in AddConstants(c, ms) && k !in c ==> FindIn(ms, k) == Some(AddConstants(c, ms)[k])
    decreases |ms|
  {
    if ms != [] {
      ConstantsRecorded(AddConstant(c, ms[0]), ms[1..]);
    }
  }

  /** replaceConstant: a string naming a constant stands for the constant's value. */
  function ReplaceConstant(c: Constants, v: Json): (r: Json)
    ensures r == v || r in c.Values
    ensures v.Str? && v.s in c ==> r == c[v.s]
    ensures !(v.Str? && v.s in c) ==> r == v
  {
    if v.Str? && v.s in c then c[v.s] else v
  }

  /** Substitution is a single step: a constant whose value names another constant is not followed. */
  lemma ReplaceIsSingleStep(c: Constants, a: string, b: string)
    requires a in c && c[a] == Str(b) && b in c && c[b] != Str(b)
    ensures ReplaceConstant(c, Str(a)) == Str(b) != ReplaceConstant(c, ReplaceConstant(c, Str(a)))
  {
  }

  // ---------------------------------------------------------------------------
  // Layout ("render") properties: parseRenderProperty
  // ---------------------------------------------------------------------------

  /** The overloads of parseRenderProperty, by the type of their target. */
  datatype RenderKind =
    | BoolProperty
    | StringProperty
    | FloatProperty
    | EmProperty        // a float that parseLayout multiplies by 24 once read
    | UInt16Property
    | Int32Property
    | Vec2Property
    | EnumProperty

  /** Multiplication by 24 (ems to pixels), on the number as written. */
  function Scale24(n: Number): Number {
    match n
    case Integer(i) => Integer(24 * i)
    case Fractional(r) => Fractional(24.0 * r)
  }

  /** The conversion each overload applies to the (substituted) property value; None is the warning path. */
  function Convert(kind: RenderKind, j: Json): Option<Prop> {
    match kind
    case BoolProperty => if j.Bool? then Some(BoolVal(j.b)) else None
    case StringProperty => if j.Str? then Some(StringVal(j.s)) else None
    case FloatProperty => if j.Num? then Some(NumVal(j.n)) else None
    case EmProperty => if j.Num? then Some(NumVal(Scale24(j.n))) else None
    case UInt16Property => if IsUint(j) && j.n.i <= 0xFFFF then Some(IntVal(j.n.i)) else None
    case Int32Property => if IsInt(j) then Some(IntVal(j.n.i)) else None
    case Vec2Property => if j.Arr? && |j.items| >= 2 then Some(Vec2Val(j.items[0], j.items[1])) else None
    case EnumProperty => if j.Str? then Some(EnumVal(j.s)) else None
  }

  /** The JSON a stored field value is written as: the inverse of Convert. */
  function Written(p: Prop): Json {
    match p
    case BoolVal(b) => Bool(b)
    case StringVal(s) => Str(s)
    case IntVal(i) => Num(Integer(i))
    case NumVal(n) => Num(n)
    case Vec2Val(x, y) => Arr([x, y])
    case EnumVal(name) => Str(name)
  }

  /** The values a target of each kind can hold. */
  predicate OfKind(kind: RenderKind, p: Prop) {
    match kind
    case BoolProperty => p.BoolVal?
    case StringProperty => p.StringVal?
    case FloatProperty => p.NumVal?
    case EmProperty => p.NumVal?
    case UInt16Property => p.IntVal? && 0 <= p.i <= 0xFFFF
    case Int32Property => p.IntVal? && -0x8000_0000 <= p.i < 0x8000_0000
    case Vec2Property => p.Vec2Val?
    case EnumProperty => p.EnumVal?
  }

  /**
   * Every accepted value fits its target (in particular a uint16 target never
   * receives a value above 65535), and for the kinds stored unchanged the
   * stored value is the JSON that was read.
   */
  lemma ConvertTyped(kind: RenderKind, j: Json)
    ensures Convert(kind, j).Some? ==> OfKind(kind, Convert(kind, j).value)
    ensures kind != EmProperty && kind != Vec2Property && Convert(kind, j).Some? ==> Written(Convert(kind, j).value) == j
  {
  }

  /** Any value a target can hold is read back from the JSON it is written as. */
  lemma ConvertRoundTrip(kind: RenderKind, p: Prop)
    requires kind != EmProperty && OfKind(kind, p)
    ensures Convert(kind, Written(p)) == Some(p)
  {
  }

  /** The value parseRenderProperty would store, if the member exists and has the right type. */
  function ReadProperty(c: Constants, value: Json, name: string, kind: RenderKind): Option<Prop> {
    if HasMember(value, name) then Convert(kind, ReplaceConstant(c, Find(value, name).value)) else None
  }

  /**
   * parseRenderProperty(value, target, name): the returned flag says whether the
   * target was written; only the target `name` may change, and on failure
   * nothing does.
   */
  function ParseRenderProperty(c: Constants, value: Json, name: string, kind: RenderKind, props: Props): (r: (bool, Props))
    ensures r.0 <==> HasMember(value, name) && Convert(kind, ReplaceConstant(c, Find(value, name).value)).Some?
    ensures !r.0 ==> r.1 == props
    ensures r.0 ==> name in r.1 && r.1 == props[name := r.1[name]] && OfKind(kind, r.1[name])
    ensures r.0 ==> Some(r.1[name]) == Convert(kind, ReplaceConstant(c, Find(value, name).value))
  {
    var read := ReadProperty(c, value, name, kind);
    ConvertTyped(kind, if HasMember(value, name) then ReplaceConstant(c, Find(value, name).value) else Null);
    if read.Some? then (true, props[name := read.value]) else (false, props)
  }

  /** One call of parseRenderProperty: the member it reads and the target's kind. */
  datatype PropertySpec = PropertySpec(name: string, kind: RenderKind)

  /**
   * A fixed run of parser calls, in source order.  It is a linked list rather
   * than a sequence so that a proof about one call unfolds only that call.
   */
  datatype Calls<T> = Done | Then(call: T, rest: Calls<T>)

  /** A run of parseRenderProperty calls, in order, on the same struct. */
  function ApplyAll(c: Constants, value: Json, specs: Calls<PropertySpec>, props: Props): Props {
    match specs
    case Done => props
    case Then(spec, rest) => ApplyAll(c, value, rest, ParseRenderProperty(c, value, spec.name, spec.kind, props).1)
  }

  /** How many calls of the run read member `k`. */
  function CountNamed(specs: Calls<PropertySpec>, k: string): nat {
    match specs
    case Done => 0
    case Then(spec, rest) => (if spec.name == k then 1 else 0) + CountNamed(rest, k)
  }

  /** `x` is one of the calls of the run. */
  predicate Mentions<T(==)>(calls: Calls<T>, x: T) {
    match calls
    case Done => false
    case Then(first, rest) => first == x || Mentions(rest, x)
  }

  /** A field no call of the run writes keeps its value (or its struct default). */
  lemma {:induction false} ApplyFrame(c: Constants, value: Json, specs: Calls<PropertySpec>, props: Props, k: string)
    requires CountNamed(specs, k) == 0 || !HasMember(value, k)
    ensures k in ApplyAll(c, value, specs, props) <==> k in props
    ensures k in props ==> ApplyAll(c, value, specs, props)[k] == props[k]
  {
    match specs
    case Done =>
    case Then(spec, rest) =>
      ApplyFrame(c, value, rest, ParseRenderProperty(c, value, spec.name, spec.kind, props).1, k);
  }

  /**
   * A field read by exactly one call of the run ends up as that call read it
   * from its own member, or untouched when the member is missing or of the
   * wrong type.
   */
  lemma {:induction false} ApplyReadsOwn(c: Constants, value: Json, specs: Calls<PropertySpec>, props: Props, spec: PropertySpec)
    requires Mentions(specs, spec) && CountNamed(specs, spec.name) == 1
    ensures ReadProperty(c, value, spec.name, spec.kind).Some? ==>
              spec.name in ApplyAll(c, value, specs, props) &&
              Some(ApplyAll(c, value, specs, props)[spec.name]) == ReadProperty(c, value, spec.name, spec.kind)
    ensures ReadProperty(c, value, spec.name, spec.kind).None? ==>
              (spec.name in ApplyAll(c, value, specs, props) <==> spec.name in props) &&
              (spec.name in props ==> ApplyAll(c, value, specs, props)[spec.name] == props[spec.name])
  {
    match specs
    case Then(first, rest) =>
      var next := ParseRenderProperty(c, value, first.name, first.kind, props).1;
      if first == spec {
        ApplyFrame(c, value, rest, next, spec.name);
      } else {
        if first.name == spec.name {
          MentionedIsCounted(rest, spec);
          assert false;
        }
        ApplyReadsOwn(c, value, rest, next, spec);
      }
  }

  lemma {:induction false} MentionedIsCounted(specs: Calls<PropertySpec>, spec: PropertySpec)
    requires Mentions(specs, spec)
    ensures CountNamed(specs, spec.name) >= 1
  {
    match specs
    case Then(first, rest) =>
      if first != spec {
        MentionedIsCounted(rest, spec);
      }
  }

  // ---------------------------------------------------------------------------
  // parseLayout
  // ---------------------------------------------------------------------------

  const FillLayout: Calls<PropertySpec> :=
    Then(PropertySpec("fill-winding", EnumProperty),
    Done)

  const LineLayout: Calls<PropertySpec> :=
    Then(PropertySpec("line-cap", EnumProperty),
    Then(PropertySpec("line-join", EnumProperty),
    Then(PropertySpec("line-miter-limit", FloatProperty),
    Then(PropertySpec("line-round-limit", FloatProperty),
    Done))))

  /** The symbol properties parseLayout reads after "symbol-placement", in its order. */
  const SymbolLayout: Calls<PropertySpec> :=
    Then(PropertySpec("symbol-min-distance", FloatProperty),
    Then(PropertySpec("symbol-avoid-edges", BoolProperty),
    Then(PropertySpec("icon-allow-overlap", BoolProperty),
    Then(PropertySpec("icon-ignore-placement", BoolProperty),
    Then(PropertySpec("icon-optional", BoolProperty),
    Then(PropertySpec("icon-rotation-alignment", EnumProperty),
    Then(PropertySpec("icon-max-size", FloatProperty),
    Then(PropertySpec("icon-image", StringProperty),
    Then(PropertySpec("icon-rotate", FloatProperty),
    Then(PropertySpec("icon-padding", FloatProperty),
    Then(PropertySpec("icon-keep-upright", BoolProperty),
    Then(PropertySpec("icon-offset", Vec2Property),
    Then(PropertySpec("text-rotation-alignment", EnumProperty),
    Then(PropertySpec("text-field", StringProperty),
    Then(PropertySpec("text-font", StringProperty),
    Then(PropertySpec("text-max-size", FloatProperty),
    Then(PropertySpec("text-max-width", EmProperty),
    Then(PropertySpec("text-line-height", EmProperty),
    Then(PropertySpec("text-letter-spacing", EmProperty),
    Then(PropertySpec("text-justify", EnumProperty),
    Then(PropertySpec("text-anchor", EnumProperty),
    Then(PropertySpec("text-max-angle", FloatProperty),
    Then(PropertySpec("text-rotate", FloatProperty),
    Then(PropertySpec("text-slant", FloatProperty),
    Then(PropertySpec("text-padding", FloatProperty),
    Then(PropertySpec("text-keep-upright", BoolProperty),
    Then(PropertySpec("text-transform", EnumProperty),
    Then(PropertySpec("text-offset", Vec2Property),
    Then(PropertySpec("text-allow-overlap", BoolProperty),
    Then(PropertySpec("text-ignore-placement", BoolProperty),
    Then(PropertySpec("text-optional", BoolProperty),
    Done)))))))))))))))))))))))))))))))

  /** The text rotation alignment is read by exactly one call of the symbol run. */
  lemma TextAlignmentReadOnce()
    ensures Mentions(SymbolLayout, PropertySpec("text-rotation-alignment", EnumProperty))
    ensures CountNamed(SymbolLayout, "text-rotation-alignment") == 1
  {
    assert "icon-rotation-alignment"[0] != "text-rotation-alignment"[0];
    var r1 := SymbolLayout.rest;
    var r4 := r1.rest.rest.rest;
    var r7 := r4.rest.rest.rest;
    var r10 := r7.rest.rest.rest;
    var r13 := r10.rest.rest.rest;
    var r16 := r13.rest.rest.rest;
    var r19 := r16.rest.rest.rest;
    var r22 := r19.rest.rest.rest;
    var r25 := r22.rest.rest.rest;
    var r28 := r25.rest.rest.rest;
    assert CountNamed(r28, "text-rotation-alignment") == 0;
    assert CountNamed(r25, "text-rotation-alignment") == 0;
    assert CountNamed(r22, "text-rotation-alignment") == 0;
    assert CountNamed(r19, "text-rotation-alignment") == 0;
    assert CountNamed(r16, "text-rotation-alignment") == 0;
    assert CountNamed(r13, "text-rotation-alignment") == 0;
    assert CountNamed(r10, "text-rotation-alignment") == 1;
    assert CountNamed(r7, "text-rotation-alignment") == 1;
    assert CountNamed(r4, "text-rotation-alignment") == 1;
    assert CountNamed(r1, "text-rotation-alignment") == 1;
  }

  /** The icon rotation alignment is read by exactly one call of the symbol run. */
  lemma IconAlignmentReadOnce()
    ensures Mentions(SymbolLayout, PropertySpec("icon-rotation-alignment", EnumProperty))
    ensures CountNamed(SymbolLayout, "icon-rotation-alignment") == 1
  {
    assert "icon-rotation-alignment"[0] != "text-rotation-alignment"[0];
    var r1 := SymbolLayout.rest;
    var r4 := r1.rest.rest.rest;
    var r7 := r4.rest.rest.rest;
    var r10 := r7.rest.rest.rest;
    var r13 := r10.rest.rest.rest;
    var r16 := r13.rest.rest.rest;
    var r19 := r16.rest.rest.rest;
    var r22 := r19.rest.rest.rest;
    var r25 := r22.rest.rest.rest;
    var r28 := r25.rest.rest.rest;
    assert CountNamed(r28, "icon-rotation-alignment") == 0;
    assert CountNamed(r25, "icon-rotation-alignment") == 0;
    assert CountNamed(r22, "icon-rotation-alignment") == 0;
    assert CountNamed(r19, "icon-rotation-alignment") == 0;
    assert CountNamed(r16, "icon-rotation-alignment") == 0;
    assert CountNamed(r13, "icon-rotation-alignment") == 0;
    assert CountNamed(r10, "icon-rotation-alignment") == 0;
    assert CountNamed(r7, "icon-rotation-alignment") == 0;
    assert CountNamed(r4, "icon-rotation-alignment") == 1;
    assert CountNamed(r1, "icon-rotation-alignment") == 1;
  }

  /** A rotation alignment after the symbol run: read from its own member, else as it was before the run. */
  lemma AlignmentRead(c: Constants, value: Json, aligned: Props, name: string)
    requires name == "text-rotation-alignment" || name == "icon-rotation-alignment"
    ensures ReadProperty(c, value, name, EnumProperty).Some? ==>
              name in ApplyAll(c, value, SymbolLayout, aligned) &&
              Some(ApplyAll(c, value, SymbolLayout, aligned)[name]) == ReadProperty(c, value, name, EnumProperty)
    ensures ReadProperty(c, value, name, EnumProperty).None? && name in aligned ==>
              name in ApplyAll(c, value, SymbolLayout, aligned) && ApplyAll(c, value, SymbolLayout, aligned)[name] == aligned[name]
  {
    if name == "text-rotation-alignment" {
      TextAlignmentReadOnce();
    } else {
      IconAlignmentReadOnce();
    }
    ApplyReadsOwn(c, value, SymbolLayout, aligned, PropertySpec(name, EnumProperty));
  }

  /**
   * The symbol branch of parseLayout: line placement turns both rotation
   * alignments to "map" before they are read, so "map" is what a line-placed
   * layer gets unless its own alignment member is read.
   */
  function ParseSymbolLayout(c: Constants, value: Json, props: Props): (r: Props)
    ensures ReadProperty(c, value, "text-rotation-alignment", EnumProperty).Some? ==>
              "text-rotation-alignment" in r &&
              Some(r["text-rotation-alignment"]) == ReadProperty(c, value, "text-rotation-alignment", EnumProperty)
    ensures ReadProperty(c, value, "symbol-placement", EnumProperty) == Some(EnumVal("line")) &&
            ReadProperty(c, value, "text-rotation-alignment", EnumProperty).None? ==>
              "text-rotation-alignment" in r && r["text-rotation-alignment"] == EnumVal("map")
    ensures ReadProperty(c, value, "icon-rotation-alignment", EnumProperty).Some? ==>
              "icon-rotation-alignment" in r &&
              Some(r["icon-rotation-alignment"]) == ReadProperty(c, value, "icon-rotation-alignment", EnumProperty)
    ensures ReadProperty(c, value, "symbol-placement", EnumProperty) == Some(EnumVal("line")) &&
            ReadProperty(c, value, "icon-rotation-alignment", EnumProperty).None? ==>
              "icon-rotation-alignment" in r && r["icon-rotation-alignment"] == EnumVal("map")
  {
    var placed := ParseRenderProperty(c, value, "symbol-placement", EnumProperty, props).1;
    var aligned :=
      if "symbol-placement" in placed && placed["symbol-placement"] == EnumVal("line") then
        placed["text-rotation-alignment" := EnumVal("map")]["icon-rotation-alignment" := EnumVal("map")]
      else placed;
    AlignmentRead(c, value, aligned, "text-rotation-alignment");
    AlignmentRead(c, value, aligned, "icon-rotation-alignment");
    ApplyAll(c, value, SymbolLayout, aligned)
  }

  /**
   * parseLayout on a layer of type `t` whose bucket holds the alternative for
   * `t`: sets visibility and the type's own settings; a value that is not an
   * object changes nothing.
   */
  function ParseLayout(c: Constants, value: Json, t: StyleLayerType, bucket: StyleBucket): (r: StyleBucket)
    requires RenderMatches(t, bucket.render)
    ensures RenderType(r.render) == RenderType(bucket.render)
    ensures r.(layout := bucket.layout, render := bucket.render) == bucket
    ensures !value.Obj? ==> r == bucket
    ensures value.Obj? ==> r.layout == ParseRenderProperty(c, value, "visibility", EnumProperty, bucket.layout).1
    ensures value.Obj? && t == Fill ==> r.render == FillRender(ApplyAll(c, value, FillLayout, bucket.render.fill))
    ensures value.Obj? && t == Line ==> r.render == LineRender(ApplyAll(c, value, LineLayout, bucket.render.line))
    ensures value.Obj? && t == Symbol ==> r.render == SymbolRender(ParseSymbolLayout(c, value, bucket.render.symbol))
    ensures !(t == Fill || t == Line || t == Symbol) ==> r.render == bucket.render
  {
    if !value.Obj? then bucket
    else
      var b := bucket.(layout := ParseRenderProperty(c, value, "visibility", EnumProperty, bucket.layout).1);
      match t
      case Fill => b.(render := FillRender(ApplyAll(c, value, FillLayout, b.render.fill)))
      case Line => b.(render := LineRender(ApplyAll(c, value, LineLayout, b.render.line)))
      case Symbol => b.(render := SymbolRender(ParseSymbolLayout(c, value, b.render.symbol)))
      case _ => b
  }

  /** The line cap is read from the "line-cap" member alone. */
  lemma LineCapReadsOwnMember(c: Constants, value: Json, props: Props)
    requires ReadProperty(c, value, "line-cap", EnumProperty).Some?
    ensures "line-cap" in ApplyAll(c, value, LineLayout, props)
    ensures Some(ApplyAll(c, value, LineLayout, props)["line-cap"]) == ReadProperty(c, value, "line-cap", EnumProperty)
  {
    ApplyReadsOwn(c, value, LineLayout, props, PropertySpec("line-cap", EnumProperty));
  }

  // ---------------------------------------------------------------------------
  // parseBucket
  // ---------------------------------------------------------------------------

  /** A member read as a string after substitution; anything else takes the warning path. */
  function StringMember(c: Constants, value: Json, name: string): Option<string> {
    if HasMember(value, name) then
      var v := ReplaceConstant(c, Find(value, name).value);
      if v.Str? then Some(v.s) else None
    else None
  }

  /** A numeric member, read without substitution (as minzoom and maxzoom are). */
  function NumberMember(value: Json, name: string): Option<Number> {
    match Find(value, name)
    case Some(Num(n)) => Some(n)
    case _ => None
  }

  /** The zoom range as parseBucket writes it: a numeric maxzoom overwrites min_zoom. */
  function ApplyZoomsAsWritten(value: Json, b: StyleBucket): StyleBucket {
    var b1 := if NumberMember(value, "minzoom").Some? then b.(minZoom := NumberMember(value, "minzoom")) else b;
    if NumberMember(value, "maxzoom").Some? then b1.(minZoom := NumberMember(value, "maxzoom")) else b1
  }

  /** The zoom range as evidently intended: minzoom sets the lower bound and maxzoom the upper one. */
  function ApplyZooms(value: Json, b: StyleBucket): (r: StyleBucket)
    ensures r.minZoom == (if NumberMember(value, "minzoom").Some? then NumberMember(value, "minzoom") else b.minZoom)
    ensures r.maxZoom == (if NumberMember(value, "maxzoom").Some? then NumberMember(value, "maxzoom") else b.maxZoom)
    ensures r.(minZoom := b.minZoom, maxZoom := b.maxZoom) == b
  {
    var b1 := if NumberMember(value, "minzoom").Some? then b.(minZoom := NumberMember(value, "minzoom")) else b;
    if NumberMember(value, "maxzoom").Some? then b1.(maxZoom := NumberMember(value, "maxzoom")) else b1
  }

  /** As written, a layer giving both bounds loses its minzoom and never gets a maxzoom. */
  lemma MaxZoomOverwritesMinZoom(lo: int, hi: int)
    requires lo != hi
    ensures var value := Obj([Member("minzoom", Num(Integer(lo))), Member("maxzoom", Num(Integer(hi)))]);
            var b := ApplyZoomsAsWritten(value, NewBucket(Fill));
            b.minZoom == Some(Integer(hi)) && b.maxZoom == None
  {
    var value := Obj([Member("minzoom", Num(Integer(lo))), Member("maxzoom", Num(Integer(hi)))]);
    assert "minzoom"[1] != "maxzoom"[1];
    assert FindIn(value.members[1..], "maxzoom") == Some(Num(Integer(hi)));
    assert Find(value, "minzoom") == Some(Num(Integer(lo)));
    assert Find(value, "maxzoom") == Some(Num(Integer(hi)));
  }

  /** Corrected, the same layer keeps both bounds. */
  lemma ZoomsKeepBothBounds(value: Json, b: StyleBucket, lo: Number, hi: Number)
    requires Find(value, "minzoom") == Some(Num(lo)) && Find(value, "maxzoom") == Some(Num(hi))
    ensures ApplyZooms(value, b).minZoom == Some(lo) && ApplyZooms(value, b).maxZoom == Some(hi)
  {
  }

  /**
   * The bucket parseBucket builds for layer `id` of type `t` from its JSON
   * definition, given the names of the parsed sources.
   */
  function BuildBucket(c: Constants, sourceNames: set<string>, value: Json, id: string, t: StyleLayerType): (b: StyleBucket)
    ensures b.name == id
    ensures RenderType(b.render) == RenderType(RenderFor(t))
    ensures b.source.Some? <==> StringMember(c, value, "source").Some? && StringMember(c, value, "source").value in sourceNames
    ensures b.source.Some? ==> b.source == StringMember(c, value, "source")
    ensures b.sourceLayer == StringMember(c, value, "source-layer")
    ensures b.filter.Some? <==> HasMember(value, "filter")
    ensures HasMember(value, "filter") ==> b.filter == Some(ReplaceConstant(c, Find(value, "filter").value))
    ensures b.minZoom == NumberMember(value, "minzoom") && b.maxZoom == NumberMember(value, "maxzoom")
    ensures !HasMember(value, "layout") ==> b.layout == map[] && b.render == RenderFor(t)
    ensures HasMember(value, "layout") ==>
              var laid := ParseLayout(c, ReplaceConstant(c, Find(value, "layout").value), t, NewBucket(t));
              b.layout == laid.layout && b.render == laid.render
  {
    var b0 := NewBucket(t).(name := id);
    var source := StringMember(c, value, "source");
    var b1 := if source.Some? && source.value in sourceNames then b0.(source := source) else b0;
    var b2 := b1.(sourceLayer := StringMember(c, value, "source-layer"));
    var b3 := if HasMember(value, "filter") then b2.(filter := Some(ReplaceConstant(c, Find(value, "filter").value))) else b2;
    RenderForMatches(t);
    var b4 := if HasMember(value, "layout") then ParseLayout(c, ReplaceConstant(c, Find(value, "layout").value), t, b3) else b3;
    ApplyZooms(value, b4)
  }

  // ---------------------------------------------------------------------------
  // Paint values: parseProperty, parseFunction, parseFloatArray
  // ---------------------------------------------------------------------------

  /** The value types a paint function can produce. */
  datatype ValueKind = BoolKind | FloatKind | ColorKind | FloatArrayKind

  /** A function argument or constant; a colour is kept as its CSS text (None: transparent black). */
  datatype Value =
    | BoolValue(b: bool)
    | NumberValue(n: Number)
    | ColorValue(css: Option<string>)
    | ArrayValue(a: seq<Number>)

  datatype Stop = Stop(zoom: Number, value: Value)

  datatype PaintFunction = ConstantFunction(v: Value) | StopsFunction(stops: seq<Stop>, base: Number)

  /** What parsePaint records for a property key. */
  datatype PaintValue =
    | FunctionValue(f: PaintFunction)
    | TransitionValue(duration: nat, delay: nat)
    | StringValue(s: string)
    | AnchorValue(name: string)   // a translate or rotate anchor, kept as its name

  /** The specialisations of parseProperty. */
  datatype PaintKind =
    | FunctionOf(valueKind: ValueKind)
    | StringPaint
    | TranslateAnchorPaint
    | RotateAnchorPaint
    | TransitionPaint

  predicate IsZero(n: Number) {
    match n
    case Integer(i) => i == 0
    case Fractional(r) => r == 0.0
  }

  function NumbersOf(items: seq<Json>): (r: Option<seq<Number>>)
    ensures r.Some? <==> forall i :: 0 <= i < |items| ==> items[i].Num?
    ensures r.Some? ==> |r.value| == |items| && forall i :: 0 <= i < |items| ==> r.value[i] == items[i].n
    decreases |items|
  {
    if items == [] then Some([])
    else if !items[0].Num? then None
    else
      var rest := NumbersOf(items[1..]);
      if rest.None? then
        ghost var i :| 0 <= i < |items[1..]| && !items[1..][i].Num?;
        assert !items[i + 1].Num?;
        None
      else Some([items[0].n] + rest.value)
  }

  /** parseFloatArray: an array all of whose elements are numbers, one float per element. */
  function ParseFloatArray(j: Json): (r: Option<seq<Number>>)
    ensures r.Some? <==> j.Arr? && forall i :: 0 <= i < |j.items| ==> j.items[i].Num?
    ensures r.Some? ==> |r.value| == |j.items| && forall i :: 0 <= i < |j.items| ==> r.value[i] == j.items[i].n
  {
    if j.Arr? then NumbersOf(j.items) else None
  }

  predicate ValueOfKind(k: ValueKind, v: Value) {
    match k
    case BoolKind => v.BoolValue?
    case FloatKind => v.NumberValue?
    case ColorKind => v.ColorValue?
    case FloatArrayKind => v.ArrayValue?
  }

  /** parseFunctionArgument: substitutes a constant, then converts with the type's fallback. */
  function ParseArgument(c: Constants, k: ValueKind, j: Json): (v: Value)
    ensures ValueOfKind(k, v)
    ensures k == BoolKind ==> v.b == (if ReplaceConstant(c, j).Bool? then ReplaceConstant(c, j).b
                                      else ReplaceConstant(c, j).Num? && !IsZero(ReplaceConstant(c, j).n))
    ensures k == FloatKind ==> v.n == (if ReplaceConstant(c, j).Num? then ReplaceConstant(c, j).n else Integer(0))
    ensures k == ColorKind ==> v.css == (if ReplaceConstant(c, j).Str? then Some(ReplaceConstant(c, j).s) else None)
    ensures k == FloatArrayKind && ParseFloatArray(ReplaceConstant(c, j)).Some? ==> v.a == ParseFloatArray(ReplaceConstant(c, j)).value
    ensures k == FloatArrayKind && ParseFloatArray(ReplaceConstant(c, j)).None? ==> v.a == []
  {
    var r := ReplaceConstant(c, j);
    match k
    case BoolKind => BoolValue(if r.Bool? then r.b else if r.Num? then !IsZero(r.n) else false)
    case FloatKind => NumberValue(if r.Num? then r.n else Integer(0))
    case ColorKind => ColorValue(if r.Str? then Some(r.s) else None)
    case FloatArrayKind => ArrayValue(match ParseFloatArray(r) case Some(a) => a case None => [])
  }

  /** A stop is a two-element array whose first element (the zoom) is a number. */
  predicate IsStop(j: Json) {
    j.Arr? && |j.items| == 2 && j.items[0].Num?
  }

  /** The stops loop of parseFunction: one stop per element, in order, or failure on the first bad one. */
  function ParseStops(c: Constants, k: ValueKind, items: seq<Json>): (r: Option<seq<Stop>>)
    ensures r.Some? <==> forall i :: 0 <= i < |items| ==> IsStop(items[i])
    ensures r.Some? ==> |r.value| == |items|
    ensures r.Some? ==> forall i :: 0 <= i < |items| ==>
              r.value[i] == Stop(items[i].items[0].n, ParseArgument(c, k, items[i].items[1]))
    decreases |items|
  {
    if items == [] then Some([])
    else if !IsStop(items[0]) then None
    else
      var rest := ParseStops(c, k, items[1..]);
      if rest.None? then
        ghost var i :| 0 <= i < |items[1..]| && !IsStop(items[1..][i]);
        assert !IsStop(items[i + 1]);
        None
      else
        var first := Stop(items[0].items[0].n, ParseArgument(c, k, items[0].items[1]));
        assert forall i :: 1 <= i < |items| ==> items[i] == items[1..][i - 1];
        Some([first] + rest.value)
  }

  /** defaultBaseValue: 1.0 for colours, 1.75 otherwise. */
  function DefaultBase(k: ValueKind): Number {
    if k == ColorKind then Fractional(1.0) else Fractional(1.75)
  }

  /** parseFunction: a "stops" array of stops, with a numeric "base" or the type's default. */
  function ParseFunction(c: Constants, k: ValueKind, value: Json): (r: Option<PaintFunction>)
    ensures r.Some? <==> HasMember(value, "stops") && Find(value, "stops").value.Arr?
                         && forall i :: 0 <= i < |Find(value, "stops").value.items| ==> IsStop(Find(value, "stops").value.items[i])
    ensures r.Some? ==> r.value.StopsFunction? && |r.value.stops| == |Find(value, "stops").value.items|
    ensures r.Some? ==> r.value.base == (if NumberMember(value, "base").Some? then NumberMember(value, "base").value else DefaultBase(k))
    ensures r.Some? ==> forall i :: 0 <= i < |r.value.stops| ==> ValueOfKind(k, r.value.stops[i].value)
    ensures r.Some? ==> Some(r.value.stops) == ParseStops(c, k, Find(value, "stops").value.items)
  {
    if !HasMember(value, "stops") then None
    else
      var base := match NumberMember(value, "base") case Some(n) => n case None => DefaultBase(k);
      var stops := Find(value, "stops").value;
      if !stops.Arr? then None
      else match ParseStops(c, k, stops.items)
        case None => None
        case Some(ss) => Some(StopsFunction(ss, base))
  }

  /** An unsigned-integer member of a transition object, 0 when absent or not an unsigned integer. */
  function UintMember(j: Json, name: string): nat {
    match Find(j, name)
    case Some(v) => if IsUint(v) then v.n.i else 0
    case None => 0
  }

  /** parseProperty<PropertyTransition>: reported as parsed only when duration or delay is non-zero. */
  function ParseTransition(j: Json): (r: Option<PaintValue>)
    ensures r.Some? <==> j.Obj? && (UintMember(j, "duration") != 0 || UintMember(j, "delay") != 0)
    ensures r.Some? ==> r.value == TransitionValue(UintMember(j, "duration"), UintMember(j, "delay"))
  {
    var duration := if j.Obj? then UintMember(j, "duration") else 0;
    var delay := if j.Obj? then UintMember(j, "delay") else 0;
    if duration == 0 && delay == 0 then None else Some(TransitionValue(duration, delay))
  }

  predicate FunctionOfKind(k: ValueKind, f: PaintFunction) {
    match f
    case ConstantFunction(v) => ValueOfKind(k, v)
    case StopsFunction(stops, _) => forall i :: 0 <= i < |stops| ==> ValueOfKind(k, stops[i].value)
  }

  /** A recorded paint value has the type its property key expects. */
  predicate Typed(kind: PaintKind, v: PaintValue) {
    match kind
    case FunctionOf(k) => v.FunctionValue? && FunctionOfKind(k, v.f)
    case StringPaint => v.StringValue?
    case TranslateAnchorPaint => v.AnchorValue?
    case RotateAnchorPaint => v.AnchorValue?
    case TransitionPaint => v.TransitionValue? && (v.duration != 0 || v.delay != 0)
  }

  /** The constant (non-object) branch of parseProperty for a function-typed property. */
  function ParseConstant(k: ValueKind, j: Json): (r: Option<Value>)
    ensures r.Some? ==> ValueOfKind(k, r.value)
    ensures k == BoolKind && j.Num? ==> r == Some(BoolValue(!IsZero(j.n)))
    ensures k == BoolKind && j.Bool? ==> r == Some(BoolValue(j.b))
    ensures k == FloatKind && j.Num? ==> r == Some(NumberValue(j.n))
    ensures k == FloatKind && j.Bool? ==> r == Some(NumberValue(Integer(if j.b then 1 else 0)))
    ensures (k == BoolKind || k == FloatKind) && !j.Num? && !j.Bool? ==> r.None?
    ensures k == ColorKind ==> r == (if j.Str? then Some(ColorValue(Some(j.s))) else None)
    ensures k == FloatArrayKind ==> (r.Some? <==> ParseFloatArray(j).Some?)
    ensures k == FloatArrayKind && r.Some? ==> r.value == ArrayValue(ParseFloatArray(j).value)
  {
    match k
    case BoolKind =>
      if j.Num? then Some(BoolValue(!IsZero(j.n)))
      else if j.Bool? then Some(BoolValue(j.b))
      else None
    case FloatKind =>
      if j.Num? then Some(NumberValue(j.n))
      else if j.Bool? then Some(NumberValue(Integer(if j.b then 1 else 0)))
      else None
    case ColorKind => if j.Str? then Some(ColorValue(Some(j.s))) else None
    case FloatArrayKind =>
      match ParseFloatArray(j)
      case Some(a) => Some(ArrayValue(a))
      case None => None
  }

  /** The specialisations of parseProperty, on a value already substituted; None is the "not parsed" flag. */
  function ParseProperty(c: Constants, kind: PaintKind, j: Json): (r: Option<PaintValue>)
    ensures r.Some? ==> Typed(kind, r.value)
    ensures kind.FunctionOf? && j.Obj? ==> (r.Some? <==> ParseFunction(c, kind.valueKind, j).Some?)
    ensures kind.FunctionOf? && kind.valueKind != FloatArrayKind && !j.Obj? ==>
              (r.Some? <==> match kind.valueKind
                            case ColorKind => j.Str?
                            case _ => j.Num? || j.Bool?)
    ensures kind == FunctionOf(FloatArrayKind) && !j.Obj? ==> (r.Some? <==> ParseFloatArray(j).Some?)
    ensures (kind == StringPaint || kind == TranslateAnchorPaint || kind == RotateAnchorPaint) ==> (r.Some? <==> j.Str?)
    ensures kind.FunctionOf? && j.Obj? && r.Some? ==> r.value == FunctionValue(ParseFunction(c, kind.valueKind, j).value)
    ensures kind.FunctionOf? && !j.Obj? && r.Some? ==> r.value == FunctionValue(ConstantFunction(ParseConstant(kind.valueKind, j).value))
    ensures kind == StringPaint && j.Str? ==> r == Some(StringValue(j.s))
    ensures (kind == TranslateAnchorPaint || kind == RotateAnchorPaint) && j.Str? ==> r == Some(AnchorValue(j.s))
    ensures kind == TransitionPaint ==> r == ParseTransition(j)
  {
    match kind
    case FunctionOf(k) =>
      if j.Obj? then
        (match ParseFunction(c, k, j)
         case Some(f) => Some(FunctionValue(f))
         case None => None)
      else
        (match ParseConstant(k, j)
         case Some(v) => Some(FunctionValue(ConstantFunction(v)))
         case None => None)
    case StringPaint => if j.Str? then Some(StringValue(j.s)) else None
    case TranslateAnchorPaint => if j.Str? then Some(AnchorValue(j.s)) else None
    case RotateAnchorPaint => if j.Str? then Some(AnchorValue(j.s)) else None
    case TransitionPaint => ParseTransition(j)
  }

  // ---------------------------------------------------------------------------
  // parsePaint
  // ---------------------------------------------------------------------------

  type PropertyKey = string

  /** One set(key, value) call on a ClassProperties. */
  datatype Setting = Setting(key: PropertyKey, value: PaintValue)

  /** A paint class, as the sequence of set calls made on it. */
  type ClassProperties = seq<Setting>

  /** One parseOptionalProperty call: a single key, or an array property split over two keys. */
  datatype PaintEntry =
    | Single(name: string, key: PropertyKey, kind: PaintKind)
    | Pair(name: string, first: PropertyKey, second: PropertyKey, kind: PaintKind)

  function EntryKeys(e: PaintEntry): set<PropertyKey> {
    match e
    case Single(_, key, _) => {key}
    case Pair(_, first, second, _) => {first, second}
  }

  /** setProperty: records the value when parseProperty accepts it. */
  function SetProperty(c: Constants, kind: PaintKind, key: PropertyKey, j: Json, klass: ClassProperties): (r: ClassProperties)
    ensures r == klass || (|r| == |klass| + 1 && r[..|klass|] == klass && r[|klass|].key == key && Typed(kind, r[|klass|].value))
    ensures r != klass <==> ParseProperty(c, kind, j).Some?
    ensures r != klass ==> r[|klass|] == Setting(key, ParseProperty(c, kind, j).value)
  {
    match ParseProperty(c, kind, j)
    case Some(v) => klass + [Setting(key, v)]
    case None => klass
  }

  /** Settings recorded after `klass` each come from a given entry whose member is present. */
  ghost predicate AddedBy(value: Json, e: PaintEntry, klass: ClassProperties, r: ClassProperties) {
    |klass| <= |r| && r[..|klass|] == klass &&
    forall i :: |klass| <= i < |r| ==> r[i].key in EntryKeys(e) && Typed(e.kind, r[i].value) && HasMember(value, e.name)
  }

  /**
   * parseOptionalProperty: the single-key form reports whether it recorded a
   * setting; the array form reports true in every case and records one setting
   * per accepted element of an array of at least two elements.
   */
  function ParseOptionalProperty(c: Constants, value: Json, e: PaintEntry, klass: ClassProperties): (r: (bool, ClassProperties))
    ensures AddedBy(value, e, klass, r.1)
    ensures e.Single? ==> (r.0 <==> |r.1| == |klass| + 1) && |r.1| <= |klass| + 1
    ensures e.Pair? ==> r.0 && |r.1| <= |klass| + 2
    ensures !HasMember(value, e.name) ==> r.1 == klass
    ensures HasMember(value, e.name) && e.Single? ==>
              r.1 == SetProperty(c, e.kind, e.key, ReplaceConstant(c, Find(value, e.name).value), klass)
    ensures HasMember(value, e.name) && e.Pair? ==>
              var pair := ReplaceConstant(c, Find(value, e.name).value);
              r.1 == if pair.Arr? && |pair.items| >= 2
                     then SetProperty(c, e.kind, e.second, pair.items[1], SetProperty(c, e.kind, e.first, pair.items[0], klass))
                     else klass
  {
    if !HasMember(value, e.name) then (e.Pair?, klass)
    else
      var rvalue := ReplaceConstant(c, Find(value, e.name).value);
      match e
      case Single(_, key, kind) =>
        var r := SetProperty(c, kind, key, rvalue, klass);
        (r != klass, r)
      case Pair(_, first, second, kind) =>
        if rvalue.Arr? && |rvalue.items| >= 2 then
          var r1 := SetProperty(c, kind, first, rvalue.items[0], klass);
          var r2 := SetProperty(c, kind, second, rvalue.items[1], r1);
          assert r2[..|klass|] == klass by {
            assert r2[..|r1|] == r1;
            assert r1[..|klass|] == klass;
          }
          (true, r2)
        else (true, klass)
  }

  /** Setting `s` could have been recorded by one of the entries of `table` that `value` names. */
  predicate RecordedBy(value: Json, table: Calls<PaintEntry>, s: Setting) {
    match table
    case Done => false
    case Then(e, rest) =>
      (HasMember(value, e.name) && s.key in EntryKeys(e) && Typed(e.kind, s.value)) || RecordedBy(value, rest, s)
  }

  /** A run of parseOptionalProperty calls on the same class, in order. */
  function ParseEntries(c: Constants, value: Json, table: Calls<PaintEntry>, klass: ClassProperties): (r: ClassProperties)
    ensures |klass| <= |r| && r[..|klass|] == klass
    ensures forall i :: |klass| <= i < |r| ==> RecordedBy(value, table, r[i])
  {
    match table
    case Done => klass
    case Then(e, rest) =>
      var next := ParseOptionalProperty(c, value, e, klass).1;
      var r := ParseEntries(c, value, rest, next);
      assert r[..|next|] == next;
      assert forall i :: |klass| <= i < |next| ==> r[i] == next[i];
      r
  }

  /**
   * Completeness of a run: a single-key entry whose member is present and
   * whose (substituted) value parseProperty accepts leaves that setting in the
   * class.
   */
  lemma {:induction false} EntriesRecord(c: Constants, value: Json, table: Calls<PaintEntry>, klass: ClassProperties, e: PaintEntry)
    requires Mentions(table, e) && e.Single? && HasMember(value, e.name)
    requires ParseProperty(c, e.kind, ReplaceConstant(c, Find(value, e.name).value)).Some?
    ensures Setting(e.key, ParseProperty(c, e.kind, ReplaceConstant(c, Find(value, e.name).value)).value) in ParseEntries(c, value, table, klass)
  {
    match table
    case Then(first, rest) =>
      var next := ParseOptionalProperty(c, value, first, klass).1;
      var r := ParseEntries(c, value, rest, next);
      if first == e {
        assert r[..|next|] == next;
        assert r[|klass|] == next[|klass|];
      } else {
        EntriesRecord(c, value, rest, next, e);
      }
  }

  /** The calls of parsePaint, in its order. */
  const PaintTable: Calls<PaintEntry> :=
    Then(Single("fill-antialias", "FillAntialias", FunctionOf(BoolKind)),
    Then(Single("fill-opacity", "FillOpacity", FunctionOf(FloatKind)),
    Then(Single("fill-opacity-transition", "FillOpacity", TransitionPaint),
    Then(Single("fill-color", "FillColor", FunctionOf(ColorKind)),
    Then(Single("fill-color-transition", "FillColor", TransitionPaint),
    Then(Single("fill-outline-color", "FillOutlineColor", FunctionOf(ColorKind)),
    Then(Single("fill-outline-color-transition", "FillOutlineColor", TransitionPaint),
    Then(Pair("fill-translate", "FillTranslateX", "FillTranslateY", FunctionOf(FloatKind)),
    Then(Single("fill-translate-transition", "FillTranslate", TransitionPaint),
    Then(Single("fill-translate-anchor", "FillTranslateAnchor", TranslateAnchorPaint),
    Then(Single("fill-image", "FillImage", StringPaint),
    Then(Single("line-opacity", "LineOpacity", FunctionOf(FloatKind)),
    Then(Single("line-opacity-transition", "LineOpacity", TransitionPaint),
    Then(Single("line-color", "LineColor", FunctionOf(ColorKind)),
    Then(Single("line-color-transition", "LineColor", TransitionPaint),
    Then(Pair("line-translate", "LineTranslateX", "LineTranslateY", FunctionOf(FloatKind)),
    Then(Single("line-translate-transition", "LineTranslate", TransitionPaint),
    Then(Single("line-translate-anchor", "LineTranslateAnchor", TranslateAnchorPaint),
    Then(Single("line-width", "LineWidth", FunctionOf(FloatKind)),
    Then(Single("line-width-transition", "LineWidth", TransitionPaint),
    Then(Single("line-gap-width", "LineGapWidth", FunctionOf(FloatKind)),
    Then(Single("line-gap-width-transition", "LineGapWidth", TransitionPaint),
    Then(Single("line-blur", "LineBlur", FunctionOf(FloatKind)),
    Then(Single("line-blur-transition", "LineBlur", TransitionPaint),
    Then(Single("line-dasharray", "LineDashArray", FunctionOf(FloatArrayKind)),
    Then(Single("line-image", "LineImage", StringPaint),
    Then(Single("icon-opacity", "IconOpacity", FunctionOf(FloatKind)),
    Then(Single("icon-opacity-transition", "IconOpacity", TransitionPaint),
    Then(Single("icon-rotate", "IconRotate", FunctionOf(FloatKind)),
    Then(Single("icon-size", "IconSize", FunctionOf(FloatKind)),
    Then(Single("icon-size-transition", "IconSize", TransitionPaint),
    Then(Single("icon-color", "IconColor", FunctionOf(ColorKind)),
    Then(Single("icon-color-transition", "IconColor", TransitionPaint),
    Then(Single("icon-halo-color", "IconHaloColor", FunctionOf(ColorKind)),
    Then(Single("icon-halo-color-transition", "IconHaloColor", TransitionPaint),
    Then(Single("icon-halo-width", "IconHaloWidth", FunctionOf(FloatKind)),
    Then(Single("icon-halo-width-transition", "IconHaloWidth", TransitionPaint),
    Then(Single("icon-halo-blur", "IconHaloBlur", FunctionOf(FloatKind)),
    Then(Single("icon-halo-blur-transition", "IconHaloBlur", TransitionPaint),
    Then(Pair("icon-translate", "IconTranslateX", "IconTranslateY", FunctionOf(FloatKind)),
    Then(Single("icon-translate-transition", "IconTranslate", TransitionPaint),
    Then(Single("icon-translate-anchor", "IconTranslateAnchor", TranslateAnchorPaint),
    Then(Single("text-opacity", "TextOpacity", FunctionOf(FloatKind)),
    Then(Single("text-opacity-transition", "TextOpacity", TransitionPaint),
    Then(Single("text-size", "TextSize", FunctionOf(FloatKind)),
    Then(Single("text-size-transition", "TextSize", TransitionPaint),
    Then(Single("text-color", "TextColor", FunctionOf(ColorKind)),
    Then(Single("text-color-transition", "TextColor", TransitionPaint),
    Then(Single("text-halo-color", "TextHaloColor", FunctionOf(ColorKind)),
    Then(Single("text-halo-color-transition", "TextHaloColor", TransitionPaint),
    Then(Single("text-halo-width", "TextHaloWidth", FunctionOf(FloatKind)),
    Then(Single("text-halo-width-transition", "TextHaloWidth", TransitionPaint),
    Then(Single("text-halo-blur", "TextHaloBlur", FunctionOf(FloatKind)),
    Then(Single("text-halo-blur-transition", "TextHaloBlur", TransitionPaint),
    Then(Pair("text-translate", "TextTranslateX", "TextTranslateY", FunctionOf(FloatKind)),
    Then(Single("text-translate-transition", "TextTranslate", TransitionPaint),
    Then(Single("text-translate-anchor", "TextTranslateAnchor", TranslateAnchorPaint),
    Then(Single("raster-opacity", "RasterOpacity", FunctionOf(FloatKind)),
    Then(Single("raster-opacity-transition", "RasterOpacity", TransitionPaint),
    Then(Single("raster-hue-rotate", "RasterHueRotate", FunctionOf(FloatKind)),
    Then(Single("raster-hue-rotate-transition", "RasterHueRotate", TransitionPaint),
    Then(Pair("raster-brightness", "RasterBrightnessLow", "RasterBrightnessHigh", FunctionOf(FloatKind)),
    Then(Single("raster-brightness-transition", "RasterBrightness", TransitionPaint),
    Then(Single("raster-saturation", "RasterSaturation", FunctionOf(FloatKind)),
    Then(Single("raster-saturation-transition", "RasterSaturation", TransitionPaint),
    Then(Single("raster-contrast", "RasterContrast", FunctionOf(FloatKind)),
    Then(Single("raster-contrast-transition", "RasterContrast", TransitionPaint),
    Then(Single("raster-fade-duration", "RasterFade", FunctionOf(FloatKind)),
    Then(Single("raster-fade-duration-transition", "RasterFade", TransitionPaint),
    Then(Single("background-opacity", "BackgroundOpacity", FunctionOf(FloatKind)),
    Then(Single("background-color", "BackgroundColor", FunctionOf(ColorKind)),
    Then(Single("background-image", "BackgroundImage", StringPaint),
    Done))))))))))))))))))))))))))))))))))))))))))))))))))))))))))))))))))))))))

  /**
   * parsePaint: appends to the class, keeping what it held; every new setting
   * is for a key of a property the paint object names, and has that key's type.
   */
  function ParsePaint(c: Constants, value: Json, klass: ClassProperties): (r: ClassProperties)
    ensures |klass| <= |r| && r[..|klass|] == klass
    ensures forall i :: |klass| <= i < |r| ==> RecordedBy(value, PaintTable, r[i])
  {
    ParseEntries(c, value, PaintTable, klass)
  }

  /** parsePaint records every single-key property the paint object gives and parseProperty accepts. */
  lemma PaintRecords(c: Constants, value: Json, klass: ClassProperties, e: PaintEntry)
    requires Mentions(PaintTable, e) && e.Single? && HasMember(value, e.name)
    requires ParseProperty(c, e.kind, ReplaceConstant(c, Find(value, e.name).value)).Some?
    ensures Setting(e.key, ParseProperty(c, e.kind, ReplaceConstant(c, Find(value, e.name).value)).value) in ParsePaint(c, value, klass)
  {
    EntriesRecord(c, value, PaintTable, klass, e);
  }

  // ---------------------------------------------------------------------------
  // parsePaints
  // ---------------------------------------------------------------------------

  /** A paint class identifier; the class dictionary that assigns them is not part of this model. */
  datatype ClassID = Default | Named(code: nat)

  /** The class a layer member feeds: "paint" the default class, "paint.<name>" the named one, others none. */
  function PaintClass(classIdOf: string -> ClassID, name: string): Option<ClassID> {
    if name == "paint" then Some(Default)
    else if |name| > 6 && name[..6] == "paint." then Some(classIdOf(name[6..]))
    else None
  }

  /** parsePaints over `ms`, starting from `acc`; `paints[id]` starts empty when first used. */
  function PaintsFrom(c: Constants, classIdOf: string -> ClassID, ms: seq<Member>, acc: map<ClassID, ClassProperties>): map<ClassID, ClassProperties>
    decreases |ms|
  {
    if ms == [] then acc
    else PaintsFrom(c, classIdOf, ms[1..], PaintMember(c, classIdOf, ms[0], acc))
  }

  /** One member of the layer object: a paint member is parsed into its class, any other leaves `acc` alone. */
  function PaintMember(c: Constants, classIdOf: string -> ClassID, m: Member, acc: map<ClassID, ClassProperties>): map<ClassID, ClassProperties> {
    var id := PaintClass(classIdOf, m.name);
    if id.Some? then
      acc[id.value := ParsePaint(c, ReplaceConstant(c, m.value), if id.value in acc then acc[id.value] else [])]
    else acc
  }

  /** The classes parsePaints produces are exactly those named by some member. */
  lemma {:induction false} PaintsRouted(c: Constants, classIdOf: string -> ClassID, ms: seq<Member>, acc: map<ClassID, ClassProperties>)
    ensures forall id :: id in PaintsFrom(c, classIdOf, ms, acc) <==>
              id in acc || exists i :: 0 <= i < |ms| && PaintClass(classIdOf, ms[i].name) == Some(id)
    decreases |ms|
  {
    if ms != [] {
      var id := PaintClass(classIdOf, ms[0].name);
      var next := PaintMember(c, classIdOf, ms[0], acc);
      assert next.Keys == if id.Some? then acc.Keys + {id.value} else acc.Keys;
      PaintsRouted(c, classIdOf, ms[1..], next);
      assert forall i :: 1 <= i < |ms| ==> ms[i] == ms[1..][i - 1];
    }
  }

  /** Several members feeding one class append to it in turn: what a class held is kept as its prefix. */
  lemma {:induction false} PaintsAppend(c: Constants, classIdOf: string -> ClassID, ms: seq<Member>, acc: map<ClassID, ClassProperties>)
    ensures forall id :: id in acc ==> id in PaintsFrom(c, classIdOf, ms, acc) && acc[id] <= PaintsFrom(c, classIdOf, ms, acc)[id]
    decreases |ms|
  {
    if ms != [] {
      var id := PaintClass(classIdOf, ms[0].name);
      var next := PaintMember(c, classIdOf, ms[0], acc);
      PaintsAppend(c, classIdOf, ms[1..], next);
      forall x | x in acc
        ensures x in next && acc[x] <= next[x]
      {
        if id.Some? && id.value == x {
          var r := ParsePaint(c, ReplaceConstant(c, ms[0].value), acc[x]);
          assert r[..|acc[x]|] == acc[x];
        }
      }
    }
  }

  /** The settings of class `id`; a class not yet created has none. */
  function ClassOf(paints: map<ClassID, ClassProperties>, id: ClassID): ClassProperties {
    if id in paints then paints[id] else []
  }

  /** Reference definition for one class: parsePaint applied, in member order, to each member routed to `id`. */
  function RoutedTo(c: Constants, classIdOf: string -> ClassID, ms: seq<Member>, id: ClassID, klass: ClassProperties): ClassProperties
    decreases |ms|
  {
    if ms == [] then klass
    else
      var next := if PaintClass(classIdOf, ms[0].name) == Some(id) then ParsePaint(c, ReplaceConstant(c, ms[0].value), klass) else klass;
      RoutedTo(c, classIdOf, ms[1..], id, next)
  }

  /** Each class holds exactly what parsePaint makes, in order, of the members routed to it. */
  lemma {:induction false} PaintsCollected(c: Constants, classIdOf: string -> ClassID, ms: seq<Member>, acc: map<ClassID, ClassProperties>)
    ensures forall id :: ClassOf(PaintsFrom(c, classIdOf, ms, acc), id) == RoutedTo(c, classIdOf, ms, id, ClassOf(acc, id))
    decreases |ms|
  {
    if ms != [] {
      var next := PaintMember(c, classIdOf, ms[0], acc);
      PaintsCollected(c, classIdOf, ms[1..], next);
      forall id
        ensures ClassOf(next, id) ==
                  if PaintClass(classIdOf, ms[0].name) == Some(id) then ParsePaint(c, ReplaceConstant(c, ms[0].value), ClassOf(acc, id))
                  else ClassOf(acc, id)
      {
      }
    }
  }
}
