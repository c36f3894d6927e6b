/**
 * `StyleBucket`: the render rule a style layer builds, and its constructor,
 * which picks the render-variant alternative (fill, line, symbol or raster
 * settings) from the layer's type.
 */
module Bucket {
  import opened Json

  /**
   * The layer types.  Fill, Line, Symbol and Raster are the ones the
   * constructor names; the enum's declaration is not part of this model, and
   * Unknown and Background stand for the types it leaves without a render
   * alternative.
   */
  datatype StyleLayerType = Unknown | Fill | Line | Symbol | Raster | Background

  /** A value written into a settings struct by the style parser's parseRenderProperty. */
  datatype Prop =
    | BoolVal(b: bool)
    | StringVal(s: string)
    | IntVal(i: int)
    | NumVal(n: Number)
    | Vec2Val(x: Json, y: Json)
    | EnumVal(name: string)   // an enum member, kept as the name it was parsed from

  /**
   * The fields of a settings struct, keyed by the style property that sets
   * them.  A field absent from the map still holds the default its struct
   * declares (those declarations are not part of this model).
   */
  type Props = map<string, Prop>

  /** The render variant: one settings struct per alternative, or none set. */
  datatype Render =
    | NoRender
    | FillRender(fill: Props)
    | LineRender(line: Props)
    | SymbolRender(symbol: Props)
    | RasterRender(raster: Props)

  datatype StyleBucket = StyleBucket(
    name: string,
    source: Option<string>,       // the key of the bound source in the parser's `sources`
    sourceLayer: Option<string>,
    filter: Option<Json>,         // the JSON the filter expression is built from
    layout: Props,                // the bucket's own layout fields (visibility)
    minZoom: Option<Number>,
    maxZoom: Option<Number>,
    render: Render)

  /** The layer type whose settings an alternative holds, if any. */
  function RenderType(r: Render): Option<StyleLayerType> {
    match r
    case NoRender => None
    case FillRender(_) => Some(Fill)
    case LineRender(_) => Some(Line)
    case SymbolRender(_) => Some(Symbol)
    case RasterRender(_) => Some(Raster)
  }

  predicate HasRender(t: StyleLayerType) {
    t == Fill || t == Line || t == Symbol || t == Raster
  }

  /** The switch of `StyleBucket::StyleBucket(StyleLayerType)`. */
  function RenderFor(t: StyleLayerType): (r: Render)
    ensures HasRender(t) ==> RenderType(r) == Some(t)
    ensures !HasRender(t) ==> r == NoRender
  {
    match t
    case Fill => FillRender(map[])
    case Line => LineRender(map[])
    case Symbol => SymbolRender(map[])
    case Raster => RasterRender(map[])
    case _ => NoRender
  }

  /** A freshly constructed bucket: only the render alternative is set. */
  function NewBucket(t: StyleLayerType): (b: StyleBucket)
    ensures b.render == RenderFor(t)
    ensures b.name == "" && b.source == None && b.sourceLayer == None && b.filter == None
    ensures b.layout == map[] && b.minZoom == None && b.maxZoom == None
  {
    StyleBucket("", None, None, None, map[], None, None, RenderFor(t))
  }

  /**
   * What parseLayout's `render.get<...>()` needs: for a fill, line or symbol
   * layer, the bucket holds that type's alternative.
   */
  predicate RenderMatches(t: StyleLayerType, r: Render) {
    (t == Fill ==> r.FillRender?) && (t == Line ==> r.LineRender?) && (t == Symbol ==> r.SymbolRender?)
  }

  /** The alternative a type selects is exactly the one for that type: the switch is injective. */
  lemma RenderForInjective(t1: StyleLayerType, t2: StyleLayerType)
    requires HasRender(t1) && RenderFor(t1) == RenderFor(t2)
    ensures t1 == t2
  {
    assert RenderType(RenderFor(t1)) == Some(t1);
  }

  /**
   * A bucket built from a layer's type always satisfies what parseLayout's
   * `render.get<...>()` for that same type requires.
   */
  lemma RenderForMatches(t: StyleLayerType)
    ensures RenderMatches(t, RenderFor(t))
    ensures RenderMatches(t, NewBucket(t).render)
  {
  }
}
