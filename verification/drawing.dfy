/**
 The parts of the drawing model the viewer window reads: primitives with a
 colour code, layers with a default colour and a computed extent, and blocks
 with a colour. The parser that builds them is not part of this model.
 */
module Drawing {
  import opened Geometry

  datatype Option<T> = None | Some(value: T)

  /** A DXF colour code: a palette index, or one of the two sentinel codes. */
  type Color = int

  /** The integer codes the drawing model reserves for "by layer" and "by block".
      They are case labels of one switch, so they differ. */
  datatype Sentinels = Sentinels(byLayer: Color, byBlock: Color) {
    predicate Valid() { byLayer != byBlock }
  }

  /** What a colour code asks for. */
  datatype ColorKind = ByLayer | ByBlock | Explicit(index: Color)

  /** Decides which of the three cases a colour code falls in. */
  function Classify(c: Color, s: Sentinels): (k: ColorKind)
    requires s.Valid()
    ensures k.ByLayer? <==> c == s.byLayer
    ensures k.ByBlock? <==> c == s.byBlock
    ensures k.Explicit? ==> k.index == c
  {
    if c == s.byLayer then ByLayer
    else if c == s.byBlock then ByBlock
    else Explicit(c)
  }

  datatype Vertex = Vertex(pos: Point)

  /** The geometry of a primitive, one case per object type the viewer draws. */
  datatype Shape =
    | Line(pos: Point, pos2: Point)
    | Polyline(vertices: seq<Vertex>)
    | Circle(center: Point, radius: real)
    | Arc(center: Point, radius: real, startAngle: real, endAngle: real)
    | Unhandled(objectType: int)

  datatype Primitive = Primitive(color: Color, shape: Shape)

  /** A layer; `extent` is the value its last extent update computed. */
  datatype Layer = Layer(defaultColor: Color, objects: seq<Primitive>, extent: Extent)

  datatype Block = Block(color: Color)
}
