/**
 * The static vertex table of main.cpp and the vertex count its draw call
 * passes. The table is four single-coloured triangles sharing the apex
 * (0, 0.5, 0): a small pyramid without its base.
 */
module Mesh {
  import opened Geometry
  import opened VertexLayout

  // Device-coordinate macros of the table
  const Left: real := -0.5
  const Top: real := 0.5
  const Right: real := 0.5
  const Bottom: real := -0.5
  const Middle: real := 0.0
  const Near: real := 0.5
  const Far: real := -0.5

  // Colour macros of the table
  const Red := Vec3(1.0, 0.0, 0.0)
  const Blue := Vec3(0.0, 0.0, 1.0)
  const Green := Vec3(0.0, 1.0, 0.0)
  const Purple := Vec3(1.0, 0.0, 1.0)

  const Apex := Vec3(Middle, Top, Middle)

  /**
   * `vertices[]`: one row of six floats per vertex, position then colour.
   * Written as a concatenation of its rows; as one flat sequence it is the
   * same 72 floats.
   */
  const Vertices: seq<real> :=
    [Left, Bottom, Near, 0.0, 0.0, 1.0]         // blue
  + [Right, Bottom, Near, 0.0, 0.0, 1.0]        // blue
  + [Middle, Top, Middle, 0.0, 0.0, 1.0]        // blue
  + [Left, Bottom, Near, 1.0, 0.0, 0.0]         // red
  + [Left, Bottom, Far, 1.0, 0.0, 0.0]          // red
  + [Middle, Top, Middle, 1.0, 0.0, 0.0]        // red
  + [Right, Bottom, Near, 0.0, 1.0, 0.0]        // green
  + [Right, Bottom, Far, 0.0, 1.0, 0.0]         // green
  + [Middle, Top, Middle, 0.0, 1.0, 0.0]        // green
  + [Left, Bottom, Far, 1.0, 0.0, 1.0]          // purple
  + [Right, Bottom, Far, 1.0, 0.0, 1.0]         // purple
  + [Middle, Top, Middle, 1.0, 0.0, 1.0]        // purple

  /** Number of whole triangles a buffer holds, three vertices each. */
  function TriangleCount(buf: seq<real>): nat
  {
    VertexCount(buf) / 3
  }

  /** Corner `c` (0, 1 or 2) of triangle `t`. */
  function Corner(buf: seq<real>, t: nat, c: nat): Vertex
    requires t < TriangleCount(buf) && c < 3
  {
    VertexAt(buf, 3 * t + c)
  }

  predicate IsBinaryColour(c: Vec3)
  {
    (c.x == 0.0 || c.x == 1.0) && (c.y == 0.0 || c.y == 1.0) && (c.z == 0.0 || c.z == 1.0)
  }

  /** The table is 72 floats: twelve whole vertices, four whole triangles. */
  lemma TableShape()
    ensures |Vertices| == 72
    ensures |Vertices| % Stride == 0
    ensures VertexCount(Vertices) == 12
    ensures VertexCount(Vertices) % 3 == 0
    ensures TriangleCount(Vertices) == 4
  {
  }

  /** The twelve vertices the table holds, in order. */
  const TableVertices: seq<Vertex> := [
    Vertex(Vec3(Left, Bottom, Near), Blue),
    Vertex(Vec3(Right, Bottom, Near), Blue),
    Vertex(Apex, Blue),
    Vertex(Vec3(Left, Bottom, Near), Red),
    Vertex(Vec3(Left, Bottom, Far), Red),
    Vertex(Apex, Red),
    Vertex(Vec3(Right, Bottom, Near), Green),
    Vertex(Vec3(Right, Bottom, Far), Green),
    Vertex(Apex, Green),
    Vertex(Vec3(Left, Bottom, Far), Purple),
    Vertex(Vec3(Right, Bottom, Far), Purple),
    Vertex(Apex, Purple)
  ]

  /** Reading the table at stride 6, offsets 0 and 3, gives exactly those vertices. */
  lemma TableDecodes()
    ensures VertexCount(Vertices) == |TableVertices| == 12
    ensures forall i :: 0 <= i < 12 ==> VertexAt(Vertices, i) == TableVertices[i]
  {
    TableShape();
    forall i | 0 <= i < 12
      ensures VertexAt(Vertices, i) == TableVertices[i]
    {
      TableVertexAt(i);
    }
  }

  /** Vertex `i` of the table, read at stride 6 and offsets 0 and 3. */
  lemma TableVertexAt(i: nat)
    requires i < 12
    ensures VertexCount(Vertices) == 12
    ensures VertexAt(Vertices, i) == TableVertices[i]
  {
    TableShape();
    // One literal index per case: the solver reads the concatenated table
    // reliably only at literal positions.
    match i
    case 0 => VertexAtFloats(Vertices, 0);
    case 1 => VertexAtFloats(Vertices, 1);
    case 2 => VertexAtFloats(Vertices, 2);
    case 3 => VertexAtFloats(Vertices, 3);
    case 4 => VertexAtFloats(Vertices, 4);
    case 5 => VertexAtFloats(Vertices, 5);
    case 6 => VertexAtFloats(Vertices, 6);
    case 7 => VertexAtFloats(Vertices, 7);
    case 8 => VertexAtFloats(Vertices, 8);
    case 9 => VertexAtFloats(Vertices, 9);
    case 10 => VertexAtFloats(Vertices, 10);
    case 11 => VertexAtFloats(Vertices, 11);
  }

  /** The table is those twelve vertices written out in the interleaved layout. */
  lemma TableIsPacked()
    ensures Deinterleave(Vertices) == TableVertices
    ensures Vertices == Interleave(TableVertices)
  {
    TableShape();
    TableDecodes();
    DeinterleaveLength(Vertices);
    forall i | 0 <= i < 12
      ensures Deinterleave(Vertices)[i] == TableVertices[i]
    {
      DeinterleaveAt(Vertices, i);
    }
    InterleaveDeinterleave(Vertices);
  }

  /**
   * Each triangle has one colour, every colour component is 0 or 1, the
   * four triangles are blue, red, green and purple in that order, and the
   * third corner of each is the apex.
   */
  lemma TrianglesOfTable()
    ensures TriangleCount(Vertices) == 4
    ensures forall t :: 0 <= t < 4 ==>
      && Corner(Vertices, t, 0).color == Corner(Vertices, t, 1).color == Corner(Vertices, t, 2).color
      && IsBinaryColour(Corner(Vertices, t, 0).color)
      && Corner(Vertices, t, 2).position == Apex
    ensures Corner(Vertices, 0, 0).color == Blue
    ensures Corner(Vertices, 1, 0).color == Red
    ensures Corner(Vertices, 2, 0).color == Green
    ensures Corner(Vertices, 3, 0).color == Purple
  {
    TableShape();
    TableDecodes();
    forall t | 0 <= t < 4
      ensures && Corner(Vertices, t, 0).color == Corner(Vertices, t, 1).color == Corner(Vertices, t, 2).color
              && IsBinaryColour(Corner(Vertices, t, 0).color)
              && Corner(Vertices, t, 2).position == Apex
    {
      assert Corner(Vertices, t, 0) == TableVertices[3 * t];
      assert Corner(Vertices, t, 1) == TableVertices[3 * t + 1];
      assert Corner(Vertices, t, 2) == TableVertices[3 * t + 2];
      // An empty case split: each branch fixes `t` to a literal, so the
      // solver can evaluate the three corners of that one triangle.
      if t == 0 {
      } else if t == 1 {
      } else if t == 2 {
      } else {
      }
    }
    assert Corner(Vertices, 0, 0) == TableVertices[0];
    assert Corner(Vertices, 1, 0) == TableVertices[3];
    assert Corner(Vertices, 2, 0) == TableVertices[6];
    assert Corner(Vertices, 3, 0) == TableVertices[9];
  }

  // ---------------------------------------------------------------------
  // The draw count

  /** `glDrawArrays(GL_TRIANGLES, 0, count)` reads only vertices the buffer holds. */
  predicate DrawInBounds(buf: seq<real>, count: nat)
  {
    count <= VertexCount(buf)
  }

  /** Triangles a `GL_TRIANGLES` draw of `count` vertices assembles. */
  function TrianglesDrawn(count: nat): nat
  {
    count / 3
  }

  /** The count main.cpp passes: `sizeof(vertices)/sizeof(vertices[0])`, the number of floats. */
  function DrawCountAsWritten(buf: seq<real>): (n: nat)
    ensures |buf| % Stride == 0 ==> n == Stride * VertexCount(buf)
    ensures VertexCount(buf) > 0 ==> !DrawInBounds(buf, n)
  {
    |buf|
  }

  /**
   * As written, the draw asks for six times as many vertices as the
   * buffer holds: 72 vertices, 24 triangles, from a table of 12 vertices.
   */
  lemma DrawCountAsWrittenOverruns()
    ensures DrawCountAsWritten(Vertices) == 72
    ensures DrawCountAsWritten(Vertices) == Stride * VertexCount(Vertices)
    ensures !DrawInBounds(Vertices, DrawCountAsWritten(Vertices))
    ensures TrianglesDrawn(DrawCountAsWritten(Vertices)) == 24
    ensures TrianglesDrawn(DrawCountAsWritten(Vertices)) > TriangleCount(Vertices)
  {
    TableShape();
  }

  /** The vertex count the draw call evidently means: whole vertices in the buffer. */
  function DrawCount(buf: seq<real>): (n: nat)
    ensures DrawInBounds(buf, n)
    ensures Stride * n <= |buf| < Stride * (n + 1)
  {
    VertexCount(buf)
  }

  /** With the corrected count the draw covers the table exactly: its 12 vertices, its 4 triangles. */
  lemma DrawCountDrawsTable()
    ensures DrawCount(Vertices) == 12
    ensures DrawInBounds(Vertices, DrawCount(Vertices))
    ensures TrianglesDrawn(DrawCount(Vertices)) == TriangleCount(Vertices) == 4
    ensures DrawCount(Vertices) % 3 == 0
  {
    TableShape();
  }
}
