/**
 * The interleaved vertex layout main.cpp declares to OpenGL: every vertex
 * is six floats, a position (three floats at offset 0) followed by a
 * colour (three floats at offset 3), so both attributes use a stride of
 * six floats.
 *
 * `Fetch` is what one attribute pointer reads for vertex i; `Deinterleave`
 * reads a whole buffer with both attributes; `Interleave` is its inverse,
 * the packing the table in the source is written in.
 */
module VertexLayout {
  import opened Geometry

  const Stride: nat := 6
  const PositionOffset: nat := 0
  const ColorOffset: nat := 3
  const Components: nat := 3

  /** A vertex as the shader receives it: `position` and `color`. */
  datatype Vertex = Vertex(position: Vec3, color: Vec3)

  /** Number of whole vertices in a buffer of floats. */
  function VertexCount(buf: seq<real>): nat
  {
    |buf| / Stride
  }

  /** First float of vertex `i`'s attribute at `offset`. */
  function Base(i: nat, offset: nat): nat
  {
    Stride * i + offset
  }

  /** The three floats an attribute pointer with this offset reads for vertex `i`. */
  function Fetch(buf: seq<real>, i: nat, offset: nat): (a: Vec3)
    requires offset + Components <= Stride && i < VertexCount(buf)
    ensures Base(i, offset) + Components <= |buf|
    ensures [a.x, a.y, a.z] == buf[Base(i, offset)..Base(i, offset) + Components]
  {
    InBounds(buf, i, offset);
    var b := Base(i, offset);
    Vec3(buf[b], buf[b + 1], buf[b + 2])
  }

  lemma InBounds(buf: seq<real>, i: nat, offset: nat)
    requires offset + Components <= Stride && i < VertexCount(buf)
    ensures Base(i, offset) + 2 < |buf|
  {
  }

  /** Vertex `i` as both attribute pointers read it. */
  function VertexAt(buf: seq<real>, i: nat): (v: Vertex)
    requires i < VertexCount(buf)
    ensures Stride * (i + 1) <= |buf|
  {
    Vertex(Fetch(buf, i, PositionOffset), Fetch(buf, i, ColorOffset))
  }

  /** Vertex `i` spelled out float by float. */
  lemma VertexAtFloats(buf: seq<real>, i: nat)
    requires i < VertexCount(buf)
    ensures 6 * i + 5 < |buf|
    ensures VertexAt(buf, i) ==
      Vertex(Vec3(buf[6 * i], buf[6 * i + 1], buf[6 * i + 2]), Vec3(buf[6 * i + 3], buf[6 * i + 4], buf[6 * i + 5]))
  {
  }

  /** The six floats of one vertex, in layout order. */
  function Pack(v: Vertex): seq<real>
  {
    [v.position.x, v.position.y, v.position.z, v.color.x, v.color.y, v.color.z]
  }

  /** Vertex `i` is the one whose packing is the `i`-th window of six floats. */
  lemma VertexAtPacked(buf: seq<real>, i: nat)
    requires i < VertexCount(buf)
    ensures Pack(VertexAt(buf, i)) == buf[Stride * i..Stride * (i + 1)]
  {
    VertexAtFloats(buf, i);
  }

  /** A sequence of vertices written out in the interleaved layout. */
  function Interleave(vs: seq<Vertex>): seq<real>
  {
    if vs == [] then [] else Pack(vs[0]) + Interleave(vs[1..])
  }

  /** A buffer read vertex by vertex; trailing floats that make no whole vertex are ignored. */
  function Deinterleave(buf: seq<real>): seq<Vertex>
    decreases |buf|
  {
    if |buf| < Stride then [] else [VertexAt(buf, 0)] + Deinterleave(buf[Stride..])
  }

  lemma {:induction false} InterleaveLength(vs: seq<Vertex>)
    ensures |Interleave(vs)| == Stride * |vs|
    ensures VertexCount(Interleave(vs)) == |vs|
  {
    if vs != [] {
      InterleaveLength(vs[1..]);
    }
  }

  /** Reading vertex `i` at stride and offset finds the vertex that was packed there. */
  lemma {:induction false} FetchInterleaved(vs: seq<Vertex>, i: nat)
    requires i < |vs|
    ensures VertexCount(Interleave(vs)) == |vs|
    ensures VertexAt(Interleave(vs), i) == vs[i]
  {
    InterleaveLength(vs);
    if i > 0 {
      FetchInterleaved(vs[1..], i - 1);
      InterleaveLength(vs[1..]);
      var buf, tail := Interleave(vs), Interleave(vs[1..]);
      assert buf == Pack(vs[0]) + tail;
    }
  }

  /** Vertex `i` of the deinterleaved buffer is what the attribute pointers read. */
  lemma {:induction false} DeinterleaveAt(buf: seq<real>, i: nat)
    requires i < VertexCount(buf)
    ensures |Deinterleave(buf)| == VertexCount(buf)
    ensures Deinterleave(buf)[i] == VertexAt(buf, i)
    decreases |buf|
  {
    DeinterleaveLength(buf);
    if i > 0 {
      var tail := buf[Stride..];
      DeinterleaveAt(tail, i - 1);
    }
  }

  lemma {:induction false} DeinterleaveLength(buf: seq<real>)
    ensures |Deinterleave(buf)| == VertexCount(buf)
    decreases |buf|
  {
    if |buf| >= Stride {
      DeinterleaveLength(buf[Stride..]);
    }
  }

  /** Packing vertices and reading them back gives the same vertices. */
  lemma {:induction false} DeinterleaveInterleave(vs: seq<Vertex>)
    ensures Deinterleave(Interleave(vs)) == vs
  {
    var buf := Interleave(vs);
    InterleaveLength(vs);
    DeinterleaveLength(buf);
    forall i | 0 <= i < |vs|
      ensures Deinterleave(buf)[i] == vs[i]
    {
      DeinterleaveAt(buf, i);
      FetchInterleaved(vs, i);
    }
  }

  /** A buffer of whole vertices is exactly the packing of what is read from it. */
  lemma {:induction false} InterleaveDeinterleave(buf: seq<real>)
    requires |buf| % Stride == 0
    ensures Interleave(Deinterleave(buf)) == buf
    decreases |buf|
  {
    if |buf| >= Stride {
      var tail := buf[Stride..];
      InterleaveDeinterleave(tail);
      var vs := Deinterleave(buf);
      assert vs[1..] == Deinterleave(tail);
      assert Pack(vs[0]) == buf[..Stride];
      assert buf == buf[..Stride] + tail;
    }
  }
}
