/**
 * `mesh_renderer` of source/tornasol/mesh.cc with the GPU abstracted away:
 * the vertex and index data a quad uploads, its vertex layout, and the
 * `wireframe` and `pending_to_render` flags. The vertex array, buffers,
 * texture and shader program are represented only by the data they receive.
 */
module Mesh {
  import opened Wrappers
  import opened Vector
  import opened Matrix
  import opened Size
  import opened Rect
  import opened Color

  /** The size of a decoded image; decoding itself is not modelled. */
  datatype Image = Image(width: nat, height: nat)

  /** Both quads draw two triangles, (0, 1, 3) and (1, 2, 3). */
  const QuadIndices: seq<nat> := [0, 1, 3, 1, 2, 3]

  /** Floats per vertex: position only for the colour quad, position and UV for the image quad. */
  const ColorStride: nat := 3
  const ImageStride: nat := 5
  /** Offset, in floats, of the UV attribute of the image quad. */
  const ImageUvOffset: nat := 3

  /** The corners of a rect in the quad's vertex order: (b.x, a.y), b, (a.x, b.y), a. */
  function QuadCorners(r: Rect): seq<Vec2>
  {
    [[X(r.b), Y(r.a)], [X(r.b), Y(r.b)], [X(r.a), Y(r.b)], [X(r.a), Y(r.a)]]
  }

  /**
   * Vertex data of `mesh_renderer(rect r, color c, bool wireframe)`: x, y
   * come from r.a and w, h from r.b, giving (x+w, y), (x+w, y+h), (x, y+h),
   * (x, y), all at z = 0.
   */
  function ColorQuadVertices(r: Rect): (vs: seq<real>)
    ensures |vs| == 4 * ColorStride
  {
    var x, y, w, h := X(r.a), Y(r.a), X(r.b), Y(r.b);
    [ x + w, y,     0.0,
      x + w, y + h, 0.0,
      x,     y + h, 0.0,
      x,     y,     0.0 ]
  }

  /** Vertex data of `mesh_renderer(const image& img)`: positions then UVs. */
  function ImageQuadVertices(img: Image): (vs: seq<real>)
    ensures |vs| == 4 * ImageStride
  {
    var x, y, w, h := 0.0, 0.0, img.width as real, img.height as real;
    [ x + w, y,     0.0,   1.0, 1.0,
      x + w, y + h, 0.0,   1.0, 0.0,
      x,     y + h, 0.0,   0.0, 0.0,
      x,     y,     0.0,   0.0, 1.0 ]
  }

  /** The position attribute (offset 0, three floats) of vertex k. */
  function Position(vs: seq<real>, stride: nat, k: nat): Vec3
    requires 3 <= stride && k < 4 && |vs| == 4 * stride
  {
    vs[k * stride .. k * stride + 3]
  }

  /** The UV attribute of vertex k of an image quad. */
  function Uv(vs: seq<real>, k: nat): Vec2
    requires k < 4 && |vs| == 4 * ImageStride
  {
    vs[k * ImageStride + ImageUvOffset .. k * ImageStride + ImageUvOffset + 2]
  }

  class MeshRenderer {
    const wireframe: bool
    const vertices: seq<real>
    const indices: seq<nat>
    /** Floats per vertex in the vertex buffer. */
    const stride: nat
    /** Offset of the UV attribute, for image quads only. */
    const uvOffset: Option<nat>
    /** The `fill_color` uniform of the colour quad's shader. */
    const fillColor: Option<Color>
    /** The `model` uniform. */
    var model: Mat
    var pendingToRender: bool

    /** `mesh_renderer(rect<> r, color c, bool wireframe = false)`. */
    constructor FromRect(r: Rect, c: Color, wireframe: bool)
      ensures this.wireframe == wireframe && pendingToRender
      ensures vertices == ColorQuadVertices(r) && indices == QuadIndices
      ensures stride == ColorStride && uvOffset == None
      ensures fillColor == Some(c) && model == Identity(4)
    {
      this.wireframe := wireframe;
      pendingToRender := true;
      vertices := ColorQuadVertices(r);
      indices := QuadIndices;
      stride := ColorStride;
      uvOffset := None;
      fillColor := Some(c);
      model := Identity(4);
    }

    /** `mesh_renderer(const image& img)`: never wireframe. */
    constructor FromImage(img: Image)
      ensures !wireframe && pendingToRender
      ensures vertices == ImageQuadVertices(img) && indices == QuadIndices
      ensures stride == ImageStride && uvOffset == Some(ImageUvOffset)
      ensures fillColor == None && model == Identity(4)
    {
      wireframe := false;
      pendingToRender := true;
      vertices := ImageQuadVertices(img);
      indices := QuadIndices;
      stride := ImageStride;
      uvOffset := Some(ImageUvOffset);
      fillColor := None;
      model := Identity(4);
    }

    /** `set_transform(m)`: uploads the model matrix and always marks the mesh pending. */
    method SetTransform(m: Mat)
      modifies this
      ensures model == m && pendingToRender
    {
      model := m;
      pendingToRender := true;
    }

    /** `set_pending_to_render(value)`. */
    method SetPendingToRender(value: bool)
      modifies this
      ensures pendingToRender == value && model == old(model)
    {
      pendingToRender := value;
    }

    /** `is_pending_to_render()`. */
    function IsPendingToRender(): bool
      reads this
    {
      pendingToRender
    }

    /** `is_wireframe()`. */
    function IsWireframe(): bool
    {
      wireframe
    }
  }

  // ---------------------------------------------------------------------
  // Properties.
  // ---------------------------------------------------------------------

  /**
   * The colour quad reads r.b as a size: its vertices are the corners of the
   * rect from r.a to r.a + r.b, in QuadCorners order, at z = 0.
   */
  lemma ColorQuadCorners(r: Rect, k: nat)
    requires k < 4
    ensures var c := QuadCorners(Rect(r.a, Sum(r.a, r.b)))[k];
      Position(ColorQuadVertices(r), ColorStride, k) == [c[0], c[1], 0.0]
  {
  }

  /** With r.a at the origin the colour quad covers exactly r, every vertex on its boundary. */
  lemma ColorQuadAtOrigin(r: Rect, k: nat)
    requires k < 4 && r.a == [0.0, 0.0] && Ordered(r)
    ensures var p := Position(ColorQuadVertices(r), ColorStride, k);
      [p[0], p[1]] == QuadCorners(r)[k] && ContainsPoint(r, [p[0], p[1]])
  {
  }

  /** The image quad spans (0, 0) to (width, height). */
  lemma ImageQuadCorners(img: Image, k: nat)
    requires k < 4
    ensures var c := QuadCorners(FromSize(Size2(img.width as real, img.height as real)))[k];
      Position(ImageQuadVertices(img), ImageStride, k) == [c[0], c[1], 0.0]
  {
  }

  /**
   * The image quad's UVs are (1, 1), (1, 0), (0, 0), (0, 1): u grows with x
   * and v falls as y grows, so u = x / width and v = 1 - y / height.
   */
  lemma ImageQuadUvs(img: Image, k: nat)
    requires k < 4 && img.width > 0 && img.height > 0
    ensures Uv(ImageQuadVertices(img), k) == [[1.0, 1.0], [1.0, 0.0], [0.0, 0.0], [0.0, 1.0]][k]
    ensures var p := Position(ImageQuadVertices(img), ImageStride, k);
      Uv(ImageQuadVertices(img), k) == [p[0] / img.width as real, 1.0 - p[1] / img.height as real]
  {
    var vs := ImageQuadVertices(img);
    var w, h := img.width as real, img.height as real;
    DivSelf(w);
    DivSelf(h);
    if k == 0 {
      assert Uv(vs, 0) == vs[3..5] == [1.0, 1.0];
      assert Position(vs, ImageStride, 0) == vs[0..3] == [w, 0.0, 0.0];
    } else if k == 1 {
      assert Uv(vs, 1) == vs[8..10] == [1.0, 0.0];
      assert Position(vs, ImageStride, 1) == vs[5..8] == [w, h, 0.0];
    } else if k == 2 {
      assert Uv(vs, 2) == vs[13..15] == [0.0, 0.0];
      assert Position(vs, ImageStride, 2) == vs[10..13] == [0.0, h, 0.0];
    } else {
      assert Uv(vs, 3) == vs[18..20] == [0.0, 1.0];
      assert Position(vs, ImageStride, 3) == vs[15..18] == [0.0, 0.0, 0.0];
    }
  }

  lemma DivSelf(x: real)
    requires x != 0.0
    ensures x / x == 1.0 && 0.0 / x == 0.0
  {
  }

  /** Every index names one of the 4 vertices, and the two triangles share the edge 1-3. */
  lemma QuadIndexLayout()
    ensures |QuadIndices| == 6
    ensures forall i :: 0 <= i < |QuadIndices| ==> QuadIndices[i] < 4
    ensures {QuadIndices[0], QuadIndices[1], QuadIndices[2]} * {QuadIndices[3], QuadIndices[4], QuadIndices[5]} == {1, 3}
    ensures {QuadIndices[0], QuadIndices[1], QuadIndices[2]} + {QuadIndices[3], QuadIndices[4], QuadIndices[5]} == {0, 1, 2, 3}
  {
  }
}
