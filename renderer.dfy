/**
 * `renderer` of source/tornasol/renderer.cc. The OpenGL calls it makes are
 * recorded as a trace of events; the window, viewport and projection are
 * not modelled. The GL polygon mode is kept as a flag because the source sets
 * it to "line" for a wireframe mesh and never sets it back.
 */
module Renderer {
  import opened Color
  import opened Mesh

  /** `render_stat`: frames presented and draw calls issued. */
  datatype RenderStat = RenderStat(frame: nat, calls: nat)

  /** The GL-visible effects of the renderer, in order. */
  datatype GlEvent =
    | Clear(color: Color)
    | Draw(mesh: MeshRenderer, count: nat, lineMode: bool)
    | Present

  /** Number of indices every mesh draws: two triangles. */
  const QuadIndexCount: nat := 6

  class Renderer {
    var frame: nat
    var calls: nat
    var requests: set<MeshRenderer>
    var clearColor: Color
    /** GL polygon mode: true once a wireframe mesh has been drawn. */
    var lineMode: bool
    var trace: seq<GlEvent>

    /** The constructor: counters start at zero, nothing is registered. */
    constructor(clearColor: Color)
      ensures frame == 0 && calls == 0 && requests == {}
      ensures this.clearColor == clearColor && !lineMode && trace == []
    {
      frame := 0;
      calls := 0;
      requests := {};
      this.clearColor := clearColor;
      lineMode := false;
      trace := [];
    }

    /** `get_stat()`. */
    function GetStat(): (s: RenderStat)
      reads this
      ensures s.frame == frame && s.calls == calls
    {
      RenderStat(frame, calls)
    }

    /** Some registered mesh asks to be drawn. */
    ghost predicate AnyPending()
      reads this, requests
    {
      exists m :: m in requests && m.pendingToRender
    }

    /** `set_clear_color(c)`. */
    method SetClearColor(c: Color)
      modifies this
      ensures clearColor == c
      ensures frame == old(frame) && calls == old(calls) && requests == old(requests)
      ensures lineMode == old(lineMode) && trace == old(trace)
    {
      clearColor := c;
    }

    /** `add_mesh(mesh)`: a set insert, so registering a mesh twice keeps one entry. */
    method AddMesh(m: MeshRenderer)
      modifies this
      ensures requests == old(requests) + {m}
      ensures frame == old(frame) && calls == old(calls) && clearColor == old(clearColor)
      ensures lineMode == old(lineMode) && trace == old(trace)
    {
      requests := requests + {m};
    }

    /** `is_pending_to_render()`: a scan of the registered meshes. */
    method IsPendingToRender() returns (b: bool)
      ensures b <==> AnyPending()
    {
      var rest := requests;
      while rest != {}
        invariant rest <= requests
        invariant forall m :: m in requests - rest ==> !m.pendingToRender
        decreases |rest|
      {
        var m :| m in rest;
        if m.IsPendingToRender() {
          return true;
        }
        rest := rest - {m};
      }
      return false;
    }

    /** `clear(bg)`. */
    method Clear(bg: Color)
      modifies this
      ensures trace == old(trace) + [GlEvent.Clear(bg)]
      ensures frame == old(frame) && calls == old(calls) && requests == old(requests)
      ensures clearColor == old(clearColor) && lineMode == old(lineMode)
    {
      trace := trace + [GlEvent.Clear(bg)];
    }

    /** `present()`: the buffer swap. */
    method Present()
      modifies this
      ensures trace == old(trace) + [GlEvent.Present]
      ensures frame == old(frame) && calls == old(calls) && requests == old(requests)
      ensures clearColor == old(clearColor) && lineMode == old(lineMode)
    {
      trace := trace + [GlEvent.Present];
    }

    /**
     * `render(mesh)`: one draw of 6 indices, one more call; a wireframe mesh
     * switches the polygon mode to lines before drawing.
     */
    method Render(mesh: MeshRenderer)
      modifies this
      ensures lineMode == (old(lineMode) || mesh.wireframe)
      ensures trace == old(trace) + [Draw(mesh, QuadIndexCount, lineMode)]
      ensures calls == old(calls) + 1
      ensures frame == old(frame) && requests == old(requests) && clearColor == old(clearColor)
    {
      if mesh.IsWireframe() {
        lineMode := true;
      }
      trace := trace + [Draw(mesh, QuadIndexCount, lineMode)];
      calls := calls + 1;
    }

    /**
     * `next_frame()`: when nothing is pending, nothing happens. Otherwise the
     * frame is cleared, every registered mesh is drawn exactly once (in an
     * order the model leaves open) and loses its pending flag, the frame is
     * presented and the frame counter advances.
     */
    method NextFrame() returns (ghost draws: seq<GlEvent>)
      modifies this, requests
      ensures requests == old(requests) && clearColor == old(clearColor)
      ensures forall m :: m in requests ==> m.model == old(m.model)
      ensures !old(AnyPending()) ==>
        frame == old(frame) && calls == old(calls) && trace == old(trace) &&
        lineMode == old(lineMode) && forall m :: m in requests ==> m.pendingToRender == old(m.pendingToRender)
      ensures old(AnyPending()) ==>
        && frame == old(frame) + 1
        && calls == old(calls) + |requests|
        && (forall m :: m in requests ==> !m.pendingToRender)
        && trace == old(trace) + [GlEvent.Clear(clearColor)] + draws + [GlEvent.Present]
        && DrawsEachOnce(draws, requests)
        && lineMode == (old(lineMode) || AnyWireframe(requests))
    {
      draws := [];
      var pending := IsPendingToRender();
      if !pending {
        assert !old(AnyPending());
        return;
      }
      Clear(clearColor);
      draws := RenderRequests();
      Present();
      frame := frame + 1;
    }

    /** The body of the loop of `next_frame()`: draw the mesh, then clear its pending flag. */
    method RenderOnce(m: MeshRenderer)
      modifies this, m
      ensures lineMode == (old(lineMode) || m.wireframe)
      ensures trace == old(trace) + [Draw(m, QuadIndexCount, lineMode)]
      ensures calls == old(calls) + 1
      ensures frame == old(frame) && requests == old(requests) && clearColor == old(clearColor)
      ensures !m.pendingToRender && m.model == old(m.model)
    {
      Render(m);
      m.SetPendingToRender(false);
    }

    /** The loop of `next_frame()`: renders each registered mesh once and clears its flag. */
    method RenderRequests() returns (ghost draws: seq<GlEvent>)
      modifies this, requests
      ensures requests == old(requests) && clearColor == old(clearColor) && frame == old(frame)
      ensures calls == old(calls) + |requests|
      ensures forall m :: m in requests ==> !m.pendingToRender && m.model == old(m.model)
      ensures trace == old(trace) + draws && DrawsEachOnce(draws, requests)
      ensures lineMode == (old(lineMode) || AnyWireframe(requests))
    {
      draws := [];
      var reqs := requests;
      var rest := reqs;
      ghost var done: set<MeshRenderer> := {};
      while rest != {}
        invariant done !! rest && done + rest == reqs && requests == reqs
        invariant clearColor == old(clearColor) && frame == old(frame)
        invariant calls == old(calls) + |draws|
        invariant forall m :: m in reqs ==> m.model == old(m.model)
        invariant forall m :: m in done ==> !m.pendingToRender
        invariant trace == old(trace) + draws && DrawsEachOnce(draws, done)
        invariant lineMode == (old(lineMode) || AnyWireframe(done))
        decreases |rest|
      {
        var m :| m in rest;
        RenderOnce(m);
        ghost var e := Draw(m, QuadIndexCount, lineMode);
        DrawsEachOnceExtend(draws, done, e, m);
        draws := draws + [e];
        AnyWireframeExtend(done, m);
        rest := rest - {m};
        done := done + {m};
      }
    }
  }

  /**
   * `draws` are draw calls of 6 indices, one per member of `ms`: distinct
   * meshes of `ms`, as many as `ms` has, so every member appears once.
   */
  ghost predicate DrawsEachOnce(draws: seq<GlEvent>, ms: set<MeshRenderer>)
  {
    && |draws| == |ms|
    && (forall i :: 0 <= i < |draws| ==>
          draws[i].Draw? && draws[i].mesh in ms && draws[i].count == QuadIndexCount)
    && (forall i, j :: 0 <= i < j < |draws| ==> draws[i].mesh != draws[j].mesh)
  }

  lemma DrawsEachOnceExtend(draws: seq<GlEvent>, ms: set<MeshRenderer>, e: GlEvent, m: MeshRenderer)
    requires DrawsEachOnce(draws, ms) && m !in ms && e.Draw? && e.mesh == m && e.count == QuadIndexCount
    ensures DrawsEachOnce(draws + [e], ms + {m})
  {
  }

  /** Some mesh of `ms` is drawn as a wireframe; `wireframe` never changes after construction. */
  predicate AnyWireframe(ms: set<MeshRenderer>)
  {
    exists m :: m in ms && m.wireframe
  }

  lemma AnyWireframeExtend(ms: set<MeshRenderer>, m: MeshRenderer)
    ensures AnyWireframe(ms + {m}) == (AnyWireframe(ms) || m.wireframe)
  {
    if AnyWireframe(ms + {m}) && !m.wireframe {
      var n :| n in ms + {m} && n.wireframe;
      assert n in ms;
    }
  }
}
