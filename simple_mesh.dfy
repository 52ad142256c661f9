/**
 * The RenderScript `SimpleMesh`: the types and buffers of a mesh, its
 * creation, the binding of buffers to it, and what drawing and uploading it
 * does.  GL entry points, `Type::enableGLVertexBuffer` and
 * `Allocation::uploadToBufferObject` are outside the model: the calls are
 * returned, in order, as a trace.  A null `ObjectBaseRef` is `None`; the
 * source dereferences some of them without a check, and the model then
 * stops with `ok == false` where the native code would crash.
 */
module SimpleMesh {
  import opened Common

  newtype u32 = x: int | 0 <= x < 0x1_0000_0000

  /** `RsPrimitive`, in declaration order. */
  const RS_PRIMITIVE_POINT: u32 := 0
  const RS_PRIMITIVE_LINE: u32 := 1
  const RS_PRIMITIVE_LINE_STRIP: u32 := 2
  const RS_PRIMITIVE_TRIANGLE: u32 := 3
  const RS_PRIMITIVE_TRIANGLE_STRIP: u32 := 4
  const RS_PRIMITIVE_TRIANGLE_FAN: u32 := 5

  /** The OpenGL ES enumerants the mesh code uses. */
  const GL_POINTS := 0x0000
  const GL_LINES := 0x0001
  const GL_LINE_LOOP := 0x0002
  const GL_LINE_STRIP := 0x0003
  const GL_TRIANGLES := 0x0004
  const GL_TRIANGLE_STRIP := 0x0005
  const GL_TRIANGLE_FAN := 0x0006
  const GL_UNSIGNED_SHORT := 0x1403
  const GL_VERTEX_ARRAY := 0x8074
  const GL_NORMAL_ARRAY := 0x8075
  const GL_COLOR_ARRAY := 0x8076
  const GL_TEXTURE_COORD_ARRAY := 0x8078
  const GL_TEXTURE0 := 0x84C0
  const GL_ARRAY_BUFFER := 0x8892
  const GL_ELEMENT_ARRAY_BUFFER := 0x8893

  /** A RenderScript `Type`; only its X dimension matters here. */
  datatype Type = Type(dimX: u32)

  /** An `Allocation`, known by its GL buffer object. */
  datatype Allocation = Allocation(bufferObjectID: u32)

  /** A call made while drawing or uploading.  `mode` is `None` when the
      mesh's GL primitive was never assigned, because the primitive it was
      created with is none of the six known ones. */
  datatype RenderCall =
    | DisableClientState(cap: int)
    | ClientActiveTexture(texture: int)
    | BindBuffer(target: int, buffer: u32)
    | EnableVertexBuffer(vertexType: Type)
    | DrawElements(mode: Option<int>, count: u32, indexType: int, offset: u32)
    | DrawArrays(mode: Option<int>, first: u32, count: u32)
    | Upload(allocation: Allocation)

  predicate IsDraw(c: RenderCall)
  {
    c.DrawElements? || c.DrawArrays?
  }

  /** The switch in `rsi_SimpleMeshCreate`: each `RsPrimitive` to its GL
      primitive; any other value leaves `mGLPrimitive` unassigned. */
  function GLPrimitiveOf(p: u32): (r: Option<int>)
    ensures r.Some? <==> p <= RS_PRIMITIVE_TRIANGLE_FAN
  {
    match p
    case 0 => Some(GL_POINTS)
    case 1 => Some(GL_LINES)
    case 2 => Some(GL_LINE_STRIP)
    case 3 => Some(GL_TRIANGLES)
    case 4 => Some(GL_TRIANGLE_STRIP)
    case 5 => Some(GL_TRIANGLE_FAN)
    case _ => None
  }

  /** The inverse reading: which `RsPrimitive` a GL primitive stands for. */
  function RsPrimitiveOf(gl: int): (r: Option<u32>)
  {
    if gl == GL_POINTS then Some(RS_PRIMITIVE_POINT)
    else if gl == GL_LINES then Some(RS_PRIMITIVE_LINE)
    else if gl == GL_LINE_STRIP then Some(RS_PRIMITIVE_LINE_STRIP)
    else if gl == GL_TRIANGLES then Some(RS_PRIMITIVE_TRIANGLE)
    else if gl == GL_TRIANGLE_STRIP then Some(RS_PRIMITIVE_TRIANGLE_STRIP)
    else if gl == GL_TRIANGLE_FAN then Some(RS_PRIMITIVE_TRIANGLE_FAN)
    else None
  }

  /** The map is one-to-one on the six primitives and never yields a line
      loop: reading the GL primitive back gives the `RsPrimitive`, and every
      GL primitive the map can yield comes from exactly one. */
  lemma GLPrimitiveRoundTrip(p: u32, gl: int)
    ensures GLPrimitiveOf(p).Some? ==> RsPrimitiveOf(GLPrimitiveOf(p).value) == Some(p)
    ensures RsPrimitiveOf(gl).Some? ==> GLPrimitiveOf(RsPrimitiveOf(gl).value) == Some(gl)
    ensures GLPrimitiveOf(p) != Some(GL_LINE_LOOP)
  {
  }

  /** The values of the set references among `s`, in order. */
  function SetValues<T>(s: seq<Option<T>>): (r: seq<T>)
    ensures |r| <= |s|
  {
    if s == [] then []
    else SetValues(s[..|s| - 1]) + (if s[|s| - 1].Some? then [s[|s| - 1].value] else [])
  }

  /** Exactly the set references are kept, and nothing else. */
  lemma {:induction false} SetValuesMembership<T>(s: seq<Option<T>>)
    ensures forall x :: x in SetValues(s) <==> Some(x) in s
  {
    if s != [] {
      var init := s[..|s| - 1];
      SetValuesMembership(init);
      assert s == init + [s[|s| - 1]];
      forall x
        ensures Some(x) in s <==> Some(x) in init || Some(x) == s[|s| - 1]
      {
      }
    }
  }

  /** No reference is null. */
  predicate AllSet<T>(s: seq<Option<T>>)
  {
    forall i :: 0 <= i < |s| ==> s[i].Some?
  }

  /** The three client states and every texture unit's texture coordinates
      switched off, ending on texture unit 0. */
  function Prologue(maxTextures: nat): (r: seq<RenderCall>)
    ensures |r| == 2 * maxTextures + 4
    ensures r[..3] == [DisableClientState(GL_VERTEX_ARRAY), DisableClientState(GL_NORMAL_ARRAY), DisableClientState(GL_COLOR_ARRAY)]
    ensures forall i :: 0 <= i < maxTextures ==>
              r[3 + 2 * i] == ClientActiveTexture(GL_TEXTURE0 + i) && r[4 + 2 * i] == DisableClientState(GL_TEXTURE_COORD_ARRAY)
    ensures r[|r| - 1] == ClientActiveTexture(GL_TEXTURE0)
  {
    [DisableClientState(GL_VERTEX_ARRAY), DisableClientState(GL_NORMAL_ARRAY), DisableClientState(GL_COLOR_ARRAY)]
    + TextureReset(maxTextures) + [ClientActiveTexture(GL_TEXTURE0)]
  }

  /** For each of the first `n` texture units in turn: select it and switch
      its texture coordinates off. */
  function TextureReset(n: nat): (r: seq<RenderCall>)
    ensures |r| == 2 * n
    ensures forall i :: 0 <= i < n ==>
              r[2 * i] == ClientActiveTexture(GL_TEXTURE0 + i) && r[2 * i + 1] == DisableClientState(GL_TEXTURE_COORD_ARRAY)
  {
    if n == 0 then []
    else TextureReset(n - 1) + [ClientActiveTexture(GL_TEXTURE0 + n - 1), DisableClientState(GL_TEXTURE_COORD_ARRAY)]
  }

  /** For each vertex slot in turn, its buffer bound as the array buffer and
      its type's vertex buffer enabled. */
  function Bindings(types: seq<Option<Type>>, buffers: seq<Option<Allocation>>): (r: seq<RenderCall>)
    requires |types| == |buffers| && AllSet(types) && AllSet(buffers)
  {
    if types == [] then []
    else
      var n := |types| - 1;
      Bindings(types[..n], buffers[..n])
      + [BindBuffer(GL_ARRAY_BUFFER, buffers[n].value.bufferObjectID), EnableVertexBuffer(types[n].value)]
  }

  /** The shape of the bindings: two calls per slot, in slot order. */
  lemma {:induction false} BindingsAt(types: seq<Option<Type>>, buffers: seq<Option<Allocation>>)
    requires |types| == |buffers| && AllSet(types) && AllSet(buffers)
    ensures |Bindings(types, buffers)| == 2 * |types|
    ensures forall i :: 0 <= i < |types| ==>
              && Bindings(types, buffers)[2 * i] == BindBuffer(GL_ARRAY_BUFFER, buffers[i].value.bufferObjectID)
              && Bindings(types, buffers)[2 * i + 1] == EnableVertexBuffer(types[i].value)
  {
    if types != [] {
      var n := |types| - 1;
      BindingsAt(types[..n], buffers[..n]);
    }
  }

  /** None of the calls before the draw draws. */
  lemma {:induction false} PrologueDrawsNothing(maxTextures: nat)
    ensures forall c :: c in Prologue(maxTextures) ==> !IsDraw(c)
  {
    TextureResetDrawsNothing(maxTextures);
  }

  lemma {:induction false} TextureResetDrawsNothing(n: nat)
    ensures forall c :: c in TextureReset(n) ==> !IsDraw(c)
  {
    if n > 0 {
      TextureResetDrawsNothing(n - 1);
    }
  }

  lemma {:induction false} BindingsDrawNothing(types: seq<Option<Type>>, buffers: seq<Option<Allocation>>)
    requires |types| == |buffers| && AllSet(types) && AllSet(buffers)
    ensures forall c :: c in Bindings(types, buffers) ==> !IsDraw(c)
  {
    if types != [] {
      var n := |types| - 1;
      BindingsDrawNothing(types[..n], buffers[..n]);
    }
  }

  /** The draw call that ends `renderRange`: indexed drawing reads unsigned
      shorts from the bound element buffer at byte offset `start * 2`,
      computed in 32 bits; otherwise arrays are drawn from `start`. */
  function DrawCall(mode: Option<int>, indexed: bool, start: u32, len: u32): (r: RenderCall)
    ensures IsDraw(r)
  {
    if indexed then DrawElements(mode, len, GL_UNSIGNED_SHORT, ((start as int * 2) % 0x1_0000_0000) as u32)
    else DrawArrays(mode, start, len)
  }

  /** The calls of a `renderRange` that does not crash. */
  function RangeCalls(maxTextures: nat, types: seq<Option<Type>>, buffers: seq<Option<Allocation>>,
                      index: Option<Allocation>, mode: Option<int>, indexed: bool, start: u32, len: u32): (r: seq<RenderCall>)
    requires |types| == |buffers| && AllSet(types) && AllSet(buffers) && (indexed ==> index.Some?)
  {
    if len < 1 then []
    else
      Prologue(maxTextures) + Bindings(types, buffers)
      + (if indexed then [BindBuffer(GL_ELEMENT_ARRAY_BUFFER, index.value.bufferObjectID)] else [])
      + [DrawCall(mode, indexed, start, len)]
  }

  /** An empty range draws nothing at all; any other range issues exactly
      one draw, as its last call, for `len` elements. */
  lemma RangeCallsDrawOnce(maxTextures: nat, types: seq<Option<Type>>, buffers: seq<Option<Allocation>>,
                           index: Option<Allocation>, mode: Option<int>, indexed: bool, start: u32, len: u32)
    requires |types| == |buffers| && AllSet(types) && AllSet(buffers) && (indexed ==> index.Some?)
    ensures var r := RangeCalls(maxTextures, types, buffers, index, mode, indexed, start, len);
            && (len < 1 ==> r == [])
            && (len >= 1 ==>
                  && |r| > 0 && r[|r| - 1] == DrawCall(mode, indexed, start, len)
                  && forall i :: 0 <= i < |r| - 1 ==> !IsDraw(r[i]))
  {
    if len >= 1 {
      PrologueDrawsNothing(maxTextures);
      BindingsDrawNothing(types, buffers);
      var r := RangeCalls(maxTextures, types, buffers, index, mode, indexed, start, len);
      var front := Prologue(maxTextures) + Bindings(types, buffers)
                   + (if indexed then [BindBuffer(GL_ELEMENT_ARRAY_BUFFER, index.value.bufferObjectID)] else []);
      assert r == front + [DrawCall(mode, indexed, start, len)];
      forall i | 0 <= i < |r| - 1
        ensures !IsDraw(r[i])
      {
        assert r[i] == front[i];
        assert front[i] in front;
      }
    }
  }

  /** The candidates for `render`'s length, in the order it tries them. */
  function FirstSet(candidates: seq<Option<Type>>): (r: Option<Type>)
    ensures r.Some? <==> exists i :: 0 <= i < |candidates| && candidates[i].Some?
    ensures r.Some? ==> exists i :: 0 <= i < |candidates| && candidates[i] == r
                          && forall j :: 0 <= j < i ==> candidates[j].None?
  {
    if candidates == [] then None
    else if candidates[0].Some? then candidates[0]
    else
      var r := FirstSet(candidates[1..]);
      assert forall i :: 1 <= i < |candidates| ==> candidates[i] == candidates[1..][i - 1];
      if r.Some? then
        var k :| 0 <= k < |candidates[1..]| && candidates[1..][k] == r
                 && forall j :: 0 <= j < k ==> candidates[1..][j].None?;
        assert candidates[k + 1] == r;
        r
      else
        r
  }

  class SimpleMesh {
    /** `mIndexType` and `mPrimitiveType` */
    var indexType: Option<Type>
    var primitiveType: Option<Type>
    /** `mVertexTypeCount`, `mVertexTypes`, `mVertexBuffers` */
    var vertexTypeCount: u32
    var vertexTypes: array<Option<Type>>
    var vertexBuffers: array<Option<Allocation>>
    /** `mIndexBuffer` and `mPrimitiveBuffer` */
    var indexBuffer: Option<Allocation>
    var primitiveBuffer: Option<Allocation>
    /** `mPrimitive`, and `mGLPrimitive` (`None` while unassigned) */
    var primitive: u32
    var glPrimitive: Option<int>

    /** Both slot arrays hold `vertexTypeCount` entries. */
    ghost predicate Valid()
      reads this
    {
      vertexTypes.Length == vertexTypeCount as int && vertexBuffers.Length == vertexTypeCount as int
    }

    /** `SimpleMesh(Context *)`: every reference null, no vertex slots. */
    constructor ()
      ensures Valid()
      ensures indexType == None && primitiveType == None && vertexTypeCount == 0
      ensures indexBuffer == None && primitiveBuffer == None && glPrimitive == None
    {
      indexType, primitiveType := None, None;
      vertexTypeCount := 0;
      vertexTypes := new Option<Type>[0];
      vertexBuffers := new Option<Allocation>[0];
      indexBuffer, primitiveBuffer := None, None;
      primitive := 0;
      glPrimitive := None;
    }

    /** The length `render` draws: the primitive type's X dimension if there
        is a primitive type, else the index type's, else vertex type 0's.
        `None` where the source dereferences a missing vertex type 0. */
    function RenderLength(): (len: Option<u32>)
      requires Valid()
      reads this, vertexTypes
      ensures var t := FirstSet(LengthCandidates());
              len == if t.Some? then Some(t.value.dimX) else None
    {
      RenderLengthIsFirstSet();
      if primitiveType.Some? then Some(primitiveType.value.dimX)
      else if indexType.Some? then Some(indexType.value.dimX)
      else if vertexTypeCount > 0 && vertexTypes[0].Some? then Some(vertexTypes[0].value.dimX)
      else None
    }

    /** The types `render` takes its length from, in priority order. */
    function LengthCandidates(): (c: seq<Option<Type>>)
      requires Valid()
      reads this, vertexTypes
    {
      [primitiveType, indexType] + (if vertexTypeCount > 0 then [vertexTypes[0]] else [])
    }

    lemma RenderLengthIsFirstSet()
      requires Valid()
      ensures var t := FirstSet(LengthCandidates());
              && (primitiveType.Some? ==> t == primitiveType)
              && (primitiveType.None? && indexType.Some? ==> t == indexType)
              && (primitiveType.None? && indexType.None? ==>
                    t == if vertexTypeCount > 0 then vertexTypes[0] else None)
    {
      var c := LengthCandidates();
      if primitiveType.None? {
        assert c[1..] == [indexType] + (if vertexTypeCount > 0 then [vertexTypes[0]] else []);
        if indexType.None? {
          assert c[1..][1..] == (if vertexTypeCount > 0 then [vertexTypes[0]] else []);
        }
      }
    }

    /** `render`: draw the whole mesh. */
    method Render(maxTextures: nat) returns (calls: seq<RenderCall>, ok: bool)
      requires Valid()
      ensures RenderLength().None? ==> calls == [] && !ok
      ensures RenderLength().Some? ==>
                (ok <==> RenderLength().value < 1 || RangeSafe())
      ensures RenderLength().Some? && RenderLength().value < 1 ==> calls == []
      ensures RenderLength().Some? && ok && RangeSafe() ==>
                calls == RangeCalls(maxTextures, vertexTypes[..], vertexBuffers[..], indexBuffer,
                                    glPrimitive, indexType.Some?, 0, RenderLength().value)
    {
      var len := RenderLength();
      if len.None? {
        return [], false;
      }
      calls, ok := RenderRange(0, len.value, maxTextures);
    }

    /** A non-empty range can be drawn without dereferencing a null
        reference: every slot has its type and buffer, and an indexed mesh
        has its index buffer. */
    ghost predicate RangeSafe()
      requires Valid()
      reads this, vertexTypes, vertexBuffers
    {
      AllSet(vertexTypes[..]) && AllSet(vertexBuffers[..]) && (indexType.Some? ==> indexBuffer.Some?)
    }

    /** `renderRange(start, len)`, with `maxTextures` for `RS_MAX_TEXTURE`:
        nothing for an empty range; otherwise reset the client state, bind
        every vertex slot, and draw. */
    method RenderRange(start: u32, len: u32, maxTextures: nat) returns (calls: seq<RenderCall>, ok: bool)
      requires Valid()
      ensures len < 1 ==> calls == [] && ok
      ensures len >= 1 ==> (ok <==> RangeSafe())
      ensures ok && RangeSafe() ==> calls == RangeCalls(maxTextures, vertexTypes[..], vertexBuffers[..], indexBuffer,
                                         glPrimitive, indexType.Some?, start, len)
    {
      if len < 1 {
        return [], true;
      }
      calls := [DisableClientState(GL_VERTEX_ARRAY), DisableClientState(GL_NORMAL_ARRAY), DisableClientState(GL_COLOR_ARRAY)];
      for ct := 0 to maxTextures
        invariant calls == Prologue(0)[..3] + TextureReset(ct)
      {
        calls := calls + [ClientActiveTexture(GL_TEXTURE0 + ct), DisableClientState(GL_TEXTURE_COORD_ARRAY)];
      }
      calls := calls + [ClientActiveTexture(GL_TEXTURE0)];
      var prologue := calls;
      assert prologue == Prologue(maxTextures);
      var n := vertexTypeCount as int;
      for ct := 0 to n
        invariant AllSet(vertexTypes[..ct]) && AllSet(vertexBuffers[..ct])
        invariant calls == prologue + Bindings(vertexTypes[..ct], vertexBuffers[..ct])
      {
        if vertexBuffers[ct].None? {
          return calls, false;
        }
        calls := calls + [BindBuffer(GL_ARRAY_BUFFER, vertexBuffers[ct].value.bufferObjectID)];
        if vertexTypes[ct].None? {
          return calls, false;
        }
        calls := calls + [EnableVertexBuffer(vertexTypes[ct].value)];
        assert vertexTypes[..ct + 1][..ct] == vertexTypes[..ct];
        assert vertexBuffers[..ct + 1][..ct] == vertexBuffers[..ct];
      }
      assert vertexTypes[..n] == vertexTypes[..] && vertexBuffers[..n] == vertexBuffers[..];
      if indexType.Some? {
        if indexBuffer.None? {
          return calls, false;
        }
        calls := calls + [BindBuffer(GL_ELEMENT_ARRAY_BUFFER, indexBuffer.value.bufferObjectID)];
      }
      calls := calls + [DrawCall(glPrimitive, indexType.Some?, start, len)];
      ok := true;
    }

    /** `uploadAll`: upload every bound vertex buffer in slot order, then the
        index buffer and the primitive buffer if bound. */
    method UploadAll() returns (uploaded: seq<Allocation>)
      requires Valid()
      ensures uploaded == SetValues(vertexBuffers[..] + [indexBuffer, primitiveBuffer])
    {
      uploaded := [];
      var n := vertexTypeCount as int;
      for ct := 0 to n
        invariant uploaded == SetValues(vertexBuffers[..ct])
      {
        if vertexBuffers[ct].Some? {
          uploaded := uploaded + [vertexBuffers[ct].value];
        }
        assert vertexBuffers[..ct + 1][..ct] == vertexBuffers[..ct];
      }
      assert vertexBuffers[..n] == vertexBuffers[..];
      if indexBuffer.Some? {
        uploaded := uploaded + [indexBuffer.value];
      }
      assert (vertexBuffers[..] + [indexBuffer, primitiveBuffer])[..n + 1] == vertexBuffers[..] + [indexBuffer];
      if primitiveBuffer.Some? {
        uploaded := uploaded + [primitiveBuffer.value];
      }
    }

    /** `rsi_SimpleMeshBindVertex`: set the buffer of one vertex slot, which
        must exist. */
    method BindVertex(va: Option<Allocation>, slot: u32)
      requires Valid() && slot < vertexTypeCount
      modifies vertexBuffers
      ensures vertexBuffers[..] == old(vertexBuffers[..])[slot := va]
    {
      vertexBuffers[slot] := va;
    }

    /** `rsi_SimpleMeshBindIndex` */
    method BindIndex(va: Option<Allocation>)
      modifies this
      ensures indexBuffer == va
      ensures primitiveBuffer == old(primitiveBuffer) && indexType == old(indexType)
      ensures primitiveType == old(primitiveType) && vertexTypeCount == old(vertexTypeCount)
      ensures vertexTypes == old(vertexTypes) && vertexBuffers == old(vertexBuffers)
      ensures primitive == old(primitive) && glPrimitive == old(glPrimitive)
    {
      indexBuffer := va;
    }

    /** `rsi_SimpleMeshBindPrimitive` */
    method BindPrimitive(va: Option<Allocation>)
      modifies this
      ensures primitiveBuffer == va
      ensures indexBuffer == old(indexBuffer) && indexType == old(indexType)
      ensures primitiveType == old(primitiveType) && vertexTypeCount == old(vertexTypeCount)
      ensures vertexTypes == old(vertexTypes) && vertexBuffers == old(vertexBuffers)
      ensures primitive == old(primitive) && glPrimitive == old(glPrimitive)
    {
      primitiveBuffer := va;
    }
  }

  /** `rsi_SimpleMeshCreate`: a mesh with the given primitive and index
      types, `vtxCount` vertex slots holding the first `vtxCount` given vertex
      types and no buffers, and the GL primitive of `primType`. */
  method SimpleMeshCreate(prim: Option<Type>, idx: Option<Type>, vtx: seq<Option<Type>>, vtxCount: u32, primType: u32)
      returns (sm: SimpleMesh)
    requires vtxCount as int <= |vtx|
    ensures fresh(sm) && fresh(sm.vertexTypes) && fresh(sm.vertexBuffers) && sm.Valid()
    ensures sm.indexType == idx && sm.primitiveType == prim && sm.vertexTypeCount == vtxCount
    ensures sm.vertexTypes[..] == vtx[..vtxCount]
    ensures forall i :: 0 <= i < sm.vertexBuffers.Length ==> sm.vertexBuffers[i].None?
    ensures sm.indexBuffer == None && sm.primitiveBuffer == None
    ensures sm.primitive == primType && sm.glPrimitive == GLPrimitiveOf(primType)
  {
    sm := new SimpleMesh();
    sm.indexType := idx;
    sm.primitiveType := prim;
    sm.vertexTypeCount := vtxCount;
    var types := CopyTypes(vtx, vtxCount);
    sm.vertexTypes := types;
    sm.vertexBuffers := new Option<Allocation>[vtxCount](_ => None);
    sm.primitive := primType;
    var gl := GLPrimitiveOf(primType);
    if gl.Some? {
      sm.glPrimitive := gl;
    }
  }

  /** The vertex-type array of `rsi_SimpleMeshCreate`, filled slot by slot
      from the first `vtxCount` given types. */
  method CopyTypes(vtx: seq<Option<Type>>, vtxCount: u32) returns (types: array<Option<Type>>)
    requires vtxCount as int <= |vtx|
    ensures fresh(types) && types[..] == vtx[..vtxCount]
  {
    types := new Option<Type>[vtxCount](_ => None);
    for ct := 0 to vtxCount
      invariant types[..ct] == vtx[..ct]
    {
      types[ct] := vtx[ct];
    }
  }

  /** A freshly created mesh with a vertex slot bound draws its slots and
      then one array draw of the primitive type's length. */
  method DrawCreatedScenario(t: Type, buffer: Allocation) returns (calls: seq<RenderCall>, ok: bool)
    requires t.dimX > 0
    ensures ok
    ensures |calls| > 0 && calls[|calls| - 1] == DrawArrays(Some(GL_TRIANGLES), 0, t.dimX)
    ensures BindBuffer(GL_ARRAY_BUFFER, buffer.bufferObjectID) in calls
  {
    var sm := SimpleMeshCreate(Some(t), None, [Some(t)], 1, RS_PRIMITIVE_TRIANGLE);
    sm.BindVertex(Some(buffer), 0);
    calls, ok := sm.Render(1);
    BindingsAt(sm.vertexTypes[..], sm.vertexBuffers[..]);
    assert Bindings(sm.vertexTypes[..], sm.vertexBuffers[..])[0] in Bindings(sm.vertexTypes[..], sm.vertexBuffers[..]);
  }
}
