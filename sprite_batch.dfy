/**
 * The sprite batch: a CPU-side list of vertices and 16-bit indices that sprites are appended
 * to, a dirty flag that says whether the GPU copy is stale, and the reference count of the
 * texture the batch draws with. The GPU buffers are modelled as two further sequences that
 * an upload overwrites; vertex coordinates are only copied, never computed.
 */
module SpriteBatch {
  import opened Ints

  /** A textured vertex: position and texture coordinates. */
  datatype Vertex = Vertex(x: real, y: real, u: real, v: real)

  /** The part of a texture the batch touches: its reference count, a C++ `int`. */
  class Texture {
    var refs: int32

    constructor ()
      ensures refs == 0
    {
      refs := 0;
    }
  }

  /** Indices shifted by `base` and stored as `uint16_t`, in order. */
  function Rebased(base: nat, idx: seq<uint16>): (r: seq<uint16>)
    ensures |r| == |idx|
    decreases |idx|
  {
    if idx == [] then [] else Rebased(base, idx[..|idx| - 1]) + [Wrap16(base + idx[|idx| - 1])]
  }

  /** Each rebased index is the input index plus `base`, modulo 2^16. */
  lemma {:induction false} RebasedIndex(base: nat, idx: seq<uint16>, k: nat)
    requires k < |idx|
    ensures Rebased(base, idx)[k] == (base + idx[k]) % U16_MOD
    decreases |idx|
  {
    if k < |idx| - 1 {
      RebasedIndex(base, idx[..|idx| - 1], k);
    }
  }

  /** Rebasing two runs one after the other is rebasing their concatenation. */
  lemma {:induction false} RebasedAppend(base: nat, a: seq<uint16>, b: seq<uint16>)
    ensures Rebased(base, a + b) == Rebased(base, a) + Rebased(base, b)
    decreases |b|
  {
    if b != [] {
      var b' := b[..|b| - 1];
      assert (a + b)[..|a + b| - 1] == a + b';
      assert (a + b)[|a + b| - 1] == b[|b| - 1];
      RebasedAppend(base, a, b');
      assert Rebased(base, a + b) == Rebased(base, a + b') + [Wrap16(base + b[|b| - 1])];
      assert Rebased(base, b) == Rebased(base, b') + [Wrap16(base + b[|b| - 1])];
    } else {
      assert a + b == a;
    }
  }

  /** Every index names one of `count` vertices. */
  predicate InRange(indices: seq<uint16>, count: nat) {
    forall k :: 0 <= k < |indices| ==> indices[k] < count
  }

  /**
   * While the vertex count stays below 2^16, appending a mesh whose indices are in range for
   * its own vertices keeps the whole index list in range: the new indices land on the new vertices.
   */
  lemma AppendKeepsInRange(indices: seq<uint16>, base: nat, idx: seq<uint16>, added: nat)
    requires InRange(indices, base) && InRange(idx, added) && base + added <= U16_MOD
    ensures InRange(indices + Rebased(base, idx), base + added)
    ensures forall k :: 0 <= k < |idx| ==> Rebased(base, idx)[k] - base == idx[k]
  {
    forall k | 0 <= k < |idx|
      ensures Rebased(base, idx)[k] == base + idx[k]
    {
      RebasedIndex(base, idx, k);
    }
  }

  class Batch {
    var dirty: bool
    const texture: Texture
    var vertices: seq<Vertex>
    var indices: seq<uint16>
    /** What the dynamic vertex and index buffers last received. */
    var gpuVertices: seq<Vertex>
    var gpuIndices: seq<uint16>

    /** Takes a reference on the texture and starts dirty with empty buffers. */
    constructor (t: Texture)
      requires t.refs < INT32_MAX
      modifies t
      ensures texture == t && t.refs == old(t.refs) + 1
      ensures dirty && vertices == [] && indices == [] && gpuVertices == [] && gpuIndices == []
    {
      dirty := true;
      texture := t;
      vertices := [];
      indices := [];
      gpuVertices := [];
      gpuIndices := [];
      new;
      t.refs := t.refs + 1;
    }

    /** The destructor's effect on the texture: one reference fewer. */
    method Destroy()
      requires texture.refs > INT32_MIN
      modifies texture
      ensures texture.refs == old(texture.refs) - 1
    {
      texture.refs := texture.refs - 1;
    }

    /** Appends a mesh: its vertices verbatim, its indices shifted past the vertices already held. */
    method Add(vs: seq<Vertex>, idx: seq<uint16>)
      modifies this
      ensures vertices == old(vertices) + vs
      ensures indices == old(indices) + Rebased(|old(vertices)|, idx)
      ensures dirty && gpuVertices == old(gpuVertices) && gpuIndices == old(gpuIndices)
    {
      var base := |vertices|;
      vertices := vertices + vs;
      for k := 0 to |idx|
        modifies `indices
        invariant vertices == old(vertices) + vs && dirty == old(dirty)
        invariant indices == old(indices) + Rebased(base, idx[..k])
      {
        assert idx[..k + 1][..k] == idx[..k];
        indices := indices + [Wrap16(base + idx[k])];
      }
      assert idx[..|idx|] == idx;
      dirty := true;
    }

    /** Uploads both buffers when they are stale; afterwards nothing is stale. */
    method Buffer()
      modifies this
      ensures !dirty && vertices == old(vertices) && indices == old(indices)
      ensures if old(dirty) then gpuVertices == vertices && gpuIndices == indices
              else gpuVertices == old(gpuVertices) && gpuIndices == old(gpuIndices)
    {
      if !dirty {
        return;
      }
      gpuVertices := vertices;
      gpuIndices := indices;
      dirty := false;
    }

    /** Empties both buffers and marks them stale. */
    method Clear()
      modifies this
      ensures dirty && vertices == [] && indices == []
      ensures gpuVertices == old(gpuVertices) && gpuIndices == old(gpuIndices)
    {
      dirty := true;
      vertices := [];
      indices := [];
    }
  }
}
