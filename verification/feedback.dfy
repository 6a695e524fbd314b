/** 09transform_feedback's particle system, without the physics (which runs
    in a vertex shader). Two buffers of particles take turns: each frame the
    transform-feedback pass reads one buffer through its vertex array and
    writes the updated particles into the other, and the render pass then
    draws the buffer just written. Vertex array `i` reads buffer `i`
    (`initGL` sets them up in pairs). */
module TransformFeedback {
  import opened Util
  import opened Vectors
  import opened Layout

  /** `__particles`: the number of particles, drawn by both passes. */
  const Particles: nat := 128 * 1024

  /** `__bufferCount`. */
  const BufferCount: nat := 2

  /** `__currentBuffer` and the number of buffers it cycles through. */
  datatype Buffers = Buffers(current: nat, count: nat)

  /** `__init__` and the end of `initGL`: the first buffer is current. */
  function Initial(): Buffers
  {
    Buffers(0, BufferCount)
  }

  /** The current index names one of the buffers. */
  predicate Valid(b: Buffers)
  {
    0 < b.count && b.current < b.count
  }

  /** What one `renderGL` binds: the vertex array the feedback pass reads,
      the buffer it writes, the vertex array the render pass draws, and the
      number of points each pass processes. */
  datatype Frame = Frame(sourceVao: nat, targetVbo: nat, drawVao: nat, points: nat)

  /** One call of `renderGL`: feedback from vertex array `(cur + 1) % n`
      into buffer `cur`, draw vertex array `cur`, then advance `cur` by one,
      modulo `n`. */
  function Render(b: Buffers): (r: (Frame, Buffers))
    requires Valid(b)
    ensures Valid(r.1) && r.1.count == b.count
    ensures r.1.current == NextIndex(b.current, b.count)
    ensures r.0.drawVao == r.0.targetVbo
    ensures b.count >= 2 ==> r.0.sourceVao != r.0.targetVbo
    ensures r.0.sourceVao < b.count && r.0.targetVbo < b.count
    ensures r.0.points == Particles
  {
    var n := b.count;
    NextIndexWraps(b.current, n);
    var frame := Frame((b.current + 1) % n, b.current, b.current, Particles);
    (frame, Buffers((b.current + 1) % n, n))
  }

  /** The buffers after `k` frames. */
  function Run(b: Buffers, k: nat): (r: Buffers)
    requires Valid(b)
    ensures Valid(r) && r.count == b.count
  {
    if k == 0 then b else Render(Run(b, k - 1)).1
  }

  /** The bindings of frame `k`, counting from 0. */
  function FrameAt(b: Buffers, k: nat): Frame
    requires Valid(b)
  {
    Render(Run(b, k)).0
  }

  /** After `k` frames the current index has moved on `k` places round the
      ring of buffers. */
  lemma {:induction false} RunLater(b: Buffers, k: nat)
    requires Valid(b)
    ensures Run(b, k).current == Later(b.current, k, b.count)
  {
    if k > 0 {
      RunLater(b, k - 1);
    }
  }

  /** After `k` frames the current index is `(cur + k) mod n`; in particular
      the index never leaves `[0, n)`. */
  lemma RunAdvances(b: Buffers, k: nat)
    requires Valid(b)
    ensures Run(b, k).current == (b.current + k) % b.count
  {
    RunLater(b, k);
    LaterIsMod(b.current, k, b.count);
  }

  /** Frame `k` writes buffer `(cur + k) mod n` and reads the one after it. */
  lemma FrameAtBindings(b: Buffers, k: nat)
    requires Valid(b)
    ensures FrameAt(b, k).targetVbo == Later(b.current, k, b.count)
    ensures FrameAt(b, k).sourceVao == Later(b.current, k + 1, b.count)
  {
    RunLater(b, k);
    RunLater(b, k + 1);
  }

  /** `n` more steps round the ring land where `k` steps did. */
  lemma LaterPeriodic(i: nat, k: nat, n: nat)
    requires i < n
    ensures Later(i, k + n, n) == Later(i, k, n)
  {
    LaterIsMod(i, k, n);
    LaterIsMod(i, k + n, n);
    ModShift(i + k, n);
  }

  /** The ping-pong never reads a stale buffer: the feedback pass of frame
      `k + n - 1` reads the buffer that frame `k` wrote, and no frame in
      between wrote it again. With the program's two buffers, every frame
      reads what the previous frame wrote. */
  lemma ReadsWhatWasWritten(b: Buffers, k: nat)
    requires Valid(b)
    ensures FrameAt(b, k + b.count - 1).sourceVao == FrameAt(b, k).targetVbo
  {
    var n := b.count;
    FrameAtBindings(b, k);
    FrameAtBindings(b, k + n - 1);
    LaterPeriodic(b.current, k, n);
  }

  /** With two buffers two frames restore the current index, and
      consecutive frames write alternate buffers. */
  lemma TwoBuffersAlternate(k: nat)
    ensures Run(Initial(), k + 2) == Run(Initial(), k)
    ensures FrameAt(Initial(), k + 1).sourceVao == FrameAt(Initial(), k).targetVbo
    ensures FrameAt(Initial(), k + 1).targetVbo != FrameAt(Initial(), k).targetVbo
  {
    var b := Initial();
    RunLater(b, k);
    RunLater(b, k + 2);
    LaterPeriodic(b.current, k, 2);
    ReadsWhatWasWritten(b, k);
    FrameAtBindings(b, k);
    FrameAtBindings(b, k + 1);
  }

  // ---------------------------------------------------------------------
  // Initial particle data

  /** A triple of `rand()` draws, each in [0, 1). */
  predicate UnitDraw(d: Vec3)
  {
    0.0 <= d.x < 1.0 && 0.0 <= d.y < 1.0 && 0.0 <= d.z < 1.0
  }

  /** `glm.vec3(0, 20, 0) + 5 * (.5 - rand(), .5 - rand(), .5 - rand())`. */
  function StartPosition(d: Vec3): (p: Vec3)
    ensures UnitDraw(d) ==> -2.5 < p.x <= 2.5 && 17.5 < p.y <= 22.5 && -2.5 < p.z <= 2.5
  {
    Add(Vec3(0.0, 20.0, 0.0), Scale(5.0, Vec3(0.5 - d.x, 0.5 - d.y, 0.5 - d.z)))
  }

  /** `initGL`'s loop: for each particle, append its start position and
      then a zero velocity. */
  function InitialData(draws: seq<Vec3>): (r: seq<Vec3>)
    ensures |r| == 2 * |draws|
  {
    if |draws| == 0 then []
    else
      var last := |draws| - 1;
      InitialData(draws[..last]) + [StartPosition(draws[last]), Zero]
  }

  /** Entry `2i` is particle `i`'s start position and entry `2i + 1` its
      velocity, which is zero. */
  lemma {:induction false} InitialDataAt(draws: seq<Vec3>, i: nat)
    requires i < |draws|
    ensures 2 * i + 1 < |InitialData(draws)|
    ensures InitialData(draws)[2 * i] == StartPosition(draws[i])
    ensures InitialData(draws)[2 * i + 1] == Zero
  {
    var last := |draws| - 1;
    var prefix := draws[..last];
    if i < last {
      InitialDataAt(prefix, i);
    }
  }

  /** The stride-24 layout both vertex arrays use: position (3 floats) at
      byte 0 and velocity (3 floats) at byte 12. */
  const ParticleFormat := Format(6 * 4, [Attribute(3, 0), Attribute(3, 3 * 4)])

  /** The float32 array of `2P` three-float rows, read as GL reads it: `P`
      records of six floats, a position followed by a velocity. */
  function ParticleRecords(data: seq<Vec3>): (r: seq<seq<real>>)
    ensures |r| == |data| / 2
    ensures RecordsOfWidth(r, 6)
  {
    seq(|data| / 2, v requires 0 <= v < |data| / 2 =>
      var p, u := data[2 * v], data[2 * v + 1];
      [p.x, p.y, p.z, u.x, u.y, u.z])
  }

  /** The layout tiles its 24-byte records with position then velocity,
      the uploaded data holds whole records, and GL reads back exactly one
      vertex per particle; with the program's P particles uploaded, the
      points both passes of every frame process are exactly the vertices
      in the buffer. */
  lemma ParticleUpload(draws: seq<Vec3>)
    ensures Packed(ParticleFormat) && Stride(ParticleFormat) == 6 * FloatBytes
    ensures ParticleFormat.attributes[1].offset == 3 * FloatBytes
    ensures WholeRecords(|Flatten(ParticleRecords(InitialData(draws)))|, ParticleFormat)
    ensures VertexCount(|Flatten(ParticleRecords(InitialData(draws)))|, ParticleFormat) == |draws|
    ensures |draws| == Particles ==> forall b :: Valid(b) ==>
              Render(b).0.points == VertexCount(|Flatten(ParticleRecords(InitialData(draws)))|, ParticleFormat)
  {
    RecordsUpload(ParticleRecords(InitialData(draws)), 6, ParticleFormat);
  }

  /** Vertex `i` as GL reads it: attribute 0 is particle `i`'s start
      position, attribute 1 its zero velocity. */
  lemma ParticleRecordAt(draws: seq<Vec3>, i: nat)
    requires i < |draws|
    ensures var r := ParticleRecords(InitialData(draws));
      var p := StartPosition(draws[i]);
      i < |r| && r[i] == [p.x, p.y, p.z, 0.0, 0.0, 0.0]
  {
    InitialDataAt(draws, i);
  }

  // ---------------------------------------------------------------------
  // Uniforms

  /** The spheres the particles bounce off: centres and radii. */
  const Centers: seq<Vec3> := [Vec3(0.0, 12.0, 1.0), Vec3(-3.0, 0.0, 0.0), Vec3(5.0, -10.0, 0.0)]
  const Radii: seq<real> := [3.0, 7.0, 12.0]

  /** The count passed to `glUniform3fv` and `glUniform1fv` for them. */
  const SphereUniforms: nat := 3

  /** The uploads of the sphere tables read exactly the tables' entries,
      and every sphere has a positive radius. */
  lemma UniformsMatchTables()
    ensures |Centers| == SphereUniforms && |Radii| == SphereUniforms
    ensures forall k :: 0 <= k < |Radii| ==> Radii[k] > 0.0
  {
  }
}
