/** 06instancing1's FXAA switch and pass selection. Each frame samples the
    space bar once: a press that was not already down on the previous frame
    flips FXAA. With FXAA on, the cube is rendered into the offscreen
    framebuffer and a second pass draws the post-processing quad onto the
    screen, sampling that image; with FXAA off, the cube goes straight to
    the screen. */
module Fxaa {
  import opened Util
  import Cubes
  import Quads

  /** `__fxaa` and `__space_dow`: whether the post pass is on, and whether
      the space bar was down on the previous frame. */
  datatype State = State(fxaa: bool, spaceDown: bool)

  /** Framebuffer 0 (the window) and the offscreen `__fbo`. */
  datatype Framebuffer = Screen | Offscreen

  /** The two draws of a frame. */
  datatype Pass = Scene | Post

  /** The GL calls of `renderGL` that decide where and what is drawn. */
  datatype Op = Bind(target: Framebuffer) | DepthTest(on: bool) | Clear | Draw(pass: Pass, count: nat)

  /** `__init__`: FXAA on, space bar up. */
  function Initial(): State
  {
    State(true, false)
  }

  /** The toggle at the top of `renderGL`: FXAA flips on the rising edge of
      the space bar, and the key state is remembered for the next frame. */
  function Step(s: State, key: bool): (r: State)
    ensures r.spaceDown == key
    ensures r.fxaa != s.fxaa <==> key && !s.spaceDown
  {
    State(if key && !s.spaceDown then !s.fxaa else s.fxaa, key)
  }

  /** The rest of `renderGL`: bind the scene's target, clear, draw the
      cube's 6*6 indices, then, only with FXAA on, rebind the screen and
      draw the post-processing quad's 6 indices. */
  function Frame(fxaa: bool): (r: seq<Op>)
    ensures Draw(Scene, Cubes.ColorCubeDrawCount) in r
    ensures Draw(Post, Quads.PostQuad.drawCount) in r <==> fxaa
  {
    var scene := [DepthTest(true), Bind(if fxaa then Offscreen else Screen), Clear, Draw(Scene, 6 * 6)];
    if fxaa then scene + PostPass() else scene
  }

  /** The post-processing pass: screen bound, no depth test, the quad's six
      indices. */
  function PostPass(): seq<Op>
  {
    [Bind(Screen), DepthTest(false), Draw(Post, 6)]
  }

  /** Where the frame's draws land: the cube into the offscreen framebuffer
      exactly when FXAA is on, the post pass onto the screen and only when
      FXAA is on, and the screen bound at the end of every frame, whatever
      the previous frame left bound. */
  lemma {:induction false} FrameTargets(fxaa: bool, start: Framebuffer)
    ensures TargetOfDraw(Frame(fxaa), Scene, start) == Some(if fxaa then Offscreen else Screen)
    ensures TargetOfDraw(Frame(fxaa), Post, start) == (if fxaa then Some(Screen) else None)
    ensures FinalTarget(Frame(fxaa), start) == Screen
  {
    var t := if fxaa then Offscreen else Screen;
    var post := PostPass();
    assert TargetOfDraw(post[2..], Post, Screen) == Some(Screen);
    assert TargetOfDraw(post, Post, t) == Some(Screen);
    assert FinalTarget(post[1..], Screen) == Screen;
    assert FinalTarget(post, t) == Screen;
    var ops := Frame(fxaa);
    assert TargetOfDraw(ops[3..], Scene, t) == Some(t);
    assert TargetOfDraw(ops[1..], Scene, start) == Some(t);
    if fxaa {
      assert ops[4..] == post;
      assert ops[3..] == [ops[3]] + post;
      assert TargetOfDraw(ops[3..], Post, t) == Some(Screen);
      assert FinalTarget(ops[3..], t) == Screen;
    } else {
      assert TargetOfDraw(ops[3..], Post, t) == None;
      assert FinalTarget(ops[3..], t) == t;
    }
    assert TargetOfDraw(ops[1..], Post, start) == TargetOfDraw(ops[3..], Post, t);
    assert FinalTarget(ops[1..], start) == FinalTarget(ops[3..], t);
  }

  /** The framebuffer bound when the first draw of `p` is issued, starting
      with `bound` bound; nothing when `p` is never drawn. */
  function TargetOfDraw(ops: seq<Op>, p: Pass, bound: Framebuffer): Option<Framebuffer>
  {
    if |ops| == 0 then None
    else match ops[0]
      case Bind(t) => TargetOfDraw(ops[1..], p, t)
      case Draw(q, _) => if q == p then Some(bound) else TargetOfDraw(ops[1..], p, bound)
      case _ => TargetOfDraw(ops[1..], p, bound)
  }

  /** The framebuffer left bound after `ops`, starting with `bound` bound. */
  function FinalTarget(ops: seq<Op>, bound: Framebuffer): Framebuffer
  {
    if |ops| == 0 then bound
    else FinalTarget(ops[1..], if ops[0].Bind? then ops[0].target else bound)
  }

  /** One call of `renderGL` with the space bar in state `key`: a rising
      edge of the space bar flips FXAA; then, whatever the previous frame
      left bound, the cube is drawn into the offscreen framebuffer and the
      post pass draws it onto the screen exactly when FXAA is now on, the
      cube goes straight to the screen otherwise, and the frame ends with
      the screen bound, ready for the buffer swap. */
  function Render(s: State, key: bool): (r: (State, seq<Op>))
    ensures r.0.spaceDown == key
    ensures r.0.fxaa != s.fxaa <==> key && !s.spaceDown
    ensures Draw(Scene, Cubes.ColorCubeDrawCount) in r.1
    ensures Draw(Post, Quads.PostQuad.drawCount) in r.1 <==> r.0.fxaa
    ensures forall start :: TargetOfDraw(r.1, Scene, start) == Some(if r.0.fxaa then Offscreen else Screen)
    ensures forall start :: TargetOfDraw(r.1, Post, start) == (if r.0.fxaa then Some(Screen) else None)
    ensures forall start :: FinalTarget(r.1, start) == Screen
  {
    var next := Step(s, key);
    FrameTargets(next.fxaa, Screen);
    FrameTargets(next.fxaa, Offscreen);
    (next, Frame(next.fxaa))
  }

  /** The state after one frame per entry of `keys`. */
  function Run(s: State, keys: seq<bool>): State
    decreases |keys|
  {
    if |keys| == 0 then s else Run(Step(s, keys[0]), keys[1..])
  }

  /** The number of frames in `keys` on which the space bar goes down,
      given whether it was down before the first. */
  function RisingEdges(before: bool, keys: seq<bool>): nat
    decreases |keys|
  {
    if |keys| == 0 then 0
    else (if keys[0] && !before then 1 else 0) + RisingEdges(keys[0], keys[1..])
  }

  /** FXAA after a run is its start value flipped once per press: it
      changed exactly when the space bar went down an odd number of times,
      and the remembered key state is that of the last frame. */
  lemma {:induction false} RunCountsPresses(s: State, keys: seq<bool>)
    ensures Run(s, keys).fxaa == (s.fxaa != (RisingEdges(s.spaceDown, keys) % 2 == 1))
    ensures Run(s, keys).spaceDown == if |keys| == 0 then s.spaceDown else keys[|keys| - 1]
    decreases |keys|
  {
    if |keys| > 0 {
      RunCountsPresses(Step(s, keys[0]), keys[1..]);
    }
  }

  /** Every entry of `keys` is the space bar down. */
  predicate Held(keys: seq<bool>)
  {
    forall k :: 0 <= k < |keys| ==> keys[k]
  }

  /** Holding the space bar down across any number of frames goes down at
      most once: only on the first frame, and only if it was up before. */
  lemma {:induction false} HeldKeyRisesOnce(before: bool, keys: seq<bool>)
    requires Held(keys)
    ensures RisingEdges(before, keys) == if |keys| > 0 && !before then 1 else 0
    decreases |keys|
  {
    if |keys| > 0 {
      HeldKeyRisesOnce(true, keys[1..]);
    }
  }

  /** So holding the key flips FXAA at most once, and a key held since
      before the run does not flip it at all. */
  lemma HoldingFlipsOnce(s: State, keys: seq<bool>)
    requires Held(keys)
    ensures Run(s, keys).fxaa == if |keys| > 0 && !s.spaceDown then !s.fxaa else s.fxaa
  {
    HeldKeyRisesOnce(s.spaceDown, keys);
    RunCountsPresses(s, keys);
  }

  /** Tapping the key (down for one frame, then up) flips FXAA once;
      tapping it twice restores it. */
  lemma TapsToggle(s: State)
    requires !s.spaceDown
    ensures Run(s, [true, false]) == State(!s.fxaa, false)
    ensures Run(s, [true, false, true, false]) == s
  {
  }

  /** The first frame after start-up, with the space bar up, renders
      through the offscreen framebuffer and the post pass. */
  lemma FirstFrameUsesFxaa(start: Framebuffer)
    ensures Render(Initial(), false).0 == Initial()
    ensures TargetOfDraw(Render(Initial(), false).1, Scene, start) == Some(Offscreen)
    ensures TargetOfDraw(Render(Initial(), false).1, Post, start) == Some(Screen)
  {
    FrameTargets(true, start);
  }
}
