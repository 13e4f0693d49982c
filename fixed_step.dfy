/**
 * The fixed-timestep main loop of the prototype game: events set the quit request and toggle
 * the HMD reset flag; every frame adds the elapsed time (capped) to a lag accumulator that is
 * spent in whole ticks of 1/60 s; each tick copies the state and runs the game update; the
 * remaining fraction of a tick is the interpolation factor.
 *
 * Times are `real` seconds (the source's doubles without rounding); the clock reading is a
 * parameter. The 64-bit tick counter wraps explicitly.
 */
module FixedStep {
  import opened Ints
  import Sdl

  /** `target_framerate` and `timestep`. */
  const TARGET_FRAMERATE: real := 60.0
  const TIMESTEP: real := 1.0 / 60.0

  /** A frame longer than this is cut down to it: `1 / (target_framerate / 3)`. */
  const MIN_FRAMERATE: real := TARGET_FRAMERATE / 3.0
  const MAX_DELTA: real := 1.0 / MIN_FRAMERATE

  /** The largest number of ticks one frame can run. */
  const MAX_TICKS: nat := 3

  /** n whole steps of time. */
  function Steps(n: nat): real
    decreases n
  {
    if n == 0 then 0.0 else Steps(n - 1) + TIMESTEP
  }

  lemma {:induction false} StepsIsProduct(n: nat)
    ensures Steps(n) == n as real * TIMESTEP
    decreases n
  {
    if n > 0 {
      StepsIsProduct(n - 1);
    }
  }

  /** `timestep` is one frame at the target rate; the cap is three steps. */
  lemma MaxDeltaIsThreeSteps()
    ensures TIMESTEP == 1.0 / TARGET_FRAMERATE
    ensures MAX_DELTA == Steps(MAX_TICKS) == 3.0 * TIMESTEP
  {
  }

  function Min(a: real, b: real): (r: real)
    ensures r <= a && r <= b && (r == a || r == b)
  {
    if a < b then a else b
  }

  function Max(a: real, b: real): (r: real)
    ensures r >= a && r >= b && (r == a || r == b)
  {
    if a > b then a else b
  }

  /** The game state record the loop copies around. */
  datatype GameState = GameState(queueQuit: bool, finished: bool, width: int32, height: int32, tick: uint64)

  const DEFAULT_STATE: GameState := GameState(false, false, 0, 0, 0)

  /** The game update: a quit request finishes the game; nothing else changes. */
  function Tick(g: GameState): (r: GameState)
    ensures r.finished <==> g.finished || g.queueQuit
    ensures r.(finished := g.finished) == g
  {
    if g.queueQuit then g.(finished := true) else g
  }

  /** `interpolate` ignores the previous state and the factor: it copies the current state. */
  function Interpolate(previous: GameState, current: GameState, alpha: real): GameState {
    current
  }

  lemma InterpolateIsCurrent(previous: GameState, current: GameState, alpha: real)
    ensures Interpolate(previous, current, alpha) == current
    ensures forall p: GameState, a: real :: Interpolate(p, current, a) == Interpolate(previous, current, alpha)
  {
  }

  /** One pass of the tick loop body: count the tick, then update. */
  function Counted(g: GameState): GameState {
    g.(tick := (g.tick + 1) % U64_MOD)
  }

  /** The state after n ticks. */
  function Ticked(g: GameState, n: nat): GameState
    decreases n
  {
    if n == 0 then g else Tick(Counted(Ticked(g, n - 1)))
  }

  lemma WrapSucc(x: int)
    ensures (x % U64_MOD + 1) % U64_MOD == (x + 1) % U64_MOD
  {
  }

  /** n ticks advance the counter by n (mod 2^64), finish the game iff a quit was queued, and change nothing else. */
  lemma {:induction false} TickedShape(g: GameState, n: nat)
    ensures Ticked(g, n).tick == (g.tick + n) % U64_MOD
    ensures Ticked(g, n).finished <==> g.finished || (n > 0 && g.queueQuit)
    ensures Ticked(g, n).(tick := g.tick, finished := g.finished) == g
    decreases n
  {
    if n > 0 {
      TickedShape(g, n - 1);
      WrapSucc(g.tick + n - 1);
    }
  }

  // ---------------------------------------------------------------------------------------
  // Event handling

  /** The two things `handle_events` changes: the quit request and the reset flags. */
  datatype Control = Control(queueQuit: bool, resetFlags: bv32)

  /** F5's flag update: clear the HMD bit if it is set, set it otherwise. */
  function ToggledHmd(flags: bv32): bv32 {
    if flags & Sdl.BGFX_RESET_HMD != 0 then flags ^ Sdl.BGFX_RESET_HMD else flags | Sdl.BGFX_RESET_HMD
  }

  /** The if/else in the source is an XOR with the HMD bit. */
  lemma ToggledHmdIsXor(flags: bv32)
    ensures ToggledHmd(flags) == flags ^ Sdl.BGFX_RESET_HMD
    ensures ToggledHmd(flags) & Sdl.BGFX_RESET_HMD != flags & Sdl.BGFX_RESET_HMD
    ensures ToggledHmd(flags) & !Sdl.BGFX_RESET_HMD == flags & !Sdl.BGFX_RESET_HMD
  {
  }

  lemma XorTwice(flags: bv32)
    ensures flags ^ Sdl.BGFX_RESET_HMD ^ Sdl.BGFX_RESET_HMD == flags
  {
  }

  /** The reaction to one event; `hmd` is what `bgfx::getHMD()` reports. */
  function OnEvent(c: Control, e: Sdl.Event, hmd: bool): Control {
    match e
    case Quit => c.(queueQuit := true)
    case KeyDown(sym) =>
      if sym == Sdl.SDLK_F5 && hmd then c.(resetFlags := ToggledHmd(c.resetFlags)) else c
    case KeyUp(sym) => if sym == Sdl.SDLK_ESCAPE then c.(queueQuit := true) else c
    case JoyDeviceAdded(_) => c
    case JoyDeviceRemoved(_) => c
    case Other => c
  }

  /** The effect of a batch of polled events, in polling order. */
  function Handled(c: Control, es: seq<Sdl.Event>, hmd: bool): Control
    decreases |es|
  {
    if es == [] then c else OnEvent(Handled(c, es[..|es| - 1], hmd), es[|es| - 1], hmd)
  }

  predicate IsQuitRequest(e: Sdl.Event) {
    e == Sdl.Quit || e == Sdl.KeyUp(Sdl.SDLK_ESCAPE)
  }

  predicate IsF5(e: Sdl.Event) {
    e == Sdl.KeyDown(Sdl.SDLK_F5)
  }

  function CountF5(es: seq<Sdl.Event>): nat
    decreases |es|
  {
    if es == [] then 0 else CountF5(es[..|es| - 1]) + (if IsF5(es[|es| - 1]) then 1 else 0)
  }

  /** F5 flips the HMD bit exactly when an HMD is present. */
  lemma F5TogglesHmd(c: Control, hmd: bool)
    ensures OnEvent(c, Sdl.KeyDown(Sdl.SDLK_F5), hmd) ==
            if hmd then c.(resetFlags := c.resetFlags ^ Sdl.BGFX_RESET_HMD) else c
  {
    ToggledHmdIsXor(c.resetFlags);
  }

  lemma F5TwiceRestores(c: Control, hmd: bool)
    ensures OnEvent(OnEvent(c, Sdl.KeyDown(Sdl.SDLK_F5), hmd), Sdl.KeyDown(Sdl.SDLK_F5), hmd) == c
  {
    F5TogglesHmd(c, hmd);
    F5TogglesHmd(OnEvent(c, Sdl.KeyDown(Sdl.SDLK_F5), hmd), hmd);
  }

  /** After a batch, quit is requested iff it already was or some event was SDL_QUIT or an Escape release. */
  lemma {:induction false} HandledQuit(c: Control, es: seq<Sdl.Event>, hmd: bool)
    ensures Handled(c, es, hmd).queueQuit <==> c.queueQuit || exists i :: 0 <= i < |es| && IsQuitRequest(es[i])
    decreases |es|
  {
    if es != [] {
      var init := es[..|es| - 1];
      HandledQuit(c, init, hmd);
      if exists i :: 0 <= i < |init| && IsQuitRequest(init[i]) {
        var i :| 0 <= i < |init| && IsQuitRequest(init[i]);
        assert es[i] == init[i];
      }
      if exists i :: 0 <= i < |es| && IsQuitRequest(es[i]) {
        var i :| 0 <= i < |es| && IsQuitRequest(es[i]);
        if i < |init| {
          assert init[i] == es[i];
        }
      }
    }
  }

  /** Every event other than an F5 press leaves the reset flags alone. */
  lemma OtherEventsKeepFlags(c: Control, e: Sdl.Event, hmd: bool)
    requires !IsF5(e)
    ensures OnEvent(c, e, hmd).resetFlags == c.resetFlags
  {
  }

  /** The flag word after flipping the HMD bit when `odd` holds. */
  function FlippedIf(flags: bv32, odd: bool): bv32 {
    if odd then flags ^ Sdl.BGFX_RESET_HMD else flags
  }

  lemma FlipAgain(flags: bv32, odd: bool, x: bv32)
    requires x == FlippedIf(flags, odd)
    ensures x ^ Sdl.BGFX_RESET_HMD == FlippedIf(flags, !odd)
  {
    XorTwice(flags);
  }

  /** One more F5 press flips the parity of the presses counted so far. */
  lemma F5Step(flags: bv32, p: Control, hmd: bool, n: nat)
    requires p.resetFlags == FlippedIf(flags, hmd && n % 2 == 1)
    ensures OnEvent(p, Sdl.KeyDown(Sdl.SDLK_F5), hmd).resetFlags == FlippedIf(flags, hmd && (n + 1) % 2 == 1)
  {
    F5TogglesHmd(p, hmd);
    if hmd {
      FlipAgain(flags, n % 2 == 1, p.resetFlags);
      assert (n + 1) % 2 == 1 <==> !(n % 2 == 1);
    }
  }

  /** After a batch, the HMD bit is flipped iff an HMD is present and F5 was pressed an odd number of times. */
  lemma {:induction false} HandledFlags(c: Control, es: seq<Sdl.Event>, hmd: bool)
    ensures Handled(c, es, hmd).resetFlags == FlippedIf(c.resetFlags, hmd && CountF5(es) % 2 == 1)
    decreases |es|
  {
    if es != [] {
      var init := es[..|es| - 1];
      var e := es[|es| - 1];
      HandledFlags(c, init, hmd);
      var p := Handled(c, init, hmd);
      if IsF5(e) {
        F5Step(c.resetFlags, p, hmd, CountF5(init));
      } else {
        OtherEventsKeepFlags(p, e, hmd);
      }
    }
  }

  // ---------------------------------------------------------------------------------------
  // The loop

  /** One frame's input: the events polled, what `bgfx::getHMD()` reports while they are
      handled, and the clock difference since the last frame. */
  datatype FrameInput = FrameInput(events: seq<Sdl.Event>, hmd: bool, delta: real)

  /**
   * The ticks a frame runs once its lag is `total`: the whole steps in it, none when it is under
   * one step, and at most `MAX_TICKS` (which the capped frame time never exceeds).
   */
  function TicksIn(total: real): (n: nat)
    ensures n <= MAX_TICKS && (n > 0 ==> Steps(n) <= total) && (n < MAX_TICKS ==> total < Steps(n + 1))
  {
    if total >= Steps(3) then 3 else if total >= Steps(2) then 2 else if total >= Steps(1) then 1 else 0
  }

  /** A tick count that satisfies the bounds above is the one `TicksIn` gives. */
  lemma TicksInIsUnique(total: real, k: nat)
    requires k <= MAX_TICKS && (k > 0 ==> Steps(k) <= total) && (k < MAX_TICKS ==> total < Steps(k + 1))
    ensures TicksIn(total) == k
  {
    StepsIsProduct(k);
    StepsIsProduct(k + 1);
    StepsIsProduct(TicksIn(total));
    StepsIsProduct(TicksIn(total) + 1);
  }

  /** The loop's variables as one value. */
  datatype LoopState = LoopState(lag: real, peak: real, previous: GameState, current: GameState, resetFlags: bv32)

  /**
   * One pass of the main loop's body: the frame's events set the quit request and the flags,
   * then the capped frame time is added to the lag and spent in whole ticks; the state before
   * the last tick's update becomes the previous state.
   */
  function Frame(s: LoopState, f: FrameInput): LoopState {
    var c := Handled(Control(s.current.queueQuit, s.resetFlags), f.events, f.hmd);
    var g := s.current.(queueQuit := c.queueQuit);
    var total := s.lag + Min(f.delta, MAX_DELTA);
    var n := TicksIn(total);
    LoopState(total - Steps(n),
              if n == 0 then s.peak else Max(s.peak, total - TIMESTEP),
              if n == 0 then s.previous else Counted(Ticked(g, n - 1)),
              Ticked(g, n),
              c.resetFlags)
  }

  /** The loop state after the given frames, in order. */
  function Frames(s: LoopState, frames: seq<FrameInput>): LoopState
    decreases |frames|
  {
    if frames == [] then s else Frame(Frames(s, frames[..|frames| - 1]), frames[|frames| - 1])
  }

  /** The frames up to `n + 1` are those up to `n`, then frame `n`. */
  lemma FramesSnoc(s: LoopState, frames: seq<FrameInput>, n: nat, before: LoopState)
    requires n < |frames| && before == Frames(s, frames[..n])
    ensures Frames(s, frames[..n + 1]) == Frame(before, frames[n])
  {
    assert frames[..n + 1][..n] == frames[..n];
  }

  /**
   * What one frame does: less than a step of lag is left, and none is owed when the lag and the
   * frame time are not negative; the HMD bit flips iff an HMD is present and F5 was pressed an odd
   * number of times; the game finishes iff it had, or a quit was requested and a tick ran; the
   * counter advances by the ticks run (mod 2^64); the size is kept.
   */
  lemma FrameShape(s: LoopState, f: FrameInput)
    requires s.lag < TIMESTEP
    ensures var r := Frame(s, f);
            var n := TicksIn(s.lag + Min(f.delta, MAX_DELTA));
            && r.lag < TIMESTEP
            && (0.0 <= s.lag && 0.0 <= f.delta ==> 0.0 <= r.lag)
            && r.resetFlags == FlippedIf(s.resetFlags, f.hmd && CountF5(f.events) % 2 == 1)
            && (r.current.finished <==>
                  s.current.finished
                  || (n > 0 && (s.current.queueQuit || exists i :: 0 <= i < |f.events| && IsQuitRequest(f.events[i]))))
            && r.current.tick == (s.current.tick + n) % U64_MOD
            && r.current.width == s.current.width && r.current.height == s.current.height
  {
    MaxDeltaIsThreeSteps();
    var c0 := Control(s.current.queueQuit, s.resetFlags);
    HandledQuit(c0, f.events, f.hmd);
    HandledFlags(c0, f.events, f.hmd);
    var c := Handled(c0, f.events, f.hmd);
    var total := s.lag + Min(f.delta, MAX_DELTA);
    var n := TicksIn(total);
    TickedShape(s.current.(queueQuit := c.queueQuit), n);
    assert total < Steps(MAX_TICKS + 1);
    assert n == MAX_TICKS ==> total - Steps(n) < TIMESTEP;
    StepsIsProduct(n);
    StepsIsProduct(n + 1);
  }

  /** A finished game stays finished: the later frames never run because of it. */
  lemma {:induction false} FinishedStays(s: LoopState, frames: seq<FrameInput>)
    requires s.current.finished
    ensures Frames(s, frames).current.finished
    decreases |frames|
  {
    if frames != [] {
      var p := Frames(s, frames[..|frames| - 1]);
      FinishedStays(s, frames[..|frames| - 1]);
      var f := frames[|frames| - 1];
      var c := Handled(Control(p.current.queueQuit, p.resetFlags), f.events, f.hmd);
      TickedShape(p.current.(queueQuit := c.queueQuit), TicksIn(p.lag + Min(f.delta, MAX_DELTA)));
    }
  }

  /** Every frame leaves less than a step of lag behind. */
  lemma {:induction false} FramesKeepLag(s: LoopState, frames: seq<FrameInput>)
    requires s.lag < TIMESTEP
    ensures Frames(s, frames).lag < TIMESTEP
    decreases |frames|
  {
    if frames != [] {
      FramesKeepLag(s, frames[..|frames| - 1]);
      FrameShape(Frames(s, frames[..|frames| - 1]), frames[|frames| - 1]);
    }
  }

  class Loop {
    var lag: real
    var peak: real
    var previous: GameState
    var current: GameState
    var resetFlags: bv32

    /** The loop leaves less than one step of lag behind. */
    ghost predicate Valid()
      reads this
    {
      lag < TIMESTEP
    }

    ghost function State(): LoopState
      reads this
    {
      LoopState(lag, peak, previous, current, resetFlags)
    }

    /** The state `main` sets up: 1280x720, zero lag and peak, the start-up reset flags. */
    constructor (initialFlags: bv32)
      ensures Valid()
      ensures lag == 0.0 && peak == 0.0 && resetFlags == initialFlags
      ensures previous == DEFAULT_STATE && current == DEFAULT_STATE.(width := 1280, height := 720)
    {
      lag := 0.0;
      peak := 0.0;
      previous := DEFAULT_STATE;
      current := DEFAULT_STATE.(width := 1280, height := 720);
      resetFlags := initialFlags;
    }

    /** One event of `handle_events`. */
    method HandleEvent(e: Sdl.Event, hmd: bool)
      modifies `current, `resetFlags
      ensures current == old(current).(queueQuit := current.queueQuit)
      ensures Control(current.queueQuit, resetFlags) == OnEvent(Control(old(current).queueQuit, old(resetFlags)), e, hmd)
    {
      match e
      case Quit =>
        current := current.(queueQuit := true);
      case KeyDown(sym) =>
        if sym == Sdl.SDLK_F5 && hmd {
          if resetFlags & Sdl.BGFX_RESET_HMD != 0 {
            resetFlags := resetFlags ^ Sdl.BGFX_RESET_HMD;
          } else {
            resetFlags := resetFlags | Sdl.BGFX_RESET_HMD;
          }
        }
      case KeyUp(sym) =>
        if sym == Sdl.SDLK_ESCAPE {
          current := current.(queueQuit := true);
        }
      case JoyDeviceAdded(_) =>
      case JoyDeviceRemoved(_) =>
      case Other =>
    }

    /** `handle_events`: the polled events in order. */
    method HandleEvents(polled: seq<Sdl.Event>, hmd: bool)
      modifies this
      ensures lag == old(lag) && peak == old(peak) && previous == old(previous)
      ensures var c := Handled(Control(old(current).queueQuit, old(resetFlags)), polled, hmd);
              current == old(current).(queueQuit := c.queueQuit) && resetFlags == c.resetFlags
    {
      ghost var c0 := Control(current.queueQuit, resetFlags);
      for i := 0 to |polled|
        modifies `current, `resetFlags
        invariant current == old(current).(queueQuit := current.queueQuit)
        invariant Control(current.queueQuit, resetFlags) == Handled(c0, polled[..i], hmd)
      {
        assert polled[..i + 1][..i] == polled[..i];
        HandleEvent(polled[i], hmd);
      }
      assert polled[..|polled|] == polled;
    }

    /**
     * The rest of one frame: cap and add the elapsed time, run whole ticks while a step of lag
     * remains, then compute the interpolation factor and the state to present.
     */
    method Advance(delta: real) returns (ticks: nat, alpha: real, state: GameState)
      requires Valid()
      modifies this
      ensures Valid()
      ensures var total := old(lag) + Min(delta, MAX_DELTA);
              && ticks == TicksIn(total)
              && lag == total - Steps(ticks)
              && ticks <= MAX_TICKS
              && (ticks > 0 ==> lag >= 0.0)
              && peak == (if ticks == 0 then old(peak) else Max(old(peak), total - TIMESTEP))
      ensures old(lag) >= 0.0 && delta >= 0.0 ==> 0.0 <= lag && 0.0 <= alpha < 1.0
      ensures alpha == lag / TIMESTEP && state == current
      ensures current == Ticked(old(current), ticks)
      ensures previous == if ticks == 0 then old(previous) else Counted(Ticked(old(current), ticks - 1))
      ensures resetFlags == old(resetFlags)
    {
      MaxDeltaIsThreeSteps();
      lag := lag + Min(delta, MAX_DELTA);
      ghost var total := lag;
      assert total < Steps(MAX_TICKS + 1);
      ticks := 0;
      while lag >= TIMESTEP
        modifies `lag, `peak, `current, `previous
        invariant ticks <= MAX_TICKS && lag == total - Steps(ticks)
        invariant ticks > 0 ==> lag >= 0.0
        invariant peak == (if ticks == 0 then old(peak) else Max(old(peak), total - TIMESTEP))
        invariant current == Ticked(old(current), ticks)
        invariant previous == if ticks == 0 then old(previous) else Counted(Ticked(old(current), ticks - 1))
        decreases MAX_TICKS - ticks
      {
        assert ticks < MAX_TICKS by {
          assert ticks == MAX_TICKS ==> lag < TIMESTEP;
        }
        lag := lag - TIMESTEP;
        peak := Max(peak, lag);
        current := Counted(current);
        previous := current;
        current := Tick(current);
        ticks := ticks + 1;
      }
      StepsIsProduct(ticks);
      StepsIsProduct(ticks + 1);
      TicksInIsUnique(total, ticks);
      alpha := lag / TIMESTEP;
      state := Interpolate(previous, current, alpha);
    }

    /** The body of the main loop: handle the frame's events, then advance by its time. */
    method Step(f: FrameInput)
      requires Valid()
      modifies this
      ensures Valid() && State() == Frame(old(State()), f)
    {
      HandleEvents(f.events, f.hmd);
      var ticks, alpha, state := Advance(f.delta);
    }

    /** Frames `..n` have been run from `s0`, each starting with the game unfinished. */
    ghost predicate RanUpTo(s0: LoopState, frames: seq<FrameInput>, n: nat)
      reads this
    {
      && Valid() && n <= |frames| && State() == Frames(s0, frames[..n])
      && forall k :: 0 <= k < n ==> !Frames(s0, frames[..k]).current.finished
    }

    /** One more pass of the loop, taken because the game has not finished. */
    method RunNext(ghost s0: LoopState, frames: seq<FrameInput>, n: nat)
      requires RanUpTo(s0, frames, n) && n < |frames| && !current.finished
      modifies this
      ensures RanUpTo(s0, frames, n + 1)
    {
      ghost var before := State();
      Step(frames[n]);
      FramesSnoc(s0, frames, n, before);
    }

    /**
     * `while (!gs.current.finished)`: frames are run until the game has finished or the input
     * runs out; every frame run started with the game unfinished.
     */
    method Run(frames: seq<FrameInput>) returns (n: nat)
      requires Valid()
      modifies this
      ensures Valid() && n <= |frames| && State() == Frames(old(State()), frames[..n])
      ensures n < |frames| ==> current.finished
      ensures forall k :: 0 <= k < n ==> !Frames(old(State()), frames[..k]).current.finished
    {
      ghost var s0 := State();
      n := 0;
      while !current.finished && n < |frames|
        invariant RanUpTo(s0, frames, n)
        decreases |frames| - n
      {
        RunNext(s0, frames, n);
        n := n + 1;
      }
    }
  }

  /** A quit request is honoured by the first tick: the state after it is finished. */
  lemma QuitFinishesAtFirstTick(g: GameState, n: nat)
    requires g.queueQuit && n > 0
    ensures Ticked(g, n).finished && Tick(Counted(g)).finished
  {
    TickedShape(g, n);
  }
}
