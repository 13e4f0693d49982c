/**
 * The game's own main loop: polled SDL events are classified (quit requests, debug-flag
 * toggles, key presses queued as input events), the queued input events are delivered to the
 * top screen, which forwards them to its focused widget, and every frame the top screen
 * updates each of its widgets.
 *
 * Widgets are the note field or the font test; the font test's update only moves a
 * transformation matrix and is not modelled. The frame time handed to the widgets is an
 * integer number of milliseconds (the clock is a parameter).
 */
module Game {
  import opened Ints
  import Sdl
  import Notefield

  // ---------------------------------------------------------------------------------------
  // Event classification

  /** What the polling loop changes: the quit request, the debug flags and the queued input events. */
  datatype Control = Control(queueQuit: bool, debugFlags: bv32, events: seq<int>)

  /** The debug flag update of one key event: '1' toggles the stats overlay, '2' the wireframe. */
  function DebugToggled(flags: bv32, sym: int): bv32 {
    var f := if sym == Sdl.SDLK_1 then flags ^ Sdl.BGFX_DEBUG_STATS else flags;
    if sym == Sdl.SDLK_2 then f ^ Sdl.BGFX_DEBUG_WIREFRAME else f
  }

  /** The checks of the key-release case, which a key press also reaches by falling through. */
  function KeyChecks(c: Control, sym: int): Control {
    var c1 := if sym == Sdl.SDLK_ESCAPE then c.(queueQuit := true) else c;
    c1.(debugFlags := DebugToggled(c1.debugFlags, sym))
  }

  /** The reaction to one polled event. */
  function OnEvent(c: Control, e: Sdl.Event): Control {
    match e
    case Quit => c.(queueQuit := true)
    case KeyDown(sym) => KeyChecks(c.(events := c.events + [sym]), sym)
    case KeyUp(sym) => KeyChecks(c, sym)
    case JoyDeviceAdded(_) => c
    case JoyDeviceRemoved(_) => c
    case Other => c
  }

  /** The effect of a batch of polled events, in polling order. */
  function Polled(c: Control, es: seq<Sdl.Event>): Control
    decreases |es|
  {
    if es == [] then c else OnEvent(Polled(c, es[..|es| - 1]), es[|es| - 1])
  }

  /** The keys of the key presses among `es`, in order. */
  function KeysDown(es: seq<Sdl.Event>): seq<int>
    decreases |es|
  {
    if es == [] then []
    else KeysDown(es[..|es| - 1]) + (if es[|es| - 1].KeyDown? then [es[|es| - 1].sym] else [])
  }

  /** The events that set the quit request: SDL_QUIT, and Escape pressed or released. */
  predicate IsQuitRequest(e: Sdl.Event) {
    e == Sdl.Quit || e == Sdl.KeyDown(Sdl.SDLK_ESCAPE) || e == Sdl.KeyUp(Sdl.SDLK_ESCAPE)
  }

  /** Toggling with the same key twice restores the flags. */
  lemma DebugToggledTwice(flags: bv32, sym: int)
    ensures DebugToggled(DebugToggled(flags, sym), sym) == flags
  {
    if sym == Sdl.SDLK_1 {
      assert flags ^ Sdl.BGFX_DEBUG_STATS ^ Sdl.BGFX_DEBUG_STATS == flags;
    } else if sym == Sdl.SDLK_2 {
      assert flags ^ Sdl.BGFX_DEBUG_WIREFRAME ^ Sdl.BGFX_DEBUG_WIREFRAME == flags;
    }
  }

  /** Keys other than '1' and '2' leave the debug flags alone. */
  lemma OtherKeysKeepDebug(flags: bv32, sym: int)
    requires sym != Sdl.SDLK_1 && sym != Sdl.SDLK_2
    ensures DebugToggled(flags, sym) == flags
  {
  }

  /** Pressing a key queues exactly one input event carrying it and then runs the release checks: Escape quits on the press. */
  lemma KeyDownFallsThrough(c: Control, sym: int)
    ensures OnEvent(c, Sdl.KeyDown(sym)).events == c.events + [sym]
    ensures OnEvent(c, Sdl.KeyDown(sym)).queueQuit <==> c.queueQuit || sym == Sdl.SDLK_ESCAPE
    ensures OnEvent(c, Sdl.KeyDown(sym)).debugFlags == OnEvent(c, Sdl.KeyUp(sym)).debugFlags
    ensures OnEvent(c, Sdl.KeyUp(sym)).events == c.events
  {
  }

  /** A full press and release of any key leaves the debug flags as they were, and queues the key once. */
  lemma PressReleaseRestoresDebug(c: Control, sym: int)
    ensures Polled(c, [Sdl.KeyDown(sym), Sdl.KeyUp(sym)]).debugFlags == c.debugFlags
    ensures Polled(c, [Sdl.KeyDown(sym), Sdl.KeyUp(sym)]).events == c.events + [sym]
  {
    var es := [Sdl.KeyDown(sym), Sdl.KeyUp(sym)];
    assert es[..1] == [Sdl.KeyDown(sym)] && es[..1][..0] == [];
    var down := OnEvent(c, Sdl.KeyDown(sym));
    assert Polled(c, es[..1]) == OnEvent(Polled(c, []), Sdl.KeyDown(sym)) == down;
    assert Polled(c, es) == OnEvent(down, Sdl.KeyUp(sym));
    DebugToggledTwice(c.debugFlags, sym);
  }

  /** After a batch, quit is requested iff it already was or some event was a quit request. */
  lemma {:induction false} PolledQuit(c: Control, es: seq<Sdl.Event>)
    ensures Polled(c, es).queueQuit <==> c.queueQuit || exists i :: 0 <= i < |es| && IsQuitRequest(es[i])
    decreases |es|
  {
    if es != [] {
      var init := es[..|es| - 1];
      PolledQuit(c, init);
      if exists i :: 0 <= i < |init| && IsQuitRequest(init[i]) {
        var i :| 0 <= i < |init| && IsQuitRequest(init[i]);
        assert es[i] == init[i];
      }
      if exists i :: 0 <= i < |es| && IsQuitRequest(es[i]) {
        var i :| 0 <= i < |es| && IsQuitRequest(es[i]);
        if i < |init| {
          assert init[i] == es[i];
        }
      }
    }
  }

  /** After a batch, the queued input events are the old ones followed by the keys pressed, in polling order. */
  lemma {:induction false} PolledEvents(c: Control, es: seq<Sdl.Event>)
    ensures Polled(c, es).events == c.events + KeysDown(es)
    decreases |es|
  {
    if es != [] {
      PolledEvents(c, es[..|es| - 1]);
    }
  }

  // ---------------------------------------------------------------------------------------
  // Delivery of queued input events

  /** `s` reversed: the order in which a stack hands out what was pushed. */
  function Reversed(s: seq<int>): (r: seq<int>)
    ensures |r| == |s|
    decreases |s|
  {
    if s == [] then [] else Reversed(s[1..]) + [s[0]]
  }

  /** The k-th key handed out is the k-th from the top. */
  lemma {:induction false} ReversedIndex(s: seq<int>, k: nat)
    requires k < |s|
    ensures Reversed(s)[k] == s[|s| - 1 - k]
    decreases |s|
  {
    if k < |s| - 1 {
      ReversedIndex(s[1..], k);
    }
  }

  /** The note field after receiving `keys` in order. */
  function PressAll(s: Notefield.FieldState, keys: seq<int>): (r: Notefield.FieldState)
    requires s.time >= 0
    ensures r.(judging := s.judging) == s
    decreases |keys|
  {
    if keys == [] then s else Notefield.Pressed(PressAll(s, keys[..|keys| - 1]), keys[|keys| - 1])
  }

  /**
   * Order does not matter to the note field: a batch of keys has the effect of one Space press
   * when it holds a Space, and none otherwise.
   */
  lemma {:induction false} PressAllIsOnePress(s: Notefield.FieldState, keys: seq<int>)
    requires s.time >= 0
    ensures PressAll(s, keys) == if Sdl.SDLK_SPACE in keys then Notefield.Pressed(s, Sdl.SDLK_SPACE) else s
    decreases |keys|
  {
    if keys != [] {
      var init := keys[..|keys| - 1];
      var k := keys[|keys| - 1];
      PressAllIsOnePress(s, init);
      assert keys == init + [k];
      if k == Sdl.SDLK_SPACE {
        if Sdl.SDLK_SPACE in init {
          Notefield.PressIdempotent(s, k);
        }
      } else {
        Notefield.OtherKeysIgnored(PressAll(s, init), k);
      }
    }
  }

  // ---------------------------------------------------------------------------------------
  // Screens

  /** A widget of a screen; the font test's input and update change nothing this model keeps. */
  datatype Widget = NoteWidget(field: Notefield.Field) | FontTest

  /** The note fields among `ws`. */
  function FieldsOf(ws: seq<Widget>): set<Notefield.Field> {
    set i | 0 <= i < |ws| && ws[i].NoteWidget? :: ws[i].field
  }

  /** The note field `w` is, if any. */
  function FieldOf(w: Widget): set<Notefield.Field> {
    if w.NoteWidget? then {w.field} else {}
  }

  class Screen {
    const widgets: seq<Widget>
    const focused: Widget

    constructor (ws: seq<Widget>, focus: Widget)
      ensures widgets == ws && focused == focus
    {
      widgets := ws;
      focused := focus;
    }

    /** No note field is listed twice. */
    predicate Distinct() {
      forall i, j :: 0 <= i < j < |widgets| && widgets[i].NoteWidget? && widgets[j].NoteWidget? ==>
        widgets[i].field != widgets[j].field
    }

    /** Every note field is consistent and can run `dt` more milliseconds on its 32-bit clock. */
    ghost predicate CanUpdate(dt: int)
      reads FieldsOf(widgets)
    {
      forall i :: 0 <= i < |widgets| && widgets[i].NoteWidget? ==>
        widgets[i].field.Valid() && 0 <= widgets[i].field.time + dt < U32_MOD
    }

    /** `screen_t::input`: only the focused widget receives the event. */
    method Input(key: int)
      requires focused.NoteWidget? ==> focused.field.Valid()
      modifies FieldOf(focused)
      ensures focused.NoteWidget? ==>
                focused.field.Valid() && focused.field.State() == Notefield.Pressed(old(focused.field.State()), key)
    {
      match focused
      case NoteWidget(f) =>
        f.Input(key);
      case FontTest =>
    }

    /** `screen_t::update`: every widget is updated once, in order. */
    method Update(dt: int)
      requires Distinct() && CanUpdate(dt)
      modifies FieldsOf(widgets)
      ensures forall i :: 0 <= i < |widgets| && widgets[i].NoteWidget? ==>
                widgets[i].field.Valid() && widgets[i].field.State() == Notefield.Updated(old(widgets[i].field.State()), dt)
    {
      for k := 0 to |widgets|
        invariant forall i :: 0 <= i < k && widgets[i].NoteWidget? ==>
                    widgets[i].field.Valid() && widgets[i].field.State() == Notefield.Updated(old(widgets[i].field.State()), dt)
        invariant forall i :: k <= i < |widgets| && widgets[i].NoteWidget? ==>
                    widgets[i].field.State() == old(widgets[i].field.State())
      {
        match widgets[k]
        case NoteWidget(f) =>
          f.Update(dt);
        case FontTest =>
      }
    }
  }

  // ---------------------------------------------------------------------------------------
  // The game state

  /** `game_state_t` together with the global debug flags; the stack tops are the last elements. */
  class App {
    var screens: seq<Screen>
    var events: seq<int>
    var queueQuit: bool
    var finished: bool
    var width: int32
    var height: int32
    var tick: uint64
    var debugFlags: bv32

    /** The screen on top of the stack. */
    function Top(): Screen
      reads this
      requires screens != []
    {
      screens[|screens| - 1]
    }

    /** The note field the top screen's focus is on, if any. */
    function Focus(): set<Notefield.Field>
      reads this
    {
      if screens == [] then {} else FieldOf(Top().focused)
    }

    /** The state `main` sets up: one screen holding a note field (focused) and the font test. */
    constructor (initialDebug: bv32)
      ensures events == [] && !queueQuit && !finished && width == 1280 && height == 720 && tick == 0
      ensures debugFlags == initialDebug && |screens| == 1
      ensures |Top().widgets| == 2 && Top().widgets[0] == Top().focused && Top().widgets[1] == FontTest
      ensures Top().focused.NoteWidget? && Top().Distinct() && fresh(Top().focused.field)
      ensures Top().focused.field.Valid()
      ensures Top().focused.field.State() == Notefield.FieldState(0, Notefield.DEFAULT_CHART, [], [], [])
    {
      var w := new Notefield.Field(Notefield.DEFAULT_CHART, 0);
      var s := new Screen([NoteWidget(w), FontTest], NoteWidget(w));
      screens := [s];
      events := [];
      queueQuit := false;
      finished := false;
      width := 1280;
      height := 720;
      tick := 0;
      debugFlags := initialDebug;
    }

    /** One pass of the polling loop. */
    method Poll(e: Sdl.Event)
      modifies `queueQuit, `debugFlags, `events
      ensures Control(queueQuit, debugFlags, events) == OnEvent(Control(old(queueQuit), old(debugFlags), old(events)), e)
    {
      match e
      case Quit =>
        queueQuit := true;
      case KeyDown(sym) =>
        events := events + [sym];
        KeyUpChecks(sym);
      case KeyUp(sym) =>
        KeyUpChecks(sym);
      case JoyDeviceAdded(_) =>
      case JoyDeviceRemoved(_) =>
      case Other =>
    }

    /** The checks of the key-release case. */
    method KeyUpChecks(sym: int)
      modifies `queueQuit, `debugFlags
      ensures var c := KeyChecks(Control(old(queueQuit), old(debugFlags), events), sym);
              queueQuit == c.queueQuit && debugFlags == c.debugFlags
    {
      if sym == Sdl.SDLK_ESCAPE {
        queueQuit := true;
      }
      if sym == Sdl.SDLK_1 {
        debugFlags := debugFlags ^ Sdl.BGFX_DEBUG_STATS;
      }
      if sym == Sdl.SDLK_2 {
        debugFlags := debugFlags ^ Sdl.BGFX_DEBUG_WIREFRAME;
      }
    }

    /** Hands the queued input events to the top screen, newest first, until none is left. */
    method Drain()
      requires screens != []
      requires Top().focused.NoteWidget? ==> Top().focused.field.Valid()
      modifies `events, Focus()
      ensures events == []
      ensures Top().focused.NoteWidget? ==>
                && Top().focused.field.Valid()
                && Top().focused.field.State() == PressAll(old(Top().focused.field.State()), Reversed(old(events)))
    {
      var top := Top();
      ghost var s0 := if top.focused.NoteWidget? then top.focused.field.State() else Notefield.FieldState(0, [], [], [], []);
      ghost var queued := events;
      while events != []
        modifies `events, Focus()
        invariant events == queued[..|events|]
        invariant top.focused.NoteWidget? ==>
                    top.focused.field.Valid() && top.focused.field.State() == PressAll(s0, Reversed(queued[|events|..]))
        decreases |events|
      {
        var n := |events|;
        top.Input(events[n - 1]);
        assert queued[n - 1..][1..] == queued[n..];
        events := events[..n - 1];
      }
    }

    /** `handle_events`: poll every pending event, then deliver the queued input events. */
    method HandleEvents(polled: seq<Sdl.Event>)
      requires screens != []
      requires Top().focused.NoteWidget? ==> Top().focused.field.Valid()
      modifies `queueQuit, `debugFlags, `events, Focus()
      ensures var c := Polled(Control(old(queueQuit), old(debugFlags), old(events)), polled);
              && queueQuit == c.queueQuit && debugFlags == c.debugFlags && events == []
              && (Top().focused.NoteWidget? ==>
                   && Top().focused.field.Valid()
                   && Top().focused.field.State() == PressAll(old(Top().focused.field.State()), Reversed(c.events))
                   && Top().focused.field.time == old(Top().focused.field.time))
    {
      ghost var c0 := Control(queueQuit, debugFlags, events);
      for i := 0 to |polled|
        modifies `queueQuit, `debugFlags, `events
        invariant Control(queueQuit, debugFlags, events) == Polled(c0, polled[..i])
      {
        assert polled[..i + 1][..i] == polled[..i];
        Poll(polled[i]);
      }
      assert polled[..|polled|] == polled;
      ghost var s0 := if Top().focused.NoteWidget? then Top().focused.field.State() else Notefield.FieldState(0, [], [], [], []);
      Drain();
      if Top().focused.NoteWidget? {
        assert Top().focused.field.State().(judging := s0.judging) == s0;
      }
    }

    /**
     * `handle_events` seen from the top screen: the focused note field receives the queued keys,
     * newest first; every other note field keeps its state and its room to run `dt` more
     * milliseconds.
     */
    method HandleEventsOnTop(top: Screen, polled: seq<Sdl.Event>, ghost dt: int)
      requires screens != [] && top == Top() && top.CanUpdate(dt) && top.focused in top.widgets
      modifies `queueQuit, `debugFlags, `events, Focus()
      ensures screens == old(screens) && top.CanUpdate(dt)
      ensures var c := Polled(Control(old(queueQuit), old(debugFlags), old(events)), polled);
              && queueQuit == c.queueQuit && debugFlags == c.debugFlags && events == []
              && forall i :: 0 <= i < |top.widgets| && top.widgets[i].NoteWidget? ==>
                   top.widgets[i].field.State() ==
                     if top.widgets[i] == top.focused
                     then PressAll(old(top.widgets[i].field.State()), Reversed(c.events))
                     else old(top.widgets[i].field.State())
    {
      ghost var c := Polled(Control(queueQuit, debugFlags, events), polled);
      assert top.focused.NoteWidget? ==> top.focused.field in FieldsOf(top.widgets);
      HandleEvents(polled);
      forall i | 0 <= i < |top.widgets| && top.widgets[i].NoteWidget?
        ensures top.widgets[i].field.Valid() && 0 <= top.widgets[i].field.time + dt < U32_MOD
        ensures top.widgets[i].field.State() ==
                  if top.widgets[i] == top.focused
                  then PressAll(old(top.widgets[i].field.State()), Reversed(c.events))
                  else old(top.widgets[i].field.State())
      {
        var f := top.widgets[i].field;
        assert old(f.Valid()) && 0 <= old(f.time) + dt < U32_MOD;
        if top.widgets[i] != top.focused {
          assert f !in old(Focus());
        }
      }
    }

    /** The first half of an iteration: `handle_events`, then the quit check. */
    method HandleAndCheck(top: Screen, polled: seq<Sdl.Event>, ghost dt: int)
      requires screens != [] && top == Top() && top.CanUpdate(dt) && top.focused in top.widgets
      modifies `queueQuit, `debugFlags, `events, `finished, Focus()
      ensures screens == old(screens) && top.CanUpdate(dt)
      ensures var c := Polled(Control(old(queueQuit), old(debugFlags), old(events)), polled);
              && queueQuit == c.queueQuit && debugFlags == c.debugFlags && events == []
              && (finished <==> old(finished) || c.queueQuit)
              && forall i :: 0 <= i < |top.widgets| && top.widgets[i].NoteWidget? ==>
                   top.widgets[i].field.State() ==
                     if top.widgets[i] == top.focused
                     then PressAll(old(top.widgets[i].field.State()), Reversed(c.events))
                     else old(top.widgets[i].field.State())
    {
      HandleEventsOnTop(top, polled, dt);
      if queueQuit {
        finished := true;
      }
    }

    /**
     * One iteration of `main`'s loop: events, the quit check, then the top screen's update. The
     * focused note field receives the queued keys, newest first, before its update; every other
     * note field is only updated; the screens, the size and the tick counter are untouched.
     */
    method Iterate(polled: seq<Sdl.Event>, dt: int)
      requires screens != [] && Top().Distinct() && Top().CanUpdate(dt) && Top().focused in Top().widgets
      modifies `queueQuit, `debugFlags, `events, `finished, FieldsOf(Top().widgets)
      ensures screens == old(screens) && width == old(width) && height == old(height) && tick == old(tick)
      ensures var c := Polled(Control(old(queueQuit), old(debugFlags), old(events)), polled);
              && queueQuit == c.queueQuit && debugFlags == c.debugFlags && events == []
              && (finished <==> old(finished) || c.queueQuit)
              && forall i :: 0 <= i < |Top().widgets| && Top().widgets[i].NoteWidget? ==>
                   && Top().widgets[i].field.Valid()
                   && Top().widgets[i].field.State() ==
                        Notefield.Updated(if Top().widgets[i] == Top().focused
                                          then PressAll(old(Top().widgets[i].field.State()), Reversed(c.events))
                                          else old(Top().widgets[i].field.State()), dt)
    {
      var top := Top();
      assert top.focused.NoteWidget? ==> top.focused.field in FieldsOf(top.widgets);
      ghost var c := Polled(Control(queueQuit, debugFlags, events), polled);
      HandleAndCheck(top, polled, dt);
      label mid:
      top.Update(dt);
      forall i | 0 <= i < |top.widgets| && top.widgets[i].NoteWidget?
        ensures top.widgets[i].field.State() ==
                  Notefield.Updated(if top.widgets[i] == top.focused
                                    then PressAll(old(top.widgets[i].field.State()), Reversed(c.events))
                                    else old(top.widgets[i].field.State()), dt)
      {
        var w := top.widgets[i];
        ghost var s1 := old@mid(w.field.State());
        assert s1 == if w == top.focused then PressAll(old(w.field.State()), Reversed(c.events)) else old(w.field.State());
        assert w.field.State() == Notefield.Updated(s1, dt);
      }
      assert Top() == top;
    }
  }
}
