/**
 * The SDL events and key codes the game reacts to, and the bgfx flag bits it toggles.
 * SDL and bgfx themselves are not part of this model: an event is a value handed to the
 * event handlers, a flag word is a 32-bit vector.
 */
module Sdl {

  /** SDL2 key codes (SDL_Keycode) used by the event handlers and the note field. */
  const SDLK_ESCAPE: int := 27
  const SDLK_SPACE: int := 32
  const SDLK_1: int := 49
  const SDLK_2: int := 50
  const SDLK_F5: int := 0x4000_003E

  /** bgfx flag bits; each is a single bit of a 32-bit flag word. */
  const BGFX_DEBUG_WIREFRAME: bv32 := 0x0000_0001
  const BGFX_DEBUG_STATS: bv32 := 0x0000_0004
  const BGFX_RESET_HMD: bv32 := 0x0000_0400

  /** One polled SDL event, reduced to the fields the handlers read. */
  datatype Event =
    | Quit
    | KeyDown(sym: int)
    | KeyUp(sym: int)
    | JoyDeviceAdded(which: int)
    | JoyDeviceRemoved(which: int)
    | Other
}
