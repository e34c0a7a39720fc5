/**
 * The GLFW codes the key callback compares against. Only their values
 * matter to the model; they are the ones GLFW 3 defines.
 */
module Glfw {

  // Actions
  const RELEASE: int := 0
  const PRESS: int := 1
  const REPEAT: int := 2

  // Arrow keys
  const KEY_RIGHT: int := 262
  const KEY_LEFT: int := 263
  const KEY_DOWN: int := 264
  const KEY_UP: int := 265

  // Modifier bits; `mods` is their bitwise or
  const MOD_SHIFT: int := 0x0001
  const MOD_CONTROL: int := 0x0002
  // Shift and Control held together: the bitwise or of the two bits,
  // which is their sum because the bits are distinct
  const MOD_SHIFT_CONTROL: int := MOD_SHIFT + MOD_CONTROL

  predicate IsArrowKey(key: int)
  {
    key == KEY_RIGHT || key == KEY_LEFT || key == KEY_DOWN || key == KEY_UP
  }
}
