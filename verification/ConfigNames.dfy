/** The pyro modes and their one table of names (src/config.c:19-34). */
module ConfigNames {

  const PYRO_MODE_NONE := 0
  const PYRO_MODE_FALLEN := 1
  const PYRO_MODE_AGL := 2
  const PYRO_MODE_SPEED := 3
  const PYRO_MODE_DELAY := 4

  /** A mode with no name is written as one that never fires. */
  function ModeName(m: nat): (s: string)
    ensures 3 <= |s| <= 6
  {
    if m == PYRO_MODE_DELAY then "delay"
    else if m == PYRO_MODE_AGL then "agl"
    else if m == PYRO_MODE_FALLEN then "fallen"
    else if m == PYRO_MODE_SPEED then "speed"
    else "none"
  }
}
