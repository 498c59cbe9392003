/** Arithmetic shared by the other modules. */
module Numbers {

  function Min(x: int, y: int): int {
    if y < x then y else x
  }
}
