/** The integer minimum and maximum both the gradient and the lane packer use. */
module Numbers {

  function Min(a: int, b: int): int { if a <= b then a else b }
  function Max(a: int, b: int): int { if a <= b then b else a }
}
