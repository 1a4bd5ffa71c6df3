/** Integer helpers shared by the slices of the model: `xs[:n]` keeps
    `min(n, len(xs))` items. */
module Numbers {

  function Min(a: int, b: int): (m: int)
    ensures m <= a && m <= b
    ensures m == a || m == b
  {
    if a <= b then a else b
  }
}
