/** Times are integers, in milliseconds. */
module Clock {

  function Distance(a: int, b: int): int {
    if a < b then b - a else a - b
  }
}
