/** Small definitions used across the modules. */
module Common {
  datatype Option<T> = None | Some(value: T)

  function Min(a: int, b: int): int {
    if a <= b then a else b
  }

  function Max(a: int, b: int): int {
    if a >= b then a else b
  }

  /** The slice s[-n:], which for n = 0 is the whole list. */
  function LastN<T>(s: seq<T>, n: nat): seq<T> {
    if n == 0 || |s| <= n then s else s[|s| - n..]
  }
}
