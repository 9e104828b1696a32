/** Small things that several modules share. */
module Options {
  datatype Option<T> = None | Some(value: T)
}

module Reals {
  function Min(a: real, b: real): real { if a < b then a else b }
  function Max(a: real, b: real): real { if a > b then a else b }
  function Abs(x: real): real { if x < 0.0 then -x else x }
  function Clamp(f: real, lo: real, hi: real): real { Min(Max(f, lo), hi) }
}

/** C pointers as addresses; 0 is NULL. */
module Addresses {
  type Ptr = nat
  const NULL: Ptr := 0
}

module Boxes {
  datatype BB = BB(l: real, b: real, r: real, t: real)
}
