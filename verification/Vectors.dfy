/** Plane vectors. */
module Vectors {
  datatype Vect = Vect(x: real, y: real)

  const ZERO := Vect(0.0, 0.0)

  function Add(a: Vect, b: Vect): Vect { Vect(a.x + b.x, a.y + b.y) }
  function Sub(a: Vect, b: Vect): Vect { Vect(a.x - b.x, a.y - b.y) }
  function Neg(a: Vect): Vect { Vect(-a.x, -a.y) }
  function Mult(a: Vect, s: real): Vect { Vect(a.x * s, a.y * s) }
  function Dot(a: Vect, b: Vect): real { a.x * b.x + a.y * b.y }
  function Cross(a: Vect, b: Vect): real { a.x * b.y - a.y * b.x }
  function Perp(a: Vect): Vect { Vect(-a.y, a.x) }
  function Rotate(a: Vect, b: Vect): Vect { Vect(a.x * b.x - a.y * b.y, a.x * b.y + a.y * b.x) }
}
