/** Real arithmetic shared by the modules. */
module Reals {
  function Abs(x: real): real { if x < 0.0 then -x else x }
  function Max(x: real, y: real): real { if x < y then y else x }
  function Min(x: real, y: real): real { if y < x then y else x }

  /** `w` halved `k` times. */
  function Half(w: real, k: nat): real { if k == 0 then w else Half(w, k - 1) / 2.0 }

  lemma HalfStep(w: real, k: nat)
    ensures Half(w, 0) == w && Half(w, k + 1) == Half(w, k) / 2.0
  {}

  lemma OneMore(n: real, m: real, c: real)
    requires n == m + 1.0
    ensures n * c == m * c + c
  {}
}
