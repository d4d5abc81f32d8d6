/** The vectors that bios are made of: a stretch of a page each. */
module Vectors {
  datatype Vec = Vec(page: nat, offset: nat, len: nat)

  /** How many bytes the vectors hold. */
  function Size(vecs: seq<Vec>): (n: nat) {
    if vecs == [] then 0 else vecs[0].len + Size(vecs[1..])
  }
}
