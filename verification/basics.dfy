/** What several modules share. */
module Basics {
  datatype Option<T> = None | Some(value: T)

  /** A statement as a value. Predicates that are passed on whole from lemma to lemma are written as
      functions to Claim; that keeps the verifier from taking them apart at each step. */
  datatype Claim = Claim(holds: bool)

  type Byte = x: int | 0 <= x < 256
  const WORDMAX := 0x1_0000_0000  // one past the largest uint
  const MAXOPBLOCKS := 10         // blocks an operation may log

  function Min(a: nat, b: nat): (m: nat) {
    if a < b then a else b
  }
}
