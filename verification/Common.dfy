/** Constants, errors and small functions that several modules share. */
module Common {

  const U64_MAX: nat := 0xFFFF_FFFF_FFFF_FFFF
  const MAX_READERS: nat := 8

  datatype Error =
    | InvalidCapacity(got: nat)
    | FileTooShort(expected: nat, got: nat)
    | HeaderCorruption(field: string, expected: nat, got: nat)
    | VersionMismatch(expected: nat, got: nat)
    | InvalidReaderId(id: nat, max: nat)
    | LoanOutstanding(readerId: nat)
    | LoanNotAtCursor(index: nat, cursor: nat)

  datatype Result<+T> = Ok(value: T) | Err(error: Error)
  datatype Option<+T> = None | Some(value: T)

  function Max(a: nat, b: nat): nat { if a < b then b else a }

  /** u64 subtraction as release builds perform it. */
  function WrappingSub(a: nat, b: nat): nat { (a - b) % (U64_MAX + 1) }

  /** The least of the first `n` cursors, starting the fold from `u64::MAX`. */
  function Slowest(cursors: seq<nat>, n: nat): (m: nat)
    requires n <= |cursors|
    ensures forall r :: 0 <= r < n ==> m <= cursors[r]
    ensures m == U64_MAX || exists r :: 0 <= r < n && m == cursors[r]
  {
    if n == 0 then U64_MAX
    else
      var m := Slowest(cursors, n - 1);
      if cursors[n - 1] < m then cursors[n - 1] else m
  }
}
