/** Types shared by the component models. */
module Basics {
  datatype Option<T> = None | Some(value: T)

  datatype Result<T, E> = Ok(value: T) | Err(error: E)

  /** The modulus of the 64-bit counters. */
  const U64: nat := 0x1_0000_0000_0000_0000

  datatype Venue = Binance | Bybit | Mexc

  lemma {:induction false} SubsetSize<T>(a: set<T>, b: set<T>)
    requires a <= b
    ensures |a| <= |b|
  {
    if a != {} {
      var x :| x in a;
      SubsetSize(a - {x}, b - {x});
    }
  }
}
