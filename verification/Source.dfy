/** Assembler source after text parsing: statements, operand tokens and symbols. */
module Source {
  const TWO_TO_32 := 0x1_0000_0000

  /** A UTF-16 code unit. */
  type Unit = n: int | 0 <= n < 0x10000

  type Value = n: int | 0 <= n < TWO_TO_32

  /** The value of `n >>> 0` for a number that is not negative: n modulo 2^32. */
  function Unsigned(n: nat): Value {
    if n < TWO_TO_32 then n else Unsigned(n - TWO_TO_32)
  }

  lemma {:induction false} UnsignedIsModulo(n: nat)
    ensures Unsigned(n) == n % TWO_TO_32
  {
    if n >= TWO_TO_32 {
      UnsignedIsModulo(n - TWO_TO_32);
    }
  }

  /** Symbol names are kept in lower case. */
  type Symbols = map<string, Value>

  datatype Token =
    | Number(value: Value)
    | Quoted(units: seq<Unit>)
    | Symbol(name: string)
    | Blank

  /** Bytes per element of a data directive. */
  type DataSize = n: int | n == 1 || n == 2 || n == 4 witness 1
}
