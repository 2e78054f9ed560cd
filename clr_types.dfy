/** The CLR types the modelled components share. */
module ClrTypes {
  /** A CLR type, compared by identity (its full name). */
  datatype ClrType = ClrType(name: string)

  /** typeof(MaterializationContext). */
  const MaterializationContextType: ClrType := ClrType("MaterializationContext")

  /** A stored column value. */
  datatype Value = Null | IntValue(i: int) | TextValue(s: string)

  /** ValueBuffer: one row's values. */
  datatype ValueBuffer = ValueBuffer(values: seq<Value>)
}
