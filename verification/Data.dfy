/** The request and reply record (DriverProxyBase::DriverData) that both programs pass around.
    It is owned by one unique_ptr at a time, so it is a value here. */
module Data {
  import opened Base

  const READ := 0
  const WRITE := 1
  const DISC := 2
  const FLUSH := 3
  const TRIM := 4

  const INT_MIN := -0x8000_0000
  const INT_MAX := 0x7fff_ffff
  const LONG_MIN := -0x8000_0000_0000_0000
  const LONG_MAX := 0x7fff_ffff_ffff_ffff
  const TWO_32 := 0x1_0000_0000
  const TWO_64 := 0x1_0000_0000_0000_0000

  datatype DriverData = DriverData(offset: nat, len: nat, id: int, kind: int, buffer: bytes)

  /** The fields stay inside size_t, unsigned int and int. */
  predicate Typed(d: DriverData) {
    d.offset < TWO_64 && d.len < TWO_32 && INT_MIN <= d.id <= INT_MAX && INT_MIN <= d.kind <= INT_MAX
  }
}
