/**
 * The values the tracker stores: an allocation's metadata record and the
 * opaque address it is filed under.
 */
module Records {

  /**
   * An allocation address. The tracker only compares addresses and orders
   * them (its map is keyed and ordered by pointer value); it never
   * dereferences one, so a natural number stands in for it.
   */
  type Addr = nat

  /**
   * What is recorded for one live allocation: the allocated type's name, the
   * source file, line and enclosing function of the allocating call, and the
   * number of bytes allocated.
   */
  datatype MemoryStruct = MemoryStruct(
    typeName: string,
    file: string,
    line: int,
    functionAlloc: string,
    allocatedBytes: nat)
}
