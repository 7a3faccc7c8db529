/** Types and constants shared by every layer of the model. */
module Defs {

  // size_t on a 64-bit POSIX platform, and the largest C int.
  const SIZE_MAX: int := 0xFFFF_FFFF_FFFF_FFFF
  const INT_MAX: int := 0x7FFF_FFFF

  type SizeT = x: int | 0 <= x <= SIZE_MAX
  type Byte = x: int | 0 <= x < 256
  type Bytes = seq<Byte>

  datatype Option<+T> = None | Some(value: T)

  /** A socket record: its descriptor and its symmetric key. Nothing writes a
      record once it has been put in a map, so it is a value. */
  datatype Socket = Socket(fd: nat, key: Bytes)

  /** One client as a map iterator lists it. */
  datatype Entry = Entry(id: SizeT, sock: Socket)

  /** Sequences that grow by different elements, or by one and by none, differ. */
  lemma {:induction false} OtherLast<T>(xs: seq<T>, x: T, y: T)
    ensures xs + [x] != xs && (xs + [x] == xs + [y] <==> x == y)
  {
    assert (xs + [x])[|xs|] == x && (xs + [y])[|xs|] == y;
    assert |xs + [x]| == |xs| + 1;
  }
}
