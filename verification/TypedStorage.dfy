/** What the typed decoders take from the arena for the C structs they fill in. */
module TypedStorage {
  import opened Octets
  import opened Cbor
  import opened ArenaMemory
  import opened Readers

  /** sizeof where pointers, size_t and uint64_t have eight octets and an enumeration has four. */
  const QUEUE_ITEM_SIZE: nat := 48
  const TRANSFER_CHUNK_SIZE: nat := 32
  const TRANSFER_FILE_SIZE: nat := 48
  const POINTER_SIZE: nat := 8
  const NUMBER_SIZE: nat := 8
  const ENUM_SIZE: nat := 4
  const FLAG_SIZE: nat := 1

  /** No array of these structs that a tree of at most MAX_INPUT values calls for overflows its request. */
  lemma RequestsStayInRange(count: nat, size: nat)
    requires count <= MAX_INPUT && size <= QUEUE_ITEM_SIZE
    ensures count * size <= LARGEST_REQUEST
  {
    ProductGrows(count, size, QUEUE_ITEM_SIZE);
  }

  lemma ProductGrows(n: nat, a: nat, b: nat)
    requires a <= b
    ensures n * a <= n * b
  {
    var more := b - a;
    assert n * b == n * a + n * more;
  }

  /** An array of structs: the product of count and size is taken in size_t, unchecked. */
  method ArrayStorage(a: Arena, count: nat, size: nat, ghost t: Snapshot) returns (home: Option<Region>)
    requires a.Valid() && a.Since(t) && 0 < count && 0 < size <= QUEUE_ITEM_SIZE
    modifies a, a.Repr
    ensures a.Valid() && old(a.Repr) <= a.Repr && fresh(a.Repr - old(a.Repr)) && a.Since(t)
    ensures count <= MAX_INPUT ==> home.Some? && home.value.size == count * size
    ensures a.taken <= old(a.taken) + count * size + 15
  {
    hide Arena.Valid, AlignUp;
    var request := count * size % (SIZE_MAX + 1);
    WrapIsNoticed(request);
    ModuloLowers(count * size);
    if count <= MAX_INPUT { RequestsStayInRange(count, size); }
    a.ChainOwned();
    home := a.Alloc(request);
  }

  lemma ModuloLowers(n: nat)
    ensures 0 <= n % (SIZE_MAX + 1) <= n && n % (SIZE_MAX + 1) <= SIZE_MAX
    ensures n <= SIZE_MAX ==> n % (SIZE_MAX + 1) == n
  {
  }

  /** What an optional number, flag or enumeration constant points to. */
  method Scalar(a: Arena, size: nat, ghost t: Snapshot)
    requires a.Valid() && a.Since(t) && 0 < size <= 8
    modifies a, a.Repr
    ensures a.Valid() && old(a.Repr) <= a.Repr && fresh(a.Repr - old(a.Repr)) && a.Since(t)
    ensures a.taken <= old(a.taken) + 16
  {
    hide Arena.Valid;
    assert AlignUp(size) == 16;
    a.ChainOwned();
    var p := a.Alloc(size);
    assert p.Some?;
  }

  method OptNumber(a: Arena, f: Option<Value>, ghost t: Snapshot) returns (r: Option<Option<U64>>)
    requires a.Valid() && a.Since(t)
    modifies a, a.Repr
    ensures a.Valid() && old(a.Repr) <= a.Repr && fresh(a.Repr - old(a.Repr)) && a.Since(t)
    ensures r == Optional(f, AsU64) && a.taken <= old(a.taken) + 16
  {
    if f.Some? {
      Scalar(a, NUMBER_SIZE, t);
    }
    r := Optional(f, AsU64);
  }

  method OptFlag(a: Arena, f: Option<Value>, ghost t: Snapshot) returns (r: Option<Option<bool>>)
    requires a.Valid() && a.Since(t)
    modifies a, a.Repr
    ensures a.Valid() && old(a.Repr) <= a.Repr && fresh(a.Repr - old(a.Repr)) && a.Since(t)
    ensures r == Optional(f, AsBool) && a.taken <= old(a.taken) + 16
  {
    if f.Some? {
      Scalar(a, FLAG_SIZE, t);
    }
    r := Optional(f, AsBool);
  }
}
