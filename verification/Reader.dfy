/** The decoder as it runs: offsets into the input, storage from the arena, arrays that grow in stages. */
module Reader {
  import opened Octets
  import opened Utf8
  import opened Cbor
  import opened Decoding
  import opened Codec
  import opened Growth
  import opened Allocation
  import opened ArenaMemory
  import opened Borrowing
  import Floats

  /** Nesting levels still allowed at a depth. */
  function Room(depth: nat): nat
  {
    if depth > MAX_DEPTH then 0 else ROOT_ROOM - depth
  }

  /** Read the argument of a head whose initial octet ends in low. */
  method ReadArgument(b: seq<Octet>, low: nat) returns (r: Option<Arg>)
    requires b != [] && low == b[0] % 32
    ensures r == ReadArg(b)
  {
    if low < 24 {
      return Some(Arg(low, 1));
    }
    if low == 24 {
      if |b| < 2 { return None; }
      FromBigEndian2(b[1..2]);
      return Some(Arg(b[1], 2));
    }
    if low == 25 {
      if |b| < 3 { return None; }
      FromBigEndian2(b[1..3]);
      return Some(Arg(0x100 * (b[1] as int) + b[2], 3));
    }
    if low == 26 {
      if |b| < 5 { return None; }
      FromBigEndian4(b[1..5]);
      return Some(Arg(0x100_0000 * (b[1] as int) + 0x1_0000 * (b[2] as int) + 0x100 * (b[3] as int) + b[4], 5));
    }
    if low == 27 {
      if |b| < 9 { return None; }
      var v: nat := 0;
      var i := 1;
      while i <= 8
        invariant 1 <= i <= 9
        invariant v == FromBigEndian(b[1..i])
      {
        assert b[1..i + 1][..i - 1] == b[1..i];
        v := 0x100 * v + b[i];
        i := i + 1;
      }
      CapacityIsLimit(8);
      return Some(Arg(v, 9));
    }
    return None;
  }

  lemma FromBigEndian2(s: seq<Octet>)
    ensures |s| == 1 ==> FromBigEndian(s) == s[0]
    ensures |s| == 2 ==> FromBigEndian(s) == 0x100 * (s[0] as int) + s[1]
  {
    if |s| == 1 { assert s[..0] == []; }
    if |s| == 2 { assert s[..1][..0] == []; }
  }

  lemma FromBigEndian4(s: seq<Octet>)
    requires |s| == 4
    ensures FromBigEndian(s) ==
            0x100_0000 * (s[0] as int) + 0x1_0000 * (s[1] as int) + 0x100 * (s[2] as int) + s[3]
  {
    FromBigEndian2(s[..2]);
    assert s[..3][..2] == s[..2];
  }

  // ----- one step of an element loop, seen from the specification -----

  function Prepend(vs: seq<Value>, k: nat, r: Parse<seq<Value>>): Parse<seq<Value>>
  {
    match r
    case Rejected => Rejected
    case Accepted(ws, m) => Accepted(vs + ws, k + m)
  }

  /** What is known of n items when the first i values vs, taking off octets, have been read. */
  ghost predicate Progress(b: seq<Octet>, n: nat, room: nat, vs: seq<Value>, off: nat)
  {
    && off <= |b| && |vs| <= n
    && DecItems(b, n, room) == Prepend(vs, off, DecItems(b[off..], n - |vs|, room))
    && ReadableItems(b, n, room) == |vs| + ReadableItems(b[off..], n - |vs|, room)
  }

  lemma ProgressStart(b: seq<Octet>, n: nat, room: nat)
    ensures Progress(b, n, room, [], 0)
  {
    hide DecItems, ReadableItems;
    assert b[0..] == b;
    var r := DecItems(b, n, room);
    if r.Accepted? { assert [] + r.value == r.value; }
  }

  /** Reading one more value. */
  lemma ProgressStep(b: seq<Octet>, n: nat, room: nat, vs: seq<Value>, off: nat)
    requires Progress(b, n, room, vs, off) && |vs| < n && Dec(b[off..], room).Accepted?
    ensures var r := Dec(b[off..], room); Progress(b, n, room, vs + [r.value], off + r.used)
  {
    hide Dec;
    var r := Dec(b[off..], room);
    assert b[off..][r.used..] == b[off + r.used..];
    var rest := DecItems(b[off + r.used..], n - |vs| - 1, room);
    if rest.Accepted? {
      assert vs + ([r.value] + rest.value) == (vs + [r.value]) + rest.value;
    }
  }

  lemma ProgressStop(b: seq<Octet>, n: nat, room: nat, vs: seq<Value>, off: nat)
    requires Progress(b, n, room, vs, off)
    ensures |vs| == n ==> DecItems(b, n, room) == Accepted(vs, off)
    ensures |vs| < n && Dec(b[off..], room).Rejected? ==>
              DecItems(b, n, room).Rejected? && ReadableItems(b, n, room) == |vs|
  {
    hide Dec;
    if |vs| == n { assert vs + [] == vs; }
  }

  lemma SlotsStep(b: seq<Octet>, off: nat, n: nat, room: nat)
    requires off <= |b| && n > 0
    ensures Dec(b[off..], room).Rejected? ==> ItemSlots(b[off..], n, room) == Slots(b[off..], room)
    ensures Dec(b[off..], room).Accepted? ==>
              ItemSlots(b[off..], n, room) ==
              Slots(b[off..], room) + ItemSlots(b[off + Dec(b[off..], room).used..], n - 1, room)
  {
    hide Dec, Slots;
    var r := Dec(b[off..], room);
    if r.Accepted? {
      assert b[off..][r.used..] == b[off + r.used..];
    }
  }

  // ----- the decoder -----

  /**
   * Decode one value at the start of b. A success is exactly what Dec says. On inputs of at most MAX_INPUT
   * octets so is a failure; longer inputs may also exhaust size_t arithmetic in the arena.
   */
  method DecodeValue(a: Arena, b: seq<Octet>, depth: nat) returns (ok: bool, out: Value, consumed: nat)
    requires a.Valid() && |b| <= SIZE_MAX
    modifies a, a.Repr
    ensures a.Valid() && old(a.Repr) <= a.Repr && fresh(a.Repr - old(a.Repr)) && a.Since(old(a.Now()))
    ensures ok ==> Dec(b, Room(depth)) == Accepted(out, consumed) && Held(out, a.contents)
    ensures !ok && |b| <= MAX_INPUT ==> Dec(b, Room(depth)).Rejected?
    ensures a.slots <= old(a.slots) + Slots(b, Room(depth))
    ensures ok ==> a.Sundry() <= old(a.Sundry()) + 48 * consumed - 32
    ensures !ok ==> a.Sundry() <= old(a.Sundry()) + 48 * |b| + 64 * Room(depth)
    decreases Room(depth), 0
  {
    hide DecItems, ItemSlots, ReservedSlots, Attempts, IsUtf8, ReadArg, DecSimple, PairUp, Held, Arena.Valid,
         Arena.Sundry, Arena.CopySize;
    ok, out, consumed := false, Null, 0;
    if depth > MAX_DEPTH || |b| == 0 {
      return;
    }
    var major, low := b[0] / 32, b[0] % 32;
    var r := ReadArgument(b, low);
    if r.None? {
      return;
    }
    var arg, head := r.value.value, r.value.size;
    LeavesHeld(a.contents);
    if major == 0 {
      return true, UInt(arg), head;
    } else if major == 1 {
      if arg > INT64_MAX {
        return;
      }
      return true, NInt(-1 - arg), head;
    } else if major == 2 || major == 3 {
      if arg > |b| - head {
        return;
      }
      var copied := DecodeString(a, b[head..head + arg], major == 3);
      if copied.None? {
        return;
      }
      LeavesHeld(a.contents);
      return true, if major == 3 then Text(copied.value) else Bytes(copied.value), head + arg;
    } else if major < 7 {
      ok, out, consumed := DecodeNested(a, b, major, arg, head, depth);
    } else {
      ok, out, consumed := DecodeSimple(low, Arg(arg, head));
    }
  }

  /** The branches that read further items: arrays, maps and tags. */
  method DecodeNested(a: Arena, b: seq<Octet>, major: nat, arg: U64, head: nat, depth: nat)
    returns (ok: bool, out: Value, consumed: nat)
    requires a.Valid() && 0 < |b| <= SIZE_MAX && depth <= MAX_DEPTH
    requires 4 <= major < 7 && major == b[0] / 32 && ReadArg(b) == Some(Arg(arg, head))
    modifies a, a.Repr
    ensures a.Valid() && old(a.Repr) <= a.Repr && fresh(a.Repr - old(a.Repr)) && a.Since(old(a.Now()))
    ensures ok ==> Dec(b, Room(depth)) == Accepted(out, consumed) && Held(out, a.contents)
    ensures !ok && |b| <= MAX_INPUT ==> Dec(b, Room(depth)).Rejected?
    ensures a.slots <= old(a.slots) + Slots(b, Room(depth))
    ensures ok ==> a.Sundry() <= old(a.Sundry()) + 48 * consumed - 32
    ensures !ok ==> a.Sundry() <= old(a.Sundry()) + 48 * |b| + 64 * Room(depth)
    decreases Room(depth) - 1, 5
  {
    hide DecItems, ItemSlots, ReservedSlots, Attempts, IsUtf8, ReadArg, DecSimple, PairUp, Held, Arena.Valid,
         Arena.Sundry;
    ok, out, consumed := false, Null, 0;
    if major == 4 {
      if arg > |b| - head || arg > SIZE_MAX / VALUE_SIZE {
        return;
      }
      var items, used;
      ok, items, used := DecodeArray(a, b[head..], arg, depth);
      return ok, Array(items), head + used;
    } else if major == 5 {
      if arg > |b| - head || arg > SIZE_MAX / PAIR_SIZE {
        return;
      }
      var pairs, used;
      ok, pairs, used := DecodeMap(a, b[head..], arg, depth);
      if ok { PairUpFlat(pairs); }
      return ok, Map(pairs), head + used;
    } else {
      var v, m;
      ok, v, m := DecodeTag(a, b[head..], depth);
      if ok { TagHeld(arg, v, a.contents); }
      return ok, Tag(arg, v), head + m;
    }
  }

  /** The string branch: check text, copy the string into the arena and take the value from the copy. */
  method DecodeString(a: Arena, src: seq<Octet>, asText: bool) returns (r: Option<seq<Octet>>)
    requires a.Valid() && |src| <= SIZE_MAX
    modifies a, a.Repr
    ensures a.Valid() && old(a.Repr) <= a.Repr && fresh(a.Repr - old(a.Repr)) && a.slots == old(a.slots)
    ensures a.Since(old(a.Now()))
    ensures r.Some? <==> (asText ==> IsUtf8(src)) && a.CopySize(src, asText) <= LARGEST_REQUEST
    ensures r.None? ==> |src| > MAX_INPUT || (asText && !IsUtf8(src))
    ensures r.Some? ==> r.value == src
    ensures r.Some? ==> (if asText then src + [0] else src) in a.contents
    ensures a.Sundry() <= old(a.Sundry()) + if r.Some? then |src| + 16 else 0
  {
    hide Arena.Valid, IsUtf8, AlignUp;
    if asText {
      var valid := Valid(src);
      if !valid {
        return None;
      }
    }
    if a.CopySize(src, asText) <= SIZE_MAX { WrapIsNoticed(a.CopySize(src, asText)); }
    var p := a.Copy(src, asText);
    if p.None? {
      return None;
    }
    var s := a.Load(p.value, |src|);
    return Some(s);
  }

  /** The tag branch: a node for the content, then the content. */
  method DecodeTag(a: Arena, b: seq<Octet>, depth: nat) returns (ok: bool, content: Value, used: nat)
    requires a.Valid() && |b| <= SIZE_MAX && depth <= MAX_DEPTH
    modifies a, a.Repr
    ensures a.Valid() && old(a.Repr) <= a.Repr && fresh(a.Repr - old(a.Repr)) && a.Since(old(a.Now()))
    ensures ok ==> Dec(b, Room(depth) - 1) == Accepted(content, used) && Held(content, a.contents)
    ensures !ok && |b| <= MAX_INPUT ==> Dec(b, Room(depth) - 1).Rejected?
    ensures a.slots <= old(a.slots) + Slots(b, Room(depth) - 1)
    ensures ok ==> a.Sundry() <= old(a.Sundry()) + 48 * used
    ensures !ok ==> a.Sundry() <= old(a.Sundry()) + 48 * |b| + 64 * Room(depth)
    decreases Room(depth) - 1, 1
  {
    hide Dec, Slots, Held, Earlier, ShelvedIn, Arena.Valid, Arena.Sundry;
    ghost var start := a.Now();
    var node := NewNode(a);
    ghost var middle := a.Now();
    ok, content, used := DecodeValue(a, b, depth + 1);
    EarlierStill(start, middle, a.Now());
    if ok {
      ShelvedLater(middle, a.Now(), node, 1, VALUE_SIZE);
      FillNode(a, node, content, start);
      content := NodeValue(a.cells, node);
    }
  }

  /** A node of its own for one value. */
  method NewNode(a: Arena) returns (node: Storage)
    requires a.Valid()
    modifies a, a.Repr
    ensures a.Valid() && old(a.Repr) <= a.Repr && fresh(a.Repr - old(a.Repr)) && a.Since(old(a.Now()))
    ensures a.Shelved(node, 1, VALUE_SIZE) && |old(a.cells)| <= node.index
    ensures a.slots == old(a.slots) && a.Sundry() <= old(a.Sundry()) + 32
  {
    hide Arena.Valid, Earlier, ShelvedIn;
    a.ChainOwned();
    var n := a.Node();
    node := n.value;
  }

  /** Write a value to its node, whatever was handed out since the node was. */
  method FillNode(a: Arena, node: Storage, v: Value, ghost start: Snapshot)
    requires a.Valid() && a.Shelved(node, 1, VALUE_SIZE) && a.Since(start) && |start.cells| <= node.index
    modifies a, a.Repr
    ensures a.Valid() && a.Repr == old(a.Repr) && a.Shelved(node, 1, VALUE_SIZE) && a.Since(start)
    ensures node.index < |old(a.cells)| && a.cells == old(a.cells)[node.index := [ValueCell(v)]]
    ensures a.regions == old(a.regions) && a.contents == old(a.contents)
    ensures a.slots == old(a.slots) && a.taken == old(a.taken) && a.chain == old(a.chain)
  {
    hide Arena.Valid, Earlier;
    a.StorageOwned(node);
    assert a.cells[node.index][0 := ValueCell(v)] == [ValueCell(v)];
    a.Put(node, 1, 0, VALUE_SIZE, ValueCell(v), start);
  }

  /** What the pointer to a node leads to. */
  function NodeValue(cells: seq<seq<Cell>>, node: Storage): Value
    requires node.index < |cells| && |cells[node.index]| == 1 && cells[node.index][0].ValueCell?
  {
    cells[node.index][0].value
  }

  method DecodeSimple(low: nat, arg: Arg) returns (ok: bool, out: Value, consumed: nat)
    ensures ok ==> DecSimple(low, arg) == Accepted(out, consumed) && forall c :: Held(out, c)
    ensures !ok ==> DecSimple(low, arg).Rejected?
  {
    ok, out, consumed := true, Null, arg.size;
    match low {
      case 20 => out := Bool(false);
      case 21 => out := Bool(true);
      case 22 =>
      case 23 =>
      case 25 => out := Float(Floats.HalfToDouble(arg.value % 0x1_0000));
      case 26 => out := Float(Floats.SingleToDouble(arg.value % 0x1_0000_0000));
      case 27 => out := Float(arg.value);
      case _ => ok := false;
    }
  }

  /** A slot of either width takes at most 32 octets, the rounding of the whole reservation included. */
  lemma SlotOctets(count: nat, width: nat)
    requires count > 0 && (width == VALUE_SIZE || width == PAIR_SIZE) && count * width <= SIZE_MAX
    ensures count * width <= LARGEST_REQUEST ==> AlignUp(count * width) <= 32 * count
  {
    WrapIsNoticed(count * width);
  }

  /** The first slots of the storage hold the values, in order. */
  ghost predicate HoldsValues(cells: seq<seq<Cell>>, s: Storage, vs: seq<Value>)
  {
    && s.index < |cells| && |vs| <= |cells[s.index]|
    && forall k :: 0 <= k < |vs| ==> cells[s.index][k] == ValueCell(vs[k])
  }

  ghost predicate HoldsPairs(cells: seq<seq<Cell>>, s: Storage, ps: seq<Pair>)
  {
    && s.index < |cells| && |ps| <= |cells[s.index]|
    && forall k :: 0 <= k < |ps| ==> cells[s.index][k] == PairCell(ps[k])
  }

  /** The storage reserved before any element is read. */
  method FirstSlots(a: Arena, count: nat, width: nat) returns (s: Option<Storage>)
    requires a.Valid() && (width == VALUE_SIZE || width == PAIR_SIZE) && 0 < count <= SIZE_MAX / width
    modifies a, a.Repr
    ensures a.Valid() && old(a.Repr) <= a.Repr && fresh(a.Repr - old(a.Repr)) && a.Since(old(a.Now()))
    ensures s.Some? ==> a.Shelved(s.value, FirstCapacity(count), width) && |old(a.cells)| <= s.value.index
    ensures a.slots <= old(a.slots) + FirstCapacity(count) && a.Sundry() <= old(a.Sundry())
    ensures s.None? ==> count > MAX_INPUT
  {
    hide Arena.Valid, Earlier, ShelvedIn, AlignUp;
    var cap := if count < PREALLOC_LIMIT then count else PREALLOC_LIMIT;
    a.ChainOwned();
    SlotOctets(cap, width);
    s := a.ReserveSlots(cap, width);
  }

  /** Room for element i: when storage is full, move the elements into storage of twice the size. */
  method RoomFor(a: Arena, s: Storage, cap: nat, i: nat, count: nat, width: nat, ghost tries: nat,
                 ghost start: Snapshot)
    returns (ok: bool, s': Storage, cap': nat)
    requires a.Valid() && (width == VALUE_SIZE || width == PAIR_SIZE) && count <= SIZE_MAX / width
    requires i <= cap && 0 < cap <= count && i < tries <= count
    requires a.Shelved(s, cap, width) && a.Since(start) && |start.cells| <= s.index
    modifies a, a.Repr
    ensures a.Valid() && old(a.Repr) <= a.Repr && fresh(a.Repr - old(a.Repr)) && a.Since(old(a.Now()))
    ensures a.Since(start)
    ensures ok ==> i < cap' <= count && a.Shelved(s', cap', width) && |start.cells| <= s'.index
    ensures ok ==> a.cells[s'.index][..i] == old(a.cells[s.index])[..i]
    ensures ok ==> a.slots + GrowthSlots(count, cap', tries) <= old(a.slots) + GrowthSlots(count, cap, tries)
    ensures !ok ==> a.slots <= old(a.slots) && count > MAX_INPUT
    ensures a.Sundry() <= old(a.Sundry())
  {
    hide Arena.Valid, Earlier, AlignUp;
    ok, s', cap' := true, s, cap;
    ghost var before := a.Now();
    EarlierToItself(before);
    if i == cap {
      var grown := if 2 * cap < count then 2 * cap else count;
      a.ChainOwned();
      SlotOctets(grown, width);
      var p := a.Grow(s, cap, i, grown, width);
      EarlierStill(start, before, a.Now());
      EarlierSlots(start, before);
      if p.None? {
        return false, s, cap;
      }
      s', cap' := p.value, grown;
    }
  }

  /** The array branch: count elements after the head, in storage that grows as they are read. */
  method DecodeArray(a: Arena, b: seq<Octet>, count: nat, depth: nat) returns (ok: bool, values: seq<Value>, used: nat)
    requires a.Valid() && count <= |b| <= SIZE_MAX && count <= SIZE_MAX / VALUE_SIZE && depth <= MAX_DEPTH
    modifies a, a.Repr
    ensures a.Valid() && old(a.Repr) <= a.Repr && fresh(a.Repr - old(a.Repr)) && a.Since(old(a.Now()))
    ensures ok ==> DecItems(b, count, Room(depth) - 1) == Accepted(values, used) && Held(Array(values), a.contents)
    ensures !ok && |b| <= MAX_INPUT ==> DecItems(b, count, Room(depth) - 1).Rejected?
    ensures a.slots <= old(a.slots) + ReservedSlots(count, Attempts(b, count, 1, Room(depth) - 1))
                       + ItemSlots(b, count, Room(depth) - 1)
    ensures ok ==> a.Sundry() <= old(a.Sundry()) + 48 * used
    ensures !ok ==> a.Sundry() <= old(a.Sundry()) + 48 * |b| + 64 * Room(depth)
    decreases Room(depth) - 1, 3
  {
    hide Dec, DecItems, ItemSlots, Attempts, GrowthSlots, Progress, Flat, Held, FirstCapacity, ReservedSlots,
         HoldsValues, Earlier, ShelvedIn, Arena.Valid, Arena.Sundry;
    ghost var room, tries, start := Room(depth) - 1, Attempts(b, count, 1, Room(depth) - 1), a.Now();
    EarlierToItself(start);
    ProgressStart(b, count, room);
    NothingHeld(a.contents);
    if count == 0 {
      ProgressStop(b, 0, room, [], 0);
      return true, [], 0;
    }
    ok, values, used := false, [], 0;
    ReservedFirst(count, tries);
    var first := FirstSlots(a, count, VALUE_SIZE);
    if first.None? {
      return;
    }
    var s := first.value;
    var cap, off: nat, i: nat := FirstCapacity(count), 0, 0;
    ghost var vs: seq<Value> := [];
    NothingHeld(a.contents);
    NothingStored(a.Now(), s, cap, VALUE_SIZE);
    assert b[0..] == b;
    while i < count
      invariant i == |vs| <= cap <= count && 0 < cap && off <= |b|
      invariant a.Valid() && old(a.Repr) <= a.Repr && fresh(a.Repr - old(a.Repr)) && a.Since(start)
      invariant a.Shelved(s, cap, VALUE_SIZE) && |start.cells| <= s.index && HoldsValues(a.cells, s, vs)
      invariant Progress(b, count, room, vs, off) && Held(Array(vs), a.contents)
      invariant a.slots + GrowthSlots(count, cap, tries) + ItemSlots(b[off..], count - i, room)
                <= old(a.slots) + ReservedSlots(count, tries) + ItemSlots(b, count, room)
      invariant a.Sundry() <= old(a.Sundry()) + 48 * off
    {
      var m;
      ghost var v;
      ok, s, cap, m, v := ArrayStep(a, b, s, cap, i, off, count, depth, tries, vs, start);
      if !ok {
        return;
      }
      vs := vs + [v];
      ProgressInside(b, count, room, vs, off + m);
      off := off + m;
      i := i + 1;
    }
    ProgressStop(b, count, room, vs, off);
    values := LoadValues(a.cells, s, count, vs);
    return true, values, off;
  }

  /** Follow the pointer to an array of values. */
  method LoadValues(cells: seq<seq<Cell>>, s: Storage, count: nat, ghost vs: seq<Value>) returns (values: seq<Value>)
    requires HoldsValues(cells, s, vs) && count == |vs|
    ensures values == vs
  {
    var slots := cells[s.index];
    values := seq(count, k requires 0 <= k < count && k < |slots| && slots[k].ValueCell? => slots[k].value);
  }

  /** The body of the element loop: room for element i, then the element, then its slot. */
  method ArrayStep(a: Arena, b: seq<Octet>, s: Storage, cap: nat, i: nat, off: nat, count: nat, depth: nat,
                   ghost tries: nat, ghost vs: seq<Value>, ghost start: Snapshot)
    returns (ok: bool, s': Storage, cap': nat, used: nat, ghost v: Value)
    requires a.Valid() && |b| <= SIZE_MAX && count <= SIZE_MAX / VALUE_SIZE && depth <= MAX_DEPTH
    requires tries == Attempts(b, count, 1, Room(depth) - 1)
    requires i == |vs| < count && i <= cap <= count && 0 < cap && off <= |b|
    requires a.Shelved(s, cap, VALUE_SIZE) && a.Since(start) && |start.cells| <= s.index
    requires HoldsValues(a.cells, s, vs)
    requires Progress(b, count, Room(depth) - 1, vs, off) && Held(Array(vs), a.contents)
    modifies a, a.Repr
    ensures a.Valid() && old(a.Repr) <= a.Repr && fresh(a.Repr - old(a.Repr)) && a.Since(start)
    ensures ok ==> i < cap' <= count && a.Shelved(s', cap', VALUE_SIZE) && |start.cells| <= s'.index
    ensures ok ==> HoldsValues(a.cells, s', vs + [v])
    ensures ok ==> Progress(b, count, Room(depth) - 1, vs + [v], off + used) && off + used <= |b|
    ensures ok ==> Held(Array(vs + [v]), a.contents)
    ensures !ok && |b| <= MAX_INPUT ==> DecItems(b, count, Room(depth) - 1).Rejected?
    ensures ok ==>
            a.slots + GrowthSlots(count, cap', tries) + ItemSlots(b[off + used..], count - i - 1, Room(depth) - 1)
            <= old(a.slots) + GrowthSlots(count, cap, tries) + ItemSlots(b[off..], count - i, Room(depth) - 1)
    ensures !ok ==> a.slots <= old(a.slots) + GrowthSlots(count, cap, tries)
                               + ItemSlots(b[off..], count - i, Room(depth) - 1)
    ensures ok ==> a.Sundry() <= old(a.Sundry()) + 48 * used
    ensures !ok ==> a.Sundry() <= old(a.Sundry()) + 48 * (|b| - off) + 64 * Room(depth)
    decreases Room(depth) - 1, 2
  {
    hide Dec, DecItems, ItemSlots, Attempts, GrowthSlots, Progress, Held, HoldsValues, Earlier, ShelvedIn,
         Arena.Valid, Arena.Sundry;
    ghost var room, entry := Room(depth) - 1, a.Now();
    used, v := 0, Null;
    Trying(b, count, 1, room, vs, off);
    InStorage(entry, s, cap, VALUE_SIZE);
    ok, s', cap' := RoomFor(a, s, cap, i, count, VALUE_SIZE, tries, start);
    if !ok {
      return;
    }
    ghost var roomy := a.Now();
    InStorage(roomy, s', cap', VALUE_SIZE);
    ValuesCopied(entry.cells, roomy.cells, s, s', vs);
    var element;
    ok, element, used := DecodeElement(a, b, off, count, vs, depth);
    EarlierStill(start, roomy, a.Now());
    if !ok {
      return;
    }
    v := element;
    ShelvedLater(roomy, a.Now(), s', cap', VALUE_SIZE);
    EarlierContents(entry, roomy, a.Now());
    OneMoreHeld(vs, v, entry.contents, a.contents);
    ghost var filled := a.cells;
    ValuesStay(roomy.cells, filled, s', vs);
    WriteSlot(a, s', cap', i, VALUE_SIZE, ValueCell(element), start);
    ValueAdded(filled, a.cells, s', vs, v);
    ProgressInside(b, count, room, vs + [v], off + used);
  }

  /** Write one slot of the storage of an array or map. */
  method WriteSlot(a: Arena, s: Storage, cap: nat, i: nat, width: nat, c: Cell, ghost start: Snapshot)
    requires a.Valid() && a.Shelved(s, cap, width) && i < cap && a.Since(start) && |start.cells| <= s.index
    modifies a, a.Repr
    ensures a.Valid() && a.Repr == old(a.Repr) && a.Shelved(s, cap, width) && a.Since(start)
    ensures s.index < |old(a.cells)| && i < |old(a.cells)[s.index]|
    ensures a.cells == old(a.cells)[s.index := old(a.cells)[s.index][i := c]]
    ensures a.contents == old(a.contents) && a.slots == old(a.slots) && a.taken == old(a.taken)
  {
    hide Arena.Valid, Earlier;
    a.StorageOwned(s);
    a.Put(s, cap, i, width, c, start);
  }

  // ----- what the slots hold while the arena grows -----

  lemma EarlierToItself(t: Snapshot)
    ensures Earlier(t, t)
  {
  }

  /** Writing one storage leaves another as it is. */
  lemma ShelvedBeside(t: Snapshot, u: Snapshot, written: Storage, x: seq<Cell>, s: Storage, cap: nat,
                      width: nat)
    requires ShelvedIn(t, s, cap, width) && written.index != s.index
    requires u.regions == t.regions && u.contents == t.contents
    requires written.index < |t.cells| && u.cells == t.cells[written.index := x]
    ensures ShelvedIn(u, s, cap, width) && u.cells[s.index] == t.cells[s.index]
  {
  }

  lemma EarlierSlots(t: Snapshot, u: Snapshot)
    requires Earlier(t, u)
    ensures |t.cells| <= |u.cells|
  {
  }

  lemma EarlierContents(t: Snapshot, u: Snapshot, v: Snapshot)
    requires Earlier(t, u) && Earlier(u, v)
    ensures t.contents <= v.contents
  {
  }

  lemma InStorage(t: Snapshot, s: Storage, cap: nat, width: nat)
    requires ShelvedIn(t, s, cap, width)
    ensures s.index < |t.cells| && |t.cells[s.index]| == cap
  {
  }

  lemma NothingStored(t: Snapshot, s: Storage, cap: nat, width: nat)
    requires ShelvedIn(t, s, cap, width)
    ensures HoldsValues(t.cells, s, []) && HoldsPairs(t.cells, s, [])
  {
  }

  lemma ValuesCopied(before: seq<seq<Cell>>, after: seq<seq<Cell>>, s: Storage, s': Storage, vs: seq<Value>)
    requires HoldsValues(before, s, vs) && s'.index < |after| && |vs| <= |after[s'.index]|
    requires after[s'.index][..|vs|] == before[s.index][..|vs|]
    ensures HoldsValues(after, s', vs)
  {
    forall k | 0 <= k < |vs| ensures after[s'.index][k] == ValueCell(vs[k]) {
      assert after[s'.index][k] == after[s'.index][..|vs|][k] == before[s.index][..|vs|][k];
    }
  }

  lemma ValuesStay(before: seq<seq<Cell>>, after: seq<seq<Cell>>, s: Storage, vs: seq<Value>)
    requires HoldsValues(before, s, vs) && s.index < |after| && after[s.index] == before[s.index]
    ensures HoldsValues(after, s, vs)
  {
  }

  lemma ValueAdded(before: seq<seq<Cell>>, after: seq<seq<Cell>>, s: Storage, vs: seq<Value>, v: Value)
    requires HoldsValues(before, s, vs) && |vs| < |before[s.index]|
    requires after == before[s.index := before[s.index][|vs| := ValueCell(v)]]
    ensures HoldsValues(after, s, vs + [v])
  {
  }

  lemma PairsCopied(before: seq<seq<Cell>>, after: seq<seq<Cell>>, s: Storage, s': Storage, ps: seq<Pair>)
    requires HoldsPairs(before, s, ps) && s'.index < |after| && |ps| <= |after[s'.index]|
    requires after[s'.index][..|ps|] == before[s.index][..|ps|]
    ensures HoldsPairs(after, s', ps)
  {
    forall k | 0 <= k < |ps| ensures after[s'.index][k] == PairCell(ps[k]) {
      assert after[s'.index][k] == after[s'.index][..|ps|][k] == before[s.index][..|ps|][k];
    }
  }

  lemma PairsStay(before: seq<seq<Cell>>, after: seq<seq<Cell>>, s: Storage, ps: seq<Pair>)
    requires HoldsPairs(before, s, ps) && s.index < |after| && after[s.index] == before[s.index]
    ensures HoldsPairs(after, s, ps)
  {
  }

  lemma PairAdded(before: seq<seq<Cell>>, after: seq<seq<Cell>>, s: Storage, ps: seq<Pair>, p: Pair)
    requires HoldsPairs(before, s, ps) && |ps| < |before[s.index]|
    requires after == before[s.index := before[s.index][|ps| := PairCell(p)]]
    ensures HoldsPairs(after, s, ps + [p])
  {
  }

  /** The next of n items, of which vs have been read. */
  method DecodeElement(a: Arena, b: seq<Octet>, off: nat, ghost n: nat, ghost vs: seq<Value>, depth: nat)
    returns (ok: bool, out: Value, used: nat)
    requires a.Valid() && |b| <= SIZE_MAX && depth <= MAX_DEPTH
    requires |vs| < n && Progress(b, n, Room(depth) - 1, vs, off)
    modifies a, a.Repr
    ensures a.Valid() && old(a.Repr) <= a.Repr && fresh(a.Repr - old(a.Repr)) && a.Since(old(a.Now()))
    ensures ok ==> Progress(b, n, Room(depth) - 1, vs + [out], off + used) && Held(out, a.contents)
    ensures !ok && |b| <= MAX_INPUT ==> DecItems(b, n, Room(depth) - 1).Rejected?
    ensures ok ==> a.slots + ItemSlots(b[off + used..], n - |vs| - 1, Room(depth) - 1)
                   <= old(a.slots) + ItemSlots(b[off..], n - |vs|, Room(depth) - 1)
    ensures a.slots <= old(a.slots) + ItemSlots(b[off..], n - |vs|, Room(depth) - 1)
    ensures ok ==> a.Sundry() <= old(a.Sundry()) + 48 * used - 32
    ensures !ok ==> a.Sundry() <= old(a.Sundry()) + 48 * (|b| - off) + 64 * (Room(depth) - 1)
    decreases Room(depth) - 1, 1, 0
  {
    hide Dec, DecItems, ReadableItems, ItemSlots, Slots, Progress, Held, Arena.Valid;
    ghost var room := Room(depth) - 1;
    ProgressInside(b, n, room, vs, off);
    SlotsStep(b, off, n - |vs|, room);
    ProgressStop(b, n, room, vs, off);
    ok, out, used := DecodeValue(a, b[off..], depth + 1);
    if ok {
      ProgressStep(b, n, room, vs, off);
    }
  }

  /** The loop is about to try the element after those already stored. */
  lemma Trying(b: seq<Octet>, count: nat, per: nat, room: nat, vs: seq<Value>, off: nat)
    requires per == 1 || per == 2
    requires Progress(b, per * count, room, vs, off) && |vs| < per * count && |vs| % per == 0
    ensures |vs| / per < Attempts(b, count, per, room)
  {
    hide DecItems, ReadableItems;
  }

  /** The map branch: count keys and values in turn, each in a node of its own. */
  method DecodeMap(a: Arena, b: seq<Octet>, count: nat, depth: nat) returns (ok: bool, out: seq<Pair>, used: nat)
    requires a.Valid() && count <= |b| <= SIZE_MAX && count <= SIZE_MAX / PAIR_SIZE && depth <= MAX_DEPTH
    modifies a, a.Repr
    ensures a.Valid() && old(a.Repr) <= a.Repr && fresh(a.Repr - old(a.Repr)) && a.Since(old(a.Now()))
    ensures ok ==> DecItems(b, 2 * count, Room(depth) - 1) == Accepted(Flat(out), used) && Held(Map(out), a.contents)
    ensures !ok && |b| <= MAX_INPUT ==> DecItems(b, 2 * count, Room(depth) - 1).Rejected?
    ensures a.slots <= old(a.slots) + ReservedSlots(count, Attempts(b, count, 2, Room(depth) - 1))
                       + ItemSlots(b, 2 * count, Room(depth) - 1)
    ensures ok ==> a.Sundry() <= old(a.Sundry()) + 48 * used
    ensures !ok ==> a.Sundry() <= old(a.Sundry()) + 48 * |b| + 64 * Room(depth)
    decreases Room(depth) - 1, 4
  {
    hide Dec, DecItems, ItemSlots, Attempts, GrowthSlots, Progress, Flat, Held, FirstCapacity, ReservedSlots,
         HoldsPairs, Earlier, ShelvedIn, Arena.Valid, Arena.Sundry;
    ghost var room, tries, start := Room(depth) - 1, Attempts(b, count, 2, Room(depth) - 1), a.Now();
    EarlierToItself(start);
    ProgressStart(b, 2 * count, room);
    NothingHeld(a.contents);
    NoPairsFlat();
    if count == 0 {
      ProgressStop(b, 0, room, [], 0);
      return true, [], 0;
    }
    ok, out, used := false, [], 0;
    ReservedFirst(count, tries);
    var first := FirstSlots(a, count, PAIR_SIZE);
    if first.None? {
      return;
    }
    var s := first.value;
    var cap, off: nat, i: nat := FirstCapacity(count), 0, 0;
    ghost var ps: seq<Pair> := [];
    NothingHeld(a.contents);
    NothingStored(a.Now(), s, cap, PAIR_SIZE);
    assert b[0..] == b;
    while i < count
      invariant i == |ps| <= cap <= count && 0 < cap && off <= |b|
      invariant a.Valid() && old(a.Repr) <= a.Repr && fresh(a.Repr - old(a.Repr)) && a.Since(start)
      invariant a.Shelved(s, cap, PAIR_SIZE) && |start.cells| <= s.index && HoldsPairs(a.cells, s, ps)
      invariant Progress(b, 2 * count, room, Flat(ps), off) && Held(Map(ps), a.contents)
      invariant a.slots + GrowthSlots(count, cap, tries) + ItemSlots(b[off..], 2 * count - 2 * i, room)
                <= old(a.slots) + ReservedSlots(count, tries) + ItemSlots(b, 2 * count, room)
      invariant a.Sundry() <= old(a.Sundry()) + 48 * off
    {
      var m;
      ghost var p;
      ok, s, cap, m, p := MapStep(a, b, s, cap, i, off, count, depth, tries, ps, start);
      if !ok {
        return;
      }
      ps := ps + [p];
      ProgressInside(b, 2 * count, room, Flat(ps), off + m);
      off := off + m;
      i := i + 1;
    }
    ProgressStop(b, 2 * count, room, Flat(ps), off);
    out := LoadPairs(a.cells, s, count, ps);
    return true, out, off;
  }

  lemma NoPairsFlat()
    ensures Flat([]) == []
  {
  }

  /** Follow the pointer to an array of pairs. */
  method LoadPairs(cells: seq<seq<Cell>>, s: Storage, count: nat, ghost ps: seq<Pair>) returns (pairs: seq<Pair>)
    requires HoldsPairs(cells, s, ps) && count == |ps|
    ensures pairs == ps
  {
    var slots := cells[s.index];
    pairs := seq(count, k requires 0 <= k < count && k < |slots| && slots[k].PairCell? => slots[k].pair);
  }

  /** The body of the pair loop: room for pair i, then its key and value, then its slot. */
  method MapStep(a: Arena, b: seq<Octet>, s: Storage, cap: nat, i: nat, off: nat, count: nat, depth: nat,
                 ghost tries: nat, ghost ps: seq<Pair>, ghost start: Snapshot)
    returns (ok: bool, s': Storage, cap': nat, used: nat, ghost p: Pair)
    requires a.Valid() && |b| <= SIZE_MAX && count <= SIZE_MAX / PAIR_SIZE && depth <= MAX_DEPTH
    requires tries == Attempts(b, count, 2, Room(depth) - 1)
    requires i == |ps| < count && i <= cap <= count && 0 < cap && off <= |b|
    requires a.Shelved(s, cap, PAIR_SIZE) && a.Since(start) && |start.cells| <= s.index
    requires HoldsPairs(a.cells, s, ps)
    requires Progress(b, 2 * count, Room(depth) - 1, Flat(ps), off) && Held(Map(ps), a.contents)
    modifies a, a.Repr
    ensures a.Valid() && old(a.Repr) <= a.Repr && fresh(a.Repr - old(a.Repr)) && a.Since(start)
    ensures ok ==> i < cap' <= count && a.Shelved(s', cap', PAIR_SIZE) && |start.cells| <= s'.index
    ensures ok ==> HoldsPairs(a.cells, s', ps + [p])
    ensures ok ==> Progress(b, 2 * count, Room(depth) - 1, Flat(ps + [p]), off + used) && off + used <= |b|
    ensures ok ==> Held(Map(ps + [p]), a.contents)
    ensures !ok && |b| <= MAX_INPUT ==> DecItems(b, 2 * count, Room(depth) - 1).Rejected?
    ensures ok ==> a.slots + GrowthSlots(count, cap', tries)
                   + ItemSlots(b[off + used..], 2 * count - 2 * i - 2, Room(depth) - 1)
                   <= old(a.slots) + GrowthSlots(count, cap, tries)
                      + ItemSlots(b[off..], 2 * count - 2 * i, Room(depth) - 1)
    ensures !ok ==> a.slots <= old(a.slots) + GrowthSlots(count, cap, tries)
                               + ItemSlots(b[off..], 2 * count - 2 * i, Room(depth) - 1)
    ensures ok ==> a.Sundry() <= old(a.Sundry()) + 48 * used
    ensures !ok ==> a.Sundry() <= old(a.Sundry()) + 48 * (|b| - off) + 64 * Room(depth)
    decreases Room(depth) - 1, 3
  {
    hide Dec, DecItems, ItemSlots, Attempts, GrowthSlots, Progress, Flat, Held, HoldsPairs, Earlier, ShelvedIn,
         Arena.Valid, Arena.Sundry;
    ghost var room, entry := Room(depth) - 1, a.Now();
    used, p := 0, Pair(Null, Null);
    Trying(b, count, 2, room, Flat(ps), off);
    InStorage(entry, s, cap, PAIR_SIZE);
    ok, s', cap' := RoomFor(a, s, cap, i, count, PAIR_SIZE, tries, start);
    if !ok {
      return;
    }
    ghost var roomy := a.Now();
    InStorage(roomy, s', cap', PAIR_SIZE);
    PairsCopied(entry.cells, roomy.cells, s, s', ps);
    var pair;
    ok, pair, used := DecodePair(a, b, off, 2 * count, Flat(ps), depth);
    EarlierStill(start, roomy, a.Now());
    if !ok {
      return;
    }
    p := pair;
    ShelvedLater(roomy, a.Now(), s', cap', PAIR_SIZE);
    EarlierContents(entry, roomy, a.Now());
    OneMorePairHeld(ps, p, entry.contents, a.contents);
    ghost var filled := a.cells;
    PairsStay(roomy.cells, filled, s', ps);
    WriteSlot(a, s', cap', i, PAIR_SIZE, PairCell(pair), start);
    PairAdded(filled, a.cells, s', ps, p);
    FlatSnoc(ps, p);
    ProgressInside(b, 2 * count, room, Flat(ps + [p]), off + used);
  }

  lemma {:induction false} FlatSnoc(pairs: seq<Pair>, pair: Pair)
    ensures Flat(pairs + [pair]) == Flat(pairs) + [pair.key, pair.val]
  {
    if pairs == [] {
      assert [] + [pair] == [pair];
      assert [pair][1..] == [];
    } else {
      FlatSnoc(pairs[1..], pair);
      assert (pairs + [pair])[1..] == pairs[1..] + [pair];
    }
  }

  /** Nodes for a key and its value, then the two items. n items are expected in all and vs have been read. */
  method DecodePair(a: Arena, b: seq<Octet>, off: nat, ghost n: nat, ghost vs: seq<Value>, depth: nat)
    returns (ok: bool, pair: Pair, used: nat)
    requires a.Valid() && |b| <= SIZE_MAX && depth <= MAX_DEPTH
    requires |vs| + 2 <= n && Progress(b, n, Room(depth) - 1, vs, off)
    modifies a, a.Repr
    ensures a.Valid() && old(a.Repr) <= a.Repr && fresh(a.Repr - old(a.Repr)) && a.Since(old(a.Now()))
    ensures ok ==> Progress(b, n, Room(depth) - 1, vs + [pair.key, pair.val], off + used)
    ensures ok ==> HeldPair(pair, a.contents)
    ensures !ok && |b| <= MAX_INPUT ==> DecItems(b, n, Room(depth) - 1).Rejected?
    ensures ok ==> a.slots + ItemSlots(b[off + used..], n - |vs| - 2, Room(depth) - 1)
                   <= old(a.slots) + ItemSlots(b[off..], n - |vs|, Room(depth) - 1)
    ensures a.slots <= old(a.slots) + ItemSlots(b[off..], n - |vs|, Room(depth) - 1)
    ensures ok ==> a.Sundry() <= old(a.Sundry()) + 48 * used
    ensures !ok ==> a.Sundry() <= old(a.Sundry()) + 48 * (|b| - off) + 64 * Room(depth)
    decreases Room(depth) - 1, 2
  {
    hide Dec, DecItems, ReadableItems, ItemSlots, Slots, Progress, Held, Earlier, ShelvedIn, Arena.Valid;
    ok, pair, used := false, Pair(Null, Null), 0;
    ghost var start := a.Now();
    var k, v := TwoNodes(a);
    var done, taken, key := ElementInNode(a, b, off, n, vs, depth, k, v, start);
    if !done {
      return;
    }
    ghost var held := a.contents;
    var done2, taken2, val := ElementInNode(a, b, off + taken, n, vs + [key], depth, v, k, start);
    if !done2 {
      return;
    }
    HeldLater(key, held, a.contents);
    assert vs + [key] + [val] == vs + [key, val];
    return true, Pair(NodeValue(a.cells, k), NodeValue(a.cells, v)), taken + taken2;
  }

  /** Nodes for a key and its value. */
  method TwoNodes(a: Arena) returns (k: Storage, v: Storage)
    requires a.Valid()
    modifies a, a.Repr
    ensures a.Valid() && old(a.Repr) <= a.Repr && fresh(a.Repr - old(a.Repr)) && a.Since(old(a.Now()))
    ensures a.Shelved(k, 1, VALUE_SIZE) && a.Shelved(v, 1, VALUE_SIZE) && |old(a.cells)| <= k.index < v.index
    ensures a.slots == old(a.slots) && a.Sundry() <= old(a.Sundry()) + 64
  {
    hide Earlier, ShelvedIn, Arena.Valid;
    ghost var start := a.Now();
    k := NewNode(a);
    ghost var middle := a.Now();
    v := NewNode(a);
    EarlierStill(start, middle, a.Now());
    InStorage(middle, k, 1, VALUE_SIZE);
    ShelvedLater(middle, a.Now(), k, 1, VALUE_SIZE);
  }

  /** The next item, decoded into its node; another node keeps what it holds. */
  method ElementInNode(a: Arena, b: seq<Octet>, off: nat, ghost n: nat, ghost vs: seq<Value>, depth: nat, node: Storage,
                       ghost other: Storage, ghost start: Snapshot)
    returns (ok: bool, used: nat, ghost out: Value)
    requires a.Valid() && |b| <= SIZE_MAX && depth <= MAX_DEPTH
    requires |vs| < n && Progress(b, n, Room(depth) - 1, vs, off)
    requires a.Shelved(node, 1, VALUE_SIZE) && a.Shelved(other, 1, VALUE_SIZE) && node.index != other.index
    requires a.Since(start) && |start.cells| <= node.index
    modifies a, a.Repr
    ensures a.Valid() && old(a.Repr) <= a.Repr && fresh(a.Repr - old(a.Repr)) && a.Since(start)
    ensures old(a.contents) <= a.contents
    ensures ok ==> a.Shelved(node, 1, VALUE_SIZE) && a.Shelved(other, 1, VALUE_SIZE)
    ensures ok ==> node.index < |a.cells| && a.cells[node.index] == [ValueCell(out)]
    ensures ok ==> other.index < |a.cells| && other.index < |old(a.cells)|
    ensures ok ==> a.cells[other.index] == old(a.cells[other.index])
    ensures ok ==> Progress(b, n, Room(depth) - 1, vs + [out], off + used) && Held(out, a.contents)
    ensures !ok && |b| <= MAX_INPUT ==> DecItems(b, n, Room(depth) - 1).Rejected?
    ensures ok ==> a.slots + ItemSlots(b[off + used..], n - |vs| - 1, Room(depth) - 1)
                   <= old(a.slots) + ItemSlots(b[off..], n - |vs|, Room(depth) - 1)
    ensures a.slots <= old(a.slots) + ItemSlots(b[off..], n - |vs|, Room(depth) - 1)
    ensures ok ==> a.Sundry() <= old(a.Sundry()) + 48 * used - 32
    ensures !ok ==> a.Sundry() <= old(a.Sundry()) + 48 * (|b| - off) + 64 * (Room(depth) - 1)
    decreases Room(depth) - 1, 1, 1
  {
    hide Dec, DecItems, ReadableItems, ItemSlots, Slots, Progress, Held, Earlier, ShelvedIn, Arena.Valid;
    ghost var entry := a.Now();
    InStorage(entry, other, 1, VALUE_SIZE);
    var v;
    ok, v, used := DecodeElement(a, b, off, n, vs, depth);
    out := v;
    ghost var decoded := a.Now();
    EarlierStill(start, entry, decoded);
    EarlierToItself(entry);
    EarlierContents(entry, entry, decoded);
    if ok {
      ShelvedLater(entry, decoded, node, 1, VALUE_SIZE);
      ShelvedLater(entry, decoded, other, 1, VALUE_SIZE);
      FillNode(a, node, v, start);
      ShelvedBeside(decoded, a.Now(), node, [ValueCell(v)], other, 1, VALUE_SIZE);
      InStorage(a.Now(), other, 1, VALUE_SIZE);
    }
  }

  lemma ProgressInside(b: seq<Octet>, n: nat, room: nat, vs: seq<Value>, off: nat)
    requires Progress(b, n, room, vs, off)
    ensures off <= |b| && |vs| <= n
  {
  }

  /** Decode a payload: one item, nothing after it, and bounded reservations whatever the input. */
  method DecodePayload(b: seq<Octet>) returns (a: Arena, out: Option<Value>)
    requires |b| <= SIZE_MAX
    ensures out.Some? ==> out == Decode(b)
    ensures |b| <= MAX_INPUT ==> out == Decode(b)
    ensures out.Some? ==> a.Valid() && Held(out.value, a.contents) && fresh(a) && fresh(a.Repr)
    ensures out.None? ==> forall block :: block in a.chain ==> !block.live
    ensures a.slots <= 4 * |b| + 65 * 1024
    ensures a.taken <= 176 * |b| + 65 * 32832 + 32
    ensures Capacities(a.chain) <= 2 * a.taken + BLOCK_SIZE
  {
    hide Dec, Slots, Held, Arena.Valid, AlignUp;
    NodeOctets();
    a := new Arena();
    ghost var empty := a.Now();
    var root := NewNode(a);
    ghost var start := a.Now();
    var ok, v, consumed := DecodeValue(a, b, 0);
    PayloadSlots(b);
    a.ChainBounded();
    if !ok || consumed != |b| {
      a.ChainOwned();
      a.Free();
      return a, None;
    }
    ShelvedLater(start, a.Now(), root, 1, VALUE_SIZE);
    EarlierStill(empty, start, a.Now());
    FillNode(a, root, v, empty);
    return a, Some(NodeValue(a.cells, root));
  }
}
