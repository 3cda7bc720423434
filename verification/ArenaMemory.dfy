/** The bump arena that holds everything a decode produces. */
module ArenaMemory {
  import opened Octets
  import opened Cbor

  const ALIGNMENT: nat := 16
  const BLOCK_SIZE: nat := 4096
  const BLOCK_HEADER: nat := 24 // sizeof(csilc_arena_block) where pointers have 64 bits

  /** No larger request can be met: its rounded size and a block header would not fit size_t. */
  const LARGEST_REQUEST: nat := SIZE_MAX - 31

  /** Inputs up to this length never make an arena request overflow. */
  const MAX_INPUT: nat := SIZE_MAX / 64

  /** Round up in size_t arithmetic, which wraps. */
  function AlignUp(size: nat): (aligned: nat)
    requires size <= SIZE_MAX
    ensures aligned % ALIGNMENT == 0
  {
    var sum := (size + 15) % (SIZE_MAX + 1);
    sum - sum % 16
  }

  /** A result smaller than the size is a sure and the only sign that rounding up wrapped. */
  lemma WrapIsNoticed(size: nat)
    requires size <= SIZE_MAX
    ensures AlignUp(size) < size <==> size + 15 > SIZE_MAX
    ensures size + 15 <= SIZE_MAX ==> size <= AlignUp(size) < size + 16
  {
  }

  /** A request is too large exactly when rounding it up wraps or leaves no room for a block header. */
  lemma RequestFits(size: nat)
    requires size <= SIZE_MAX
    ensures size > LARGEST_REQUEST <==> AlignUp(size) < size || AlignUp(size) > SIZE_MAX - BLOCK_HEADER
  {
    WrapIsNoticed(size);
  }

  /** Once released a block answers no request: every method needs it to be live. */
  class Block {
    var next: Block?
    var used: nat
    const data: array<Octet>
    ghost var live: bool

    constructor (cap: nat, next: Block?)
      ensures this.next == next && used == 0 && live && fresh(data) && data.Length == cap
    {
      this.next := next;
      used := 0;
      data := new Octet[cap];
      live := true;
    }

    method Next() returns (n: Block?)
      requires live
      ensures n == next
    {
      n := next;
    }

    method Available() returns (n: nat)
      requires live && used <= data.Length
      ensures n == data.Length - used
    {
      n := data.Length - used;
    }

    method Used() returns (n: nat)
      requires live
      ensures n == used
    {
      n := used;
    }

    method Take(size: nat)
      requires live && used + size <= data.Length
      modifies this
      ensures used == old(used) + size && next == old(next) && live
    {
      used := used + size;
    }

    /** memcpy into the middle of the block. */
    method Store(offset: nat, src: seq<Octet>)
      requires live && offset + |src| <= data.Length
      modifies data
      ensures data[offset..offset + |src|] == src
      ensures forall k :: 0 <= k < offset || offset + |src| <= k < data.Length ==> data[k] == old(data[k])
    {
      forall k | 0 <= k < |src| {
        data[offset + k] := src[k];
      }
    }

    method Load(offset: nat, size: nat) returns (s: seq<Octet>)
      requires live && offset + size <= data.Length
      ensures s == data[offset..offset + size]
    {
      s := data[offset..offset + size];
    }

    /** free: a block may be released once. */
    method Release()
      requires live
      modifies this
      ensures !live && next == old(next) && used == old(used)
    {
      live := false;
    }
  }

  /** A slot of storage lies inside it. */
  lemma SlotInside(i: nat, cap: nat, width: nat)
    requires i < cap
    ensures 0 <= i * width && i * width + width <= cap * width
  {
    assert (i + 1) * width <= cap * width;
  }

  lemma NodeOctets()
    ensures AlignUp(VALUE_SIZE) == 32
  {
  }

  /** Storage handed out by the arena. */
  datatype Region = Region(block: Block, offset: nat, size: nat)

  /** A slot of decoded storage. What a pointer in it leads to is part of the value. */
  datatype Cell = Blank | ValueCell(value: Value) | PairCell(pair: Pair)

  /** Storage for slots: its region, and its place among the regions handed out. */
  datatype Storage = Storage(region: Region, index: nat)

  /** What an arena had handed out and stored at one time. */
  datatype Snapshot = Snapshot(regions: seq<Region>, contents: seq<seq<Octet>>, cells: seq<seq<Cell>>)

  ghost predicate Earlier(t: Snapshot, u: Snapshot)
  {
    t.regions <= u.regions && t.contents <= u.contents && t.cells <= u.cells
  }

  lemma EarlierStill(t: Snapshot, u: Snapshot, v: Snapshot)
    requires Earlier(t, u) && Earlier(u, v)
    ensures Earlier(t, v)
  {
  }

  /** The storage has cap slots of the given width. */
  ghost predicate ShelvedIn(t: Snapshot, s: Storage, cap: nat, width: nat)
  {
    && s.index < |t.regions| && s.index < |t.contents| && s.index < |t.cells|
    && t.regions[s.index] == s.region && t.contents[s.index] == [] && |t.cells[s.index]| == cap
    && s.region.size == cap * width
  }

  /** Storage stays, with what its slots hold, while the arena only grows. */
  lemma ShelvedLater(t: Snapshot, u: Snapshot, s: Storage, cap: nat, width: nat)
    requires ShelvedIn(t, s, cap, width) && Earlier(t, u)
    ensures ShelvedIn(u, s, cap, width) && u.cells[s.index] == t.cells[s.index]
  {
  }

  /** What malloc was asked for to hold the data of some blocks. */
  ghost function Capacities(blocks: seq<Block>): nat
  {
    if blocks == [] then 0 else blocks[0].data.Length + Capacities(blocks[1..])
  }

  class Arena {
    var head: Block?
    ghost var chain: seq<Block>     // the blocks from head on
    ghost var regions: seq<Region>  // everything handed out, oldest first
    ghost var contents: seq<seq<Octet>> // what has been stored at the start of each region
    var cells: seq<seq<Cell>>       // the slots of each region, none for a string
    ghost var slots: nat            // array and map slots reserved so far
    ghost var taken: nat            // octets handed out so far, rounding included
    ghost var Repr: set<object>

    ghost predicate Owned()
      reads this`chain, this`Repr
    {
      forall i :: 0 <= i < |chain| ==> chain[i] in Repr && chain[i].data in Repr
    }

    ghost predicate Linked()
      requires Owned()
      reads this`head, this`chain, this`Repr, Repr
    {
      && (head == if chain == [] then null else chain[0])
      && (forall i :: 0 <= i < |chain| ==> Follows(i))
      && (forall i, j :: 0 <= i < j < |chain| ==> chain[i] != chain[j] && chain[i].data != chain[j].data)
    }

    /** Block i of the chain points to block i + 1, the last block to none. */
    ghost predicate Follows(i: nat)
      requires i < |chain|
      reads this`chain, chain[i]
    {
      chain[i].next == if i + 1 < |chain| then chain[i + 1] else null
    }

    ghost predicate BlocksOk()
      requires Owned()
      reads this`chain, this`Repr, Repr
    {
      forall i :: 0 <= i < |chain| ==> BlockOk(chain[i])
    }

    ghost predicate BlockOk(b: Block)
      reads b
    {
      b.live && b.used <= b.data.Length <= SIZE_MAX - BLOCK_HEADER && b.used % ALIGNMENT == 0
    }

    /** A region lies inside the used part of its block and starts on the alignment. */
    ghost predicate Inside(r: Region)
      reads this`chain, this`Repr, Repr
    {
      && r.block in chain && r.block in Repr && r.offset % ALIGNMENT == 0
      && r.offset + r.size <= r.block.used <= r.block.data.Length
    }

    /** Of two regions in one block the older ends before the newer begins. */
    ghost predicate RegionsOk()
      reads this`chain, this`regions, this`Repr, Repr
    {
      && (forall i :: 0 <= i < |regions| ==> Inside(regions[i]))
      && forall i, j :: 0 <= i < j < |regions| ==> Apart(regions[i], regions[j])
    }

    /** Region i still starts with what was stored there. */
    ghost predicate Intact(i: nat)
      requires i < |regions| && i < |contents|
      reads this`regions, this`contents, this`Repr, Repr
    {
      var r := regions[i];
      && r.block in Repr && r.block.data in Repr && r.offset + r.size <= r.block.data.Length
      && |contents[i]| <= r.size && Read(r)[..|contents[i]|] == contents[i]
    }

    ghost predicate ContentsOk()
      reads this`regions, this`contents, this`cells, this`Repr, Repr
    {
      |contents| == |regions| == |cells| && forall i :: 0 <= i < |regions| ==> Intact(i)
    }

    /** What the first block has left. */
    ghost function HeadRoom(): int
      reads this`chain, chain
    {
      if chain == [] then 0 else chain[0].data.Length - chain[0].used
    }

    /** The blocks hold at most twice what was handed out, not counting what the first one has left. */
    ghost predicate Frugal()
      reads this`chain, this`taken, chain
    {
      Capacities(chain) <= 2 * taken + HeadRoom() && HeadRoom() <= BLOCK_SIZE
    }

    ghost predicate Sound()
      reads this`head, this`chain, this`regions, this`contents, this`cells, this`Repr, Repr
    {
      this !in Repr && Owned() && Linked() && BlocksOk() && RegionsOk() && ContentsOk()
    }

    ghost function Now(): Snapshot
      reads this`regions, this`contents, this`cells
    {
      Snapshot(regions, contents, cells)
    }

    /** Everything handed out or stored by then is still there: the arena has only grown. */
    ghost predicate Since(t: Snapshot)
      reads this`regions, this`contents, this`cells
    {
      Earlier(t, Now())
    }

    ghost predicate Shelved(s: Storage, cap: nat, width: nat)
      reads this`regions, this`contents, this`cells
    {
      ShelvedIn(Now(), s, cap, width)
    }

    ghost predicate Valid()
      reads this, Repr, chain
    {
      Sound() && Frugal()
    }

    /** The arena may change every block of its chain. */
    lemma ChainOwned()
      requires Valid()
      ensures forall b :: b in chain ==> b in Repr
      ensures forall i :: 0 <= i < |chain| ==> chain[i] in Repr
    {
    }

    /** The octets a region holds. */
    ghost function Read(r: Region): (s: seq<Octet>)
      reads r.block.data
      requires r.offset + r.size <= r.block.data.Length
      ensures |s| == r.size
    {
      r.block.data[r.offset..r.offset + r.size]
    }

    constructor ()
      ensures Valid() && chain == [] && regions == [] && contents == [] && cells == []
      ensures slots == 0 && taken == 0 && Repr == {}
    {
      head := null;
      chain := [];
      regions := [];
      contents := [];
      cells := [];
      slots := 0;
      taken := 0;
      Repr := {};
    }

    /** Put an empty block of the given capacity in front of the chain. */
    method NewBlock(cap: nat)
      requires Sound() && cap <= SIZE_MAX - BLOCK_HEADER
      modifies this`head, this`chain, this`Repr
      ensures Sound()
      ensures chain != [] && chain[1..] == old(chain) && fresh(chain[0]) && fresh(chain[0].data)
      ensures chain[0].used == 0 && chain[0].data.Length == cap
      ensures Repr == old(Repr) + {chain[0], chain[0].data}
    {
      var b := new Block(cap, head);
      head := b;
      chain := [b] + chain;
      Repr := Repr + {b, b.data};
      assert forall i {:trigger chain[i]} :: 1 <= i < |chain| ==> chain[i] == old(chain)[i - 1];
      forall i | 0 <= i < |regions| ensures Inside(regions[i]) {
        assert old(Inside(regions[i]));
        assert regions[i].block in old(chain);
      }
      forall i | 0 <= i < |chain| ensures Follows(i) {
        if i > 0 { assert old(Follows(i - 1)); }
      }
      assert Linked();
      forall i {:trigger chain[i]} | 0 <= i < |chain| ensures BlockOk(chain[i]) {
        if i > 0 { assert old(BlockOk(chain[i - 1])); }
      }
      assert RegionsOk();
      forall i | 0 <= i < |regions| ensures Intact(i) {
        assert old(Intact(i));
      }
    }

    /** Hand out the next octets of the first block. */
    method Bump(size: nat, aligned: nat) returns (r: Region)
      requires Sound() && chain != []
      requires size <= aligned <= chain[0].data.Length - chain[0].used && aligned % ALIGNMENT == 0
      modifies this`regions, this`contents, this`cells, this`taken, chain[0]
      ensures Sound() && regions == old(regions) + [r] && contents == old(contents) + [[]]
      ensures cells == old(cells) + [[]]
      ensures taken == old(taken) + aligned
      ensures r == Region(chain[0], old(chain[0].used), size)
      ensures chain[0].used == old(chain[0].used) + aligned
    {
      var offset := Advance(aligned);
      r := Region(head, offset, size);
      Enlist(r, aligned);
    }

    /** Use up octets of the first block; everything handed out ends before them. */
    method Advance(aligned: nat) returns (offset: nat)
      requires Sound() && chain != [] && aligned % ALIGNMENT == 0
      requires aligned <= chain[0].data.Length - chain[0].used
      modifies chain[0]
      ensures Sound() && head == chain[0] && offset == old(chain[0].used)
      ensures offset % ALIGNMENT == 0 && chain[0].used == offset + aligned <= chain[0].data.Length
      ensures forall i :: 0 <= i < |regions| && regions[i].block == chain[0] ==>
                regions[i].offset + regions[i].size <= offset
    {
      offset := head.Used();
      head.Take(aligned);
      forall i | 0 <= i < |chain| ensures Follows(i) {
        assert old(Follows(i));
      }
      forall i | 0 <= i < |chain| ensures BlockOk(chain[i]) {
        assert old(BlockOk(chain[i]));
      }
      forall i | 0 <= i < |regions| ensures Inside(regions[i]) {
        assert old(Inside(regions[i]));
      }
      forall i | 0 <= i < |regions| ensures Intact(i) {
        assert old(Intact(i));
      }
    }

    /** Put a region on record after all others. */
    method Enlist(r: Region, aligned: nat)
      requires Sound() && r.block in chain && r.block in Repr && r.offset % ALIGNMENT == 0
      requires r.offset + r.size <= r.block.used <= r.block.data.Length
      requires forall i :: 0 <= i < |regions| && regions[i].block == r.block ==>
                 regions[i].offset + regions[i].size <= r.offset
      modifies this`regions, this`contents, this`cells, this`taken
      ensures Sound() && regions == old(regions) + [r] && contents == old(contents) + [[]]
      ensures cells == old(cells) + [[]] && taken == old(taken) + aligned
    {
      taken := taken + aligned;
      regions := regions + [r];
      contents := contents + [[]];
      cells := cells + [[]];
      forall i | 0 <= i < |regions| ensures Inside(regions[i]) {
        if i < |old(regions)| { assert old(Inside(regions[i])); }
      }
      forall i, j | 0 <= i < j < |regions| ensures Apart(regions[i], regions[j]) {
        if j < |old(regions)| { assert old(Apart(regions[i], regions[j])); }
      }
      forall i | 0 <= i < |regions| ensures Intact(i) {
        if i < |old(regions)| { assert old(Intact(i)); }
      }
    }

    /** Hand out size octets from the first block, or from a new one when they do not fit. */
    method Alloc(size: nat) returns (r: Option<Region>)
      requires Valid() && size <= SIZE_MAX
      modifies this, chain
      ensures Valid() && slots == old(slots)
      ensures old(Repr) <= Repr && fresh(Repr - old(Repr))
      ensures r.None? <==> size > LARGEST_REQUEST
      ensures r.None? ==>
                && regions == old(regions) && contents == old(contents) && cells == old(cells)
                && chain == old(chain) && taken == old(taken)
      ensures r.Some? ==>
                && r.value.size == size && regions == old(regions) + [r.value] && contents == old(contents) + [[]]
                && cells == old(cells) + [[]] && taken == old(taken) + AlignUp(size)
      ensures forall b :: b in old(chain) ==> b in chain && old(b.used) <= b.used
    {
      hide AlignUp, Sound;
      RequestFits(size);
      HeadOfChain();
      var aligned := AlignUp(size);
      if aligned < size {
        return None;
      }
      var room: nat := 0;
      if head != null {
        room := head.Available();
      }
      if head == null || room < aligned {
        var cap := if aligned > BLOCK_SIZE then aligned else BLOCK_SIZE;
        if cap > SIZE_MAX - BLOCK_HEADER {
          return None;
        }
        NewBlock(cap);
      }
      var region := Bump(size, aligned);
      return Some(region);
    }

    /** The request made for a string: one octet more for the NUL of a text, and never nothing. */
    ghost function CopySize(src: seq<Octet>, asText: bool): nat
    {
      if asText then |src| + 1 else Max(|src|, 1)
    }

    lemma NewestInside()
      requires Valid() && regions != []
      ensures var r := regions[|regions| - 1]; Inside(r) && r.block.data in Repr
      ensures |contents| == |regions|
    {
    }

    /** Copy src into the arena, NUL-terminated when it is text. Everything handed out before keeps its octets. */
    method Copy(src: seq<Octet>, asText: bool) returns (r: Option<Region>)
      requires Valid() && |src| <= SIZE_MAX
      modifies this, Repr
      ensures Valid() && slots == old(slots)
      ensures old(Repr) <= Repr && fresh(Repr - old(Repr))
      ensures r.None? <==> CopySize(src, asText) > LARGEST_REQUEST
      ensures r.None? ==>
                regions == old(regions) && contents == old(contents) && cells == old(cells) && taken == old(taken)
      ensures r.Some? ==> cells == old(cells) + [[]] && taken == old(taken) + AlignUp(CopySize(src, asText))
      ensures r.Some? ==> contents == old(contents) + [if asText then src + [0] else src]
      ensures r.Some? ==>
                && regions == old(regions) + [r.value] && Inside(r.value)
                && r.value.size == CopySize(src, asText)
                && Read(r.value)[..|src|] == src
                && (asText ==> Read(r.value)[|src|] == 0)
      ensures forall i :: 0 <= i < |old(regions)| ==> Read(regions[i]) == old(Read(regions[i]))
    {
      hide AlignUp, Valid;
      if asText && |src| == SIZE_MAX {
        return None;
      }
      var total := if asText then |src| + 1 else if |src| > 0 then |src| else 1;
      ChainOwned();
      r := Alloc(total);
      if r.None? {
        return;
      }
      NewestInside();
      Fill(r.value, src, asText);
    }

    method Load(r: Region, size: nat) returns (s: seq<Octet>)
      requires Valid() && Inside(r) && size <= r.size
      ensures s == Read(r)[..size]
    {
      assert Read(r)[..size] == r.block.data[r.offset..r.offset + size];
      s := r.block.Load(r.offset, size);
    }

    /** Octets handed out beyond the 32 that one array or map slot can take with its share of rounding. */
    ghost function Sundry(): int
      reads this`taken, this`slots
    {
      taken - 32 * slots
    }

    /** Two regions handed out at different times share no octet of storage. */
    lemma StorageApart(i: nat, j: nat)
      requires Valid() && i < j < |regions|
      ensures regions[i].block.data == regions[j].block.data ==>
                regions[i].offset + regions[i].size <= regions[j].offset
    {
      assert Inside(regions[i]) && Inside(regions[j]);
      assert Apart(regions[i], regions[j]);
    }

    /** Write into the newest region. */
    method Fill(p: Region, src: seq<Octet>, asText: bool)
      requires Valid() && regions != [] && p == regions[|regions| - 1]
      requires |src| <= p.size && (asText ==> |src| < p.size)
      modifies this`contents, p.block.data
      ensures Valid() && Inside(p) && Read(p)[..|src|] == src && (asText ==> Read(p)[|src|] == 0)
      ensures contents == old(contents)[..|regions| - 1] + [if asText then src + [0] else src]
      ensures forall i :: 0 <= i < |regions| - 1 ==> Read(regions[i]) == old(Read(regions[i]))
    {
      assert Inside(p);
      var all := if asText then src + [0] else src;
      Overwrite(p, all);
      Note(all);
      assert all[..|src|] == src;
      assert Read(p)[..|all|][..|src|] == Read(p)[..|src|];
    }

    /** The first n regions still start with what was stored there. */
    ghost predicate IntactBelow(n: nat)
      requires n <= |regions| == |contents|
      reads this, Repr
    {
      forall i :: 0 <= i < n ==> Intact(i)
    }

    /** Writing into the newest region leaves all older ones as they are. */
    method Overwrite(p: Region, all: seq<Octet>)
      requires Sound() && regions != [] && p == regions[|regions| - 1] && |all| <= p.size
      requires p.offset + p.size <= p.block.data.Length
      modifies p.block.data
      ensures this !in Repr && Owned() && Linked() && BlocksOk() && RegionsOk()
      ensures |contents| == |regions| == |cells|
      ensures IntactBelow(|regions| - 1) && Read(p)[..|all|] == all
      ensures forall i :: 0 <= i < |regions| - 1 ==> Read(regions[i]) == old(Read(regions[i]))
    {
      ghost var newest := |regions| - 1;
      p.block.Store(p.offset, all);
      assert Read(p)[..|all|] == all;
      forall i | 0 <= i < newest ensures Read(regions[i]) == old(Read(regions[i])) && Intact(i) {
        assert old(Intact(i)) && Inside(regions[i]) && Inside(regions[newest]);
        assert Apart(regions[i], regions[newest]);
        if regions[i].block != p.block { assert regions[i].block.data != p.block.data; }
      }
    }

    /** The newest region now starts with what was just written. */
    ghost method Note(all: seq<Octet>)
      requires this !in Repr && Owned() && Linked() && BlocksOk() && RegionsOk()
      requires |contents| == |regions| == |cells| > 0
      requires IntactBelow(|regions| - 1)
      requires var p := regions[|regions| - 1]; Inside(p) && |all| <= p.size && Read(p)[..|all|] == all
      modifies this`contents
      ensures Sound() && contents == old(contents)[..|regions| - 1] + [all]
    {
      contents := contents[..|regions| - 1] + [all];
      assert Owned() && Linked() && BlocksOk() && RegionsOk();
      forall i | 0 <= i < |regions| ensures Intact(i) {
        if i < |regions| - 1 { assert old(Intact(i)); }
      }
    }

    ghost method CountSlots(count: nat)
      requires Valid()
      modifies this`slots
      ensures Valid() && slots == old(slots) + count
    {
      slots := slots + count;
    }

    /** The arena may write its storage. */
    lemma StorageOwned(s: Storage)
      requires Valid() && s.index < |regions| && regions[s.index] == s.region
      ensures s.region.block.data in Repr
    {
      assert Inside(regions[s.index]);
    }

    /** Every region has its contents and its slots. */
    lemma Parallel()
      requires Valid()
      ensures |contents| == |regions| == |cells|
    {
    }

    /** Lay out the newest region as count blank slots. */
    method LayOut(count: nat)
      requires Valid() && regions != []
      modifies this`cells
      ensures Valid() && cells == old(cells)[..|regions| - 1] + [seq(count, _ => Blank)]
    {
      cells := cells[..|cells| - 1] + [seq(count, _ => Blank)];
    }

    /** Storage for one value by itself: a map key, a map value, a tag's content or the root. */
    method Node() returns (r: Option<Storage>)
      requires Valid()
      modifies this, chain
      ensures Valid() && old(Repr) <= Repr && fresh(Repr - old(Repr)) && slots == old(slots)
      ensures Since(old(Now()))
      ensures r.Some? && Shelved(r.value, 1, VALUE_SIZE) && r.value.index == |old(cells)|
      ensures taken == old(taken) + 32
    {
      NodeOctets();
      hide Valid, AlignUp;
      Parallel();
      var region := Alloc(VALUE_SIZE);
      LayOut(1);
      return Some(Storage(region.value, |cells| - 1));
    }

    /** Reserve storage for count slots of an array or map. */
    method ReserveSlots(count: nat, width: nat) returns (r: Option<Storage>)
      requires Valid() && count * width <= SIZE_MAX
      modifies this, chain
      ensures Valid() && old(Repr) <= Repr && fresh(Repr - old(Repr))
      ensures Since(old(Now()))
      ensures r.None? <==> count * width > LARGEST_REQUEST
      ensures r.None? ==> slots == old(slots) && taken == old(taken)
      ensures r.Some? ==> slots == old(slots) + count && taken == old(taken) + AlignUp(count * width)
      ensures r.Some? ==> Shelved(r.value, count, width) && r.value.index == |old(cells)|
    {
      hide Valid, AlignUp;
      Parallel();
      var region := Alloc(count * width);
      if region.None? {
        return None;
      }
      LayOut(count);
      CountSlots(count);
      return Some(Storage(region.value, |cells| - 1));
    }

    /** A bump arena cannot resize in place: new storage for count slots, with the used ones copied over. */
    method Grow(s: Storage, cap: nat, used: nat, count: nat, width: nat) returns (r: Option<Storage>)
      requires Valid() && count * width <= SIZE_MAX && Shelved(s, cap, width) && used <= cap && used <= count
      modifies this, chain
      ensures Valid() && old(Repr) <= Repr && fresh(Repr - old(Repr))
      ensures Since(old(Now()))
      ensures r.None? <==> count * width > LARGEST_REQUEST
      ensures r.None? ==> slots == old(slots) && taken == old(taken)
      ensures r.Some? ==> slots == old(slots) + count && taken == old(taken) + AlignUp(count * width)
      ensures r.Some? ==> Shelved(r.value, count, width) && r.value.index == |old(cells)|
      ensures r.Some? ==> cells[r.value.index][..used] == old(cells[s.index])[..used]
    {
      hide Valid, AlignUp;
      r := ReserveSlots(count, width);
      if r.Some? {
        CopyCells(s.index, r.value.index, used);
      }
    }

    method CopyCells(from: nat, to: nat, used: nat)
      requires Valid() && from < to < |cells| && used <= |cells[from]| && used <= |cells[to]|
      modifies this`cells
      ensures Valid() && |cells[to]| == |old(cells)[to]|
      ensures cells == old(cells)[to := cells[to]] && cells[to][..used] == cells[from][..used]
    {
      cells := cells[to := cells[from][..used] + cells[to][used..]];
    }

    /** Write a slot of any storage, however much was handed out since: every other region keeps its octets, and every
        other slot what it holds. The octets of the slot itself are not modelled. */
    method Put(s: Storage, cap: nat, i: nat, width: nat, c: Cell, ghost t: Snapshot)
      requires Valid() && Shelved(s, cap, width) && i < cap && Since(t) && |t.cells| <= s.index
      modifies this`cells, s.region.block.data
      ensures Valid() && Shelved(s, cap, width) && Since(t)
      ensures cells == old(cells)[s.index := old(cells)[s.index][i := c]]
      ensures forall k :: 0 <= k < |regions| && k != s.index ==> Read(regions[k]) == old(Read(regions[k]))
    {
      hide Valid;
      SlotInside(i, cap, width);
      var image := new Octet[width];
      OverwriteSlot(s, i * width, image[..]);
      UpdateBeyond(t.cells, cells, s.index, cells[s.index][i := c]);
      SetCell(s.index, i, c);
    }

    method SetCell(index: nat, i: nat, c: Cell)
      requires Valid() && index < |cells| && i < |cells[index]|
      modifies this`cells
      ensures Valid() && cells == old(cells)[index := old(cells)[index][i := c]]
    {
      cells := cells[index := cells[index][i := c]];
    }

    /** Writing inside a region that holds slots leaves every other region as it is. */
    method OverwriteSlot(s: Storage, at: nat, image: seq<Octet>)
      requires Valid() && s.index < |regions| && regions[s.index] == s.region && contents[s.index] == []
      requires at + |image| <= s.region.size
      modifies s.region.block.data
      ensures Valid()
      ensures forall k :: 0 <= k < |regions| && k != s.index ==> Read(regions[k]) == old(Read(regions[k]))
    {
      var r := s.region;
      assert Inside(r);
      r.block.Store(r.offset + at, image);
      forall k | 0 <= k < |regions| && k != s.index
        ensures Read(regions[k]) == old(Read(regions[k])) && Intact(k)
      {
        assert old(Intact(k)) && Inside(regions[k]) && Inside(r);
        if k < s.index {
          assert Apart(regions[k], r);
        } else {
          assert Apart(r, regions[k]);
        }
        if regions[k].block != r.block { assert regions[k].block.data != r.block.data; }
      }
      assert old(Intact(s.index));
      assert Intact(s.index);
    }

    /** Release every block, each exactly once, following next before its block is released. */
    method Free()
      requires Valid()
      modifies chain
      ensures forall b :: b in chain ==> !b.live
    {
      var blk := head;
      ghost var k := 0;
      HeadOfChain();
      while blk != null
        invariant k <= |chain|
        invariant blk == if k < |chain| then chain[k] else null
        invariant forall i :: 0 <= i < |chain| ==> Follows(i)
        invariant forall i :: 0 <= i < |chain| ==> chain[i].live == (i >= k)
        decreases |chain| - k
      {
        assert Follows(k);
        var next := blk.Next();
        label Before:
        blk.Release();
        forall i | 0 <= i < |chain| ensures Follows(i) {
          assert old@Before(Follows(i));
        }
        blk := next;
        k := k + 1;
      }
    }

    /** Nothing stored is longer than the address space. */
    lemma ContentsFit()
      requires Valid()
      ensures forall c :: c in contents ==> |c| <= SIZE_MAX
    {
      forall i | 0 <= i < |contents| ensures |contents[i]| <= SIZE_MAX {
        assert Intact(i) && Inside(regions[i]);
      }
    }

    /** Everything malloc was asked for, against what was handed out. */
    lemma ChainBounded()
      requires Valid()
      ensures Capacities(chain) <= 2 * taken + BLOCK_SIZE
    {
    }

    lemma HeadOfChain()
      requires Valid()
      ensures head == if chain == [] then null else chain[0]
      ensures chain != [] ==>
                && chain[0].live && chain[0].used <= chain[0].data.Length <= SIZE_MAX - BLOCK_HEADER
                && chain[0] in Repr && chain[0].used % ALIGNMENT == 0
    {
    }
  }

  ghost predicate Apart(older: Region, newer: Region)
  {
    older.block == newer.block ==> older.offset + older.size <= newer.offset
  }
}
