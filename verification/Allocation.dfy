/** Bounded allocation: what decoding may reserve, on accepted and on rejected input. */
module Allocation {
  import opened Octets
  import opened Cbor
  import opened Decoding
  import opened Growth

  /** How many of the n items at the start of b can be read. */
  ghost function ReadableItems(b: seq<Octet>, n: nat, room: nat): (k: nat)
    ensures k <= n
    ensures k == n <==> DecItems(b, n, room).Accepted?
    decreases n
  {
    if n == 0 || Dec(b, room).Rejected? then 0
    else 1 + ReadableItems(b[Dec(b, room).used..], n - 1, room)
  }

  /** Elements of `per` items each that the loop starts on: all of them, or one more than it completes. */
  ghost function Attempts(b: seq<Octet>, count: nat, per: nat, room: nat): (k: nat)
    requires per == 1 || per == 2
    ensures k <= count
  {
    var done := ReadableItems(b, per * count, room) / per;
    assert done <= count by { DivideBound(ReadableItems(b, per * count, room), per, count); }
    if done < count then done + 1 else count
  }

  lemma DivideBound(k: nat, per: nat, count: nat)
    requires (per == 1 || per == 2) && k <= per * count
    ensures k / per <= count
  {
  }

  /** The array and map slots reserved while the item at the start of b is read, successfully or not. */
  ghost function Slots(b: seq<Octet>, room: nat): nat
    decreases room, 0
  {
    if room == 0 || b == [] || ReadArg(b).None? then 0
    else
      var major, a := b[0] / 32, ReadArg(b).value;
      var rest := b[a.size..];
      if major == 4 then
        if a.value > |rest| || a.value > SIZE_MAX / VALUE_SIZE then 0
        else ReservedSlots(a.value, Attempts(rest, a.value, 1, room - 1)) + ItemSlots(rest, a.value, room - 1)
      else if major == 5 then
        if a.value > |rest| || a.value > SIZE_MAX / PAIR_SIZE then 0
        else ReservedSlots(a.value, Attempts(rest, a.value, 2, room - 1)) + ItemSlots(rest, 2 * a.value, room - 1)
      else if major == 6 then Slots(rest, room - 1)
      else 0
  }

  /** Slots reserved by up to n items, the first that cannot be read included. */
  ghost function ItemSlots(b: seq<Octet>, n: nat, room: nat): nat
    decreases room, 1, n
  {
    if n == 0 then 0
    else
      match Dec(b, room)
      case Rejected => Slots(b, room)
      case Accepted(_, m) => Slots(b, room) + ItemSlots(b[m..], n - 1, room)
  }

  /** One accepted item reserves at most four slots for each of its octets but the first. */
  lemma {:induction false} AcceptedSlots(b: seq<Octet>, room: nat)
    requires Dec(b, room).Accepted?
    ensures Slots(b, room) <= 4 * (Dec(b, room).used - 1)
    decreases room, 0
  {
    hide DecItems, ReservedSlots, ItemSlots, ReadArg, DecSimple;
    var major, a := b[0] / 32, ReadArg(b).value;
    var rest := b[a.size..];
    if major == 4 {
      AcceptedItemSlots(rest, a.value, room - 1);
      CompleteAttempts(rest, a.value, 1, room - 1);
      ReservationPaid(a.value, a.value);
    } else if major == 5 {
      AcceptedItemSlots(rest, 2 * a.value, room - 1);
      CompleteAttempts(rest, a.value, 2, room - 1);
      ReservationPaid(a.value, a.value);
    } else if major == 6 {
      AcceptedSlots(rest, room - 1);
    }
  }

  lemma CompleteAttempts(b: seq<Octet>, count: nat, per: nat, room: nat)
    requires per == 1 || per == 2
    requires DecItems(b, per * count, room).Accepted?
    ensures Attempts(b, count, per, room) == count
  {
    hide DecItems, ReadableItems;
  }

  lemma {:induction false} AcceptedItemSlots(b: seq<Octet>, n: nat, room: nat)
    requires DecItems(b, n, room).Accepted?
    ensures ItemSlots(b, n, room) <= 4 * (DecItems(b, n, room).used - n)
    decreases room, 1, n
  {
    hide Dec, Slots;
    if n > 0 {
      AcceptedSlots(b, room);
      AcceptedItemSlots(b[Dec(b, room).used..], n - 1, room);
    }
  }

  /** On any input: four slots per octet, and one initial reservation per nesting level still allowed. */
  lemma {:induction false} SlotsBound(b: seq<Octet>, room: nat)
    ensures Slots(b, room) <= 4 * |b| + room * PREALLOC_LIMIT
    decreases room, 2
  {
    hide DecItems, ReservedSlots, ItemSlots, ReadArg, DecSimple, Attempts;
    if Dec(b, room).Accepted? {
      AcceptedSlots(b, room);
    } else if room > 0 && b != [] && ReadArg(b).Some? {
      var major, a := b[0] / 32, ReadArg(b).value;
      var rest := b[a.size..];
      if major == 4 && a.value <= |rest| && a.value <= SIZE_MAX / VALUE_SIZE {
        RejectedItemSlots(rest, a.value, 1, room - 1);
      } else if major == 5 && a.value <= |rest| && a.value <= SIZE_MAX / PAIR_SIZE {
        RejectedItemSlots(rest, a.value, 2, room - 1);
      } else if major == 6 {
        SlotsBound(rest, room - 1);
      }
    }
  }

  /** A list that cannot be read to its end: its own storage and everything its items reserve. */
  lemma RejectedItemSlots(b: seq<Octet>, count: nat, per: nat, room: nat)
    requires per == 1 || per == 2
    requires DecItems(b, per * count, room).Rejected?
    ensures ReservedSlots(count, Attempts(b, count, per, room)) + ItemSlots(b, per * count, room)
            <= 4 * |b| + (room + 1) * PREALLOC_LIMIT
    decreases room, 4
  {
    hide DecItems, ReservedSlots, ItemSlots, ReadableItems;
    var k := ReadableItems(b, per * count, room);
    var attempts := Attempts(b, count, per, room);
    assert attempts == k / per + 1;
    ReservationPaid(count, attempts);
    PartialItemSlots(b, per * count, room);
  }

  lemma {:induction false} PartialItemSlots(b: seq<Octet>, n: nat, room: nat)
    requires DecItems(b, n, room).Rejected?
    ensures ItemSlots(b, n, room) + 4 * ReadableItems(b, n, room) <= 4 * |b| + room * PREALLOC_LIMIT
    decreases room, 3, n
  {
    hide Dec, Slots;
    SlotsBound(b, room);
    if Dec(b, room).Accepted? {
      var m := Dec(b, room).used;
      AcceptedSlots(b, room);
      PartialItemSlots(b[m..], n - 1, room);
    }
  }

  /** Bounded allocation for a whole payload. */
  lemma PayloadSlots(b: seq<Octet>)
    ensures Slots(b, ROOT_ROOM) <= 4 * |b| + 65 * 1024
  {
    SlotsBound(b, ROOT_ROOM);
  }
}
