/** The count checks made before an array or map is read only reject what would be rejected anyway. */
module EarlyChecks {
  import opened Octets
  import opened Utf8
  import opened Cbor
  import opened Decoding

  /** The decoder without its two checks on declared counts. */
  ghost function LateDec(b: seq<Octet>, room: nat): (r: Parse<Value>)
    ensures r.Accepted? ==> 1 <= r.used <= |b|
    decreases room, 0
  {
    if room == 0 || b == [] || ReadArg(b).None? then Rejected
    else
      var major, low, a := b[0] / 32, b[0] % 32, ReadArg(b).value;
      if major == 0 then Accepted(UInt(a.value), a.size)
      else if major == 1 then
        if a.value > INT64_MAX then Rejected else Accepted(NInt(-1 - a.value), a.size)
      else if major == 2 || major == 3 then
        if a.value > |b| - a.size then Rejected
        else
          var t := b[a.size..a.size + a.value];
          if major == 2 then Accepted(Bytes(t), a.size + a.value)
          else if IsUtf8(t) then Accepted(Text(t), a.size + a.value)
          else Rejected
      else if major == 4 then
        match LateDecItems(b[a.size..], a.value, room - 1)
        case Rejected => Rejected
        case Accepted(vs, m) => Accepted(Array(vs), a.size + m)
      else if major == 5 then
        match LateDecItems(b[a.size..], 2 * a.value, room - 1)
        case Rejected => Rejected
        case Accepted(vs, m) => Accepted(Map(PairUp(vs)), a.size + m)
      else if major == 6 then
        match LateDec(b[a.size..], room - 1)
        case Rejected => Rejected
        case Accepted(v, m) => Accepted(Tag(a.value, v), a.size + m)
      else DecSimple(low, a)
  }

  ghost function LateDecItems(b: seq<Octet>, n: nat, room: nat): (r: Parse<seq<Value>>)
    ensures r.Accepted? ==> n <= r.used <= |b| && |r.value| == n
    decreases room, 1, n
  {
    if n == 0 then Accepted([], 0)
    else
      match LateDec(b, room)
      case Rejected => Rejected
      case Accepted(v, m) =>
        match LateDecItems(b[m..], n - 1, room)
        case Rejected => Rejected
        case Accepted(vs, k) => Accepted([v] + vs, m + k)
  }

  /** Every element takes an octet, so a count beyond the rest of the input cannot be met. */
  lemma {:induction false} ChecksLoseNothing(b: seq<Octet>, room: nat)
    requires |b| <= SIZE_MAX / VALUE_SIZE
    ensures LateDec(b, room) == Dec(b, room)
    decreases room, 0
  {
    hide DecItems, LateDecItems, ReadArg, DecSimple, PairUp, IsUtf8;
    if room > 0 && b != [] && ReadArg(b).Some? {
      var major, a := b[0] / 32, ReadArg(b).value;
      var rest := b[a.size..];
      if major == 4 {
        ItemChecksLoseNothing(rest, a.value, room - 1);
      } else if major == 5 {
        ItemChecksLoseNothing(rest, 2 * a.value, room - 1);
      } else if major == 6 {
        ChecksLoseNothing(rest, room - 1);
      }
    }
  }

  lemma {:induction false} ItemChecksLoseNothing(b: seq<Octet>, n: nat, room: nat)
    requires |b| <= SIZE_MAX / VALUE_SIZE
    ensures LateDecItems(b, n, room) == DecItems(b, n, room)
    decreases room, 1, n
  {
    hide Dec, LateDec;
    if n > 0 {
      ChecksLoseNothing(b, room);
      if Dec(b, room).Accepted? {
        ItemChecksLoseNothing(b[Dec(b, room).used..], n - 1, room);
      }
    }
  }
}
