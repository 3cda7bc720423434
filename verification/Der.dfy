/** The DER elements of an X.509 certificate and the walk to its SubjectPublicKeyInfo. */
module Der {
  import opened Octets

  /** An element found in a byte string: its tag, where it starts, where its content starts and where it ends. */
  datatype Element = Element(tag: Octet, start: nat, content: nat, end: nat)

  // ----- elements as they are written (X.690, sections 8.1.2 to 8.1.4) -----

  /** The two definite forms of the length octets; the long form says how many octets hold the length. */
  datatype LengthForm = Short | Long(octets: nat)

  /** A single-octet tag, a length form and a content. */
  datatype Tlv = Tlv(tag: Octet, form: LengthForm, content: seq<Octet>)

  predicate FormHolds(form: LengthForm, length: nat)
  {
    match form
    case Short => length < 128
    case Long(k) => 1 <= k <= 4 && length < Limit(k)
  }

  function LengthOctets(form: LengthForm, length: nat): seq<Octet>
    requires FormHolds(form, length)
  {
    match form
    case Short => [length]
    case Long(k) => [0x80 + k] + BigEndian(length, k)
  }

  predicate Writable(t: Tlv)
  {
    FormHolds(t.form, |t.content|)
  }

  function Head(tag: Octet, form: LengthForm, length: nat): (s: seq<Octet>)
    requires FormHolds(form, length)
    ensures |s| == 2 + if form.Short? then 0 else form.octets
  {
    [tag] + LengthOctets(form, length)
  }

  function HeadOf(t: Tlv): (s: seq<Octet>)
    requires Writable(t)
    ensures |s| >= 2
  {
    Head(t.tag, t.form, |t.content|)
  }

  function Bytes(t: Tlv): (s: seq<Octet>)
    requires Writable(t)
    ensures |s| == |HeadOf(t)| + |t.content|
  {
    HeadOf(t) + t.content
  }

  // ----- reading one element -----

  /** The element whose content is the given length, if it fits the input. */
  function Fitting(b: seq<Octet>, start: nat, content: nat, length: nat): Option<Element>
    requires start < |b|
  {
    if content + length <= |b| then Some(Element(b[start], start, content, content + length)) else None
  }

  /** An element read starts at the offset, is at least two octets long, ends inside the input, and its content is
      its tail. */
  function ReadElement(b: seq<Octet>, offset: int): (r: Option<Element>)
    ensures r.Some? ==>
              var e := r.value;
              0 <= offset == e.start && e.start + 2 <= e.content <= e.end <= |b| && e.tag == b[offset]
  {
    if offset < 0 || offset + 2 > |b| then None
    else
      var first := b[offset + 1];
      if first < 0x80 then Fitting(b, offset, offset + 2, first)
      else
        var k := first - 0x80;
        if k == 0 || k > 4 || offset + 2 + k > |b| then None
        else Fitting(b, offset, offset + 2 + k, FromBigEndian(b[offset + 2..offset + 2 + k]))
  }

  /** The octet loop that accumulates a long-form length. */
  method ElementAt(b: seq<Octet>, offset: int) returns (r: Option<Element>)
    ensures r == ReadElement(b, offset)
  {
    if !(offset >= 0 && offset + 2 <= |b|) {
      return None;
    }
    var tag, firstLength := b[offset], b[offset + 1];
    var cursor := offset + 2;
    var length: nat;
    if firstLength < 0x80 {
      length := firstLength;
    } else {
      var lengthBytes := firstLength - 0x80;
      if !(lengthBytes > 0 && lengthBytes <= 4 && cursor + lengthBytes <= |b|) {
        return None;
      }
      var value: nat := 0;
      for i := 0 to lengthBytes
        invariant value == FromBigEndian(b[cursor..cursor + i])
      {
        assert b[cursor..cursor + i + 1][..i] == b[cursor..cursor + i];
        value := value * 256 + b[cursor + i];
      }
      cursor := cursor + lengthBytes;
      length := value;
    }
    if !(cursor + length <= |b|) {
      return None;
    }
    return Some(Element(tag, offset, cursor, cursor + length));
  }

  /** The element's octets, taken apart again. */
  function TlvAt(b: seq<Octet>, e: Element): Tlv
    requires e.start + 2 <= e.content <= e.end <= |b|
  {
    Tlv(e.tag, if e.content == e.start + 2 then Short else Long(e.content - e.start - 2), b[e.content..e.end])
  }

  /** The string s stands in b at the offset. */
  predicate Stands(b: seq<Octet>, offset: nat, s: seq<Octet>)
  {
    offset + |s| <= |b| && b[offset..offset + |s|] == s
  }

  lemma StandsParts(b: seq<Octet>, offset: nat, x: seq<Octet>, y: seq<Octet>)
    ensures Stands(b, offset, x + y) <==> Stands(b, offset, x) && Stands(b, offset + |x|, y)
  {
    if offset + |x| + |y| <= |b| {
      var m, e := offset + |x|, offset + |x| + |y|;
      assert b[offset..e] == b[offset..m] + b[m..e];
      assert (x + y)[..|x|] == x && (x + y)[|x|..] == y;
      assert b[offset..e][..|x|] == b[offset..m] && b[offset..e][|x|..] == b[m..e];
    }
  }

  lemma AllStands(b: seq<Octet>)
    ensures Stands(b, 0, b)
  {
  }

  lemma LongHeadStands(b: seq<Octet>, offset: nat, k: nat)
    requires 1 <= k <= 4 && offset + 2 + k <= |b| && b[offset + 1] == 0x80 + k
    ensures var length := FromBigEndian(b[offset + 2..offset + 2 + k]);
            length < Limit(k) && Stands(b, offset, Head(b[offset], Long(k), length))
  {
    hide BigEndian, FromBigEndian, Limit;
    var lengthOctets := b[offset + 2..offset + 2 + k];
    FromBigEndianRoundTrip(lengthOctets);
    assert b[offset..offset + 2 + k] == [b[offset]] + ([b[offset + 1]] + lengthOctets);
  }

  lemma ShortHeadStands(b: seq<Octet>, offset: nat)
    requires offset + 2 <= |b| && b[offset + 1] < 128
    ensures Stands(b, offset, Head(b[offset], Short, b[offset + 1]))
  {
    assert b[offset..offset + 2] == [b[offset]] + [b[offset + 1]];
  }

  lemma HeadSound(b: seq<Octet>, offset: int)
    requires ReadElement(b, offset).Some?
    ensures var e := ReadElement(b, offset).value;
            var t := TlvAt(b, e);
            && FormHolds(t.form, e.end - e.content)
            && |Head(e.tag, t.form, e.end - e.content)| == e.content - e.start
            && Stands(b, offset, Head(e.tag, t.form, e.end - e.content))
  {
    hide BigEndian, FromBigEndian, Limit, Head, Stands;
    if b[offset + 1] >= 0x80 {
      LongHeadStands(b, offset, b[offset + 1] - 0x80);
    } else {
      ShortHeadStands(b, offset);
    }
  }

  /** Everything that is read was written: the element's octets are the encoding of its tag, form and content. */
  lemma ElementSound(b: seq<Octet>, offset: int)
    requires ReadElement(b, offset).Some?
    ensures var e := ReadElement(b, offset).value;
            Writable(TlvAt(b, e)) && b[e.start..e.end] == Bytes(TlvAt(b, e))
  {
    hide ReadElement, FormHolds, Head;
    var e := ReadElement(b, offset).value;
    var t := TlvAt(b, e);
    HeadSound(b, offset);
    StandsParts(b, offset, Head(t.tag, t.form, |t.content|), t.content);
  }

  lemma HeadOctets(tag: Octet, form: LengthForm, length: nat)
    requires FormHolds(form, length)
    ensures var head := Head(tag, form, length);
            && head[0] == tag
            && head[1] == (if form.Short? then length else 0x80 + form.octets)
            && head[2..] == (if form.Short? then [] else BigEndian(length, form.octets))
  {
    hide BigEndian, Limit;
  }

  /** A head whose announced content fits the input is read back, wherever it stands. */
  lemma HeadReadBack(b: seq<Octet>, offset: nat, tag: Octet, form: LengthForm, length: nat)
    requires FormHolds(form, length) && Stands(b, offset, Head(tag, form, length))
    requires offset + |Head(tag, form, length)| + length <= |b|
    ensures var content := offset + |Head(tag, form, length)|;
            ReadElement(b, offset) == Some(Element(tag, offset, content, content + length))
  {
    hide BigEndian, FromBigEndian, Limit, Head;
    var head := Head(tag, form, length);
    HeadOctets(tag, form, length);
    assert head[0] == b[offset] && head[1] == b[offset + 1];
    if form.Long? {
      var k := form.octets;
      BigEndianRoundTrip(length, k);
      assert b[offset + 2..offset + 2 + k] == head[2..];
    }
  }

  /** Everything that is written is read: any tag and content, in either form, wherever it stands and whatever
      follows it. */
  lemma ElementComplete(b: seq<Octet>, offset: nat, t: Tlv)
    requires Writable(t) && Stands(b, offset, Bytes(t))
    ensures ReadElement(b, offset) == Some(Element(t.tag, offset, offset + |HeadOf(t)|, offset + |Bytes(t)|))
    ensures b[offset..offset + |Bytes(t)|] == Bytes(t)
    ensures b[offset + |HeadOf(t)|..offset + |Bytes(t)|] == t.content
  {
    hide ReadElement, FormHolds, Head;
    var head := Head(t.tag, t.form, |t.content|);
    StandsParts(b, offset, head, t.content);
    HeadReadBack(b, offset, t.tag, t.form, |t.content|);
  }

  // ----- walking the certificate (RFC 5280, section 4.1) -----

  const SEQUENCE: Octet := 0x30
  const VERSION: Octet := 0xa0

  /** The offset after n consecutive elements. */
  function Skip(b: seq<Octet>, offset: nat, n: nat): (r: Option<nat>)
    ensures r.Some? ==> offset + 2 * n <= r.value
    decreases n
  {
    if n == 0 then Some(offset)
    else
      var e :- ReadElement(b, offset);
      Skip(b, e.end, n - 1)
  }

  /** The offset after the explicit version, if one stands here. */
  function AfterVersion(b: seq<Octet>, offset: nat): nat
  {
    match ReadElement(b, offset)
    case Some(e) => if e.tag == VERSION then e.end else offset
    case None => offset
  }

  /** The full encoding of the SubjectPublicKeyInfo that the walk finds. */
  function Walk(b: seq<Octet>): Option<seq<Octet>>
  {
    var root :- ReadElement(b, 0);
    if root.tag != SEQUENCE then None
    else
      var tbs :- ReadElement(b, root.content);
      if tbs.tag != SEQUENCE then None
      else
        var offset :- Skip(b, AfterVersion(b, tbs.content), 5);
        var info :- ReadElement(b, offset);
        if info.tag != SEQUENCE then None else Some(b[info.start..info.end])
  }

  lemma {:induction false} SkipOne(b: seq<Octet>, offset: nat, n: nat)
    ensures Skip(b, offset, n + 1) ==
            match Skip(b, offset, n)
            case None => None
            case Some(o) => if ReadElement(b, o).Some? then Some(ReadElement(b, o).value.end) else None
    decreases n
  {
    hide ReadElement;
    if n > 0 && ReadElement(b, offset).Some? {
      SkipOne(b, ReadElement(b, offset).value.end, n - 1);
    }
  }

  method SubjectPublicKeyInfo(b: seq<Octet>) returns (r: Option<seq<Octet>>)
    ensures r == Walk(b)
  {
    hide ReadElement;
    var root := ElementAt(b, 0);
    if root.None? || root.value.tag != SEQUENCE {
      return None;
    }
    var tbs := ElementAt(b, root.value.content);
    if tbs.None? || tbs.value.tag != SEQUENCE {
      return None;
    }
    var offset := tbs.value.content;
    var version := ElementAt(b, offset);
    if version.Some? && version.value.tag == VERSION {
      offset := version.value.end;
    }
    ghost var first := offset;
    for i := 0 to 5
      invariant Skip(b, first, i) == Some(offset)
    {
      SkipOne(b, first, i);
      var field := ElementAt(b, offset);
      if field.None? {
        SkipMore(b, first, i + 1, 5);
        return None;
      }
      offset := field.value.end;
    }
    var info := ElementAt(b, offset);
    if info.None? || info.value.tag != SEQUENCE {
      return None;
    }
    return Some(b[info.value.start..info.value.end]);
  }

  /** Once an element is missing, so are all after it. */
  lemma {:induction false} SkipMore(b: seq<Octet>, offset: nat, m: nat, n: nat)
    requires m <= n && Skip(b, offset, m).None?
    ensures Skip(b, offset, n).None?
    decreases n - m
  {
    hide Skip;
    if m < n {
      SkipOne(b, offset, m);
      SkipMore(b, offset, m + 1, n);
    }
  }

  // ----- certificates as RFC 5280 lays them out, their tags as X.690 builds them -----

  datatype TagClass = Universal | Application | ContextSpecific | Private

  /** The identifier octet of X.690, section 8.1.2: bits 8 and 7 are the class, bit 6 says constructed, the others are
      the tag number. */
  function Identifier(group: TagClass, constructed: bool, number: nat): Octet
    requires number < 31
  {
    var high := match group
                case Universal => 0
                case Application => 1
                case ContextSpecific => 2
                case Private => 3;
    64 * high + (if constructed then 32 else 0) + number
  }

  /** SEQUENCE is number 16 of the universal class and always constructed. */
  predicate IsSequence(t: Tlv)
  {
    t.tag == Identifier(Universal, true, 16)
  }

  /** An explicit version is wrapped in the context-specific tag [0]. */
  predicate IsVersion(t: Tlv)
  {
    t.tag == Identifier(ContextSpecific, true, 0)
  }

  /** A certificate: the version and the five fields before the key, the key, and whatever follows it,
      in the TBSCertificate, in the Certificate and after it. */
  datatype Certificate = Certificate(
    version: Option<Tlv>,
    fields: seq<Tlv>,
    info: Tlv,
    extensions: seq<Octet>,
    signature: seq<Octet>,
    trailing: seq<Octet>,
    tbsForm: LengthForm,
    rootForm: LengthForm)

  predicate AllWritable(ts: seq<Tlv>)
  {
    forall i :: 0 <= i < |ts| ==> Writable(ts[i])
  }

  function Concat(ts: seq<Tlv>): seq<Octet>
    requires AllWritable(ts)
  {
    if ts == [] then [] else Bytes(ts[0]) + Concat(ts[1..])
  }

  /** The elements before the key. */
  function Leading(c: Certificate): seq<Tlv>
  {
    (if c.version.Some? then [c.version.value] else []) + c.fields
  }

  function TbsContent(c: Certificate): seq<Octet>
    requires AllWritable(Leading(c)) && Writable(c.info)
  {
    Concat(Leading(c)) + (Bytes(c.info) + c.extensions)
  }

  function Tbs(c: Certificate): Tlv
    requires AllWritable(Leading(c)) && Writable(c.info)
  {
    Tlv(Identifier(Universal, true, 16), c.tbsForm, TbsContent(c))
  }

  function Root(c: Certificate): Tlv
    requires AllWritable(Leading(c)) && Writable(c.info) && Writable(Tbs(c))
  {
    Tlv(Identifier(Universal, true, 16), c.rootForm, Bytes(Tbs(c)) + c.signature)
  }

  /** The layout of RFC 5280: an explicit version is tagged [0]; when it is left out, what stands first is the
      serial number, an INTEGER, which is not. */
  predicate Layout(c: Certificate)
  {
    && |c.fields| == 5
    && AllWritable(Leading(c)) && Writable(c.info) && Writable(Tbs(c)) && Writable(Root(c))
    && if c.version.Some? then IsVersion(c.version.value) else !IsVersion(c.fields[0])
  }

  function CertificateBytes(c: Certificate): seq<Octet>
    requires Layout(c)
  {
    Bytes(Root(c)) + c.trailing
  }

  /** Consecutive elements are skipped one by one. */
  lemma {:induction false} SkipConcat(b: seq<Octet>, offset: nat, ts: seq<Tlv>)
    requires AllWritable(ts) && Stands(b, offset, Concat(ts))
    ensures Skip(b, offset, |ts|) == Some(offset + |Concat(ts)|)
    decreases |ts|
  {
    hide ReadElement, Bytes, Stands;
    if ts != [] {
      var rest := ts[1..];
      assert AllWritable(rest);
      StandsParts(b, offset, Bytes(ts[0]), Concat(rest));
      ElementComplete(b, offset, ts[0]);
      SkipConcat(b, offset + |Bytes(ts[0])|, rest);
    }
  }

  /** What the walk needs of its input: two opened SEQUENCEs, then an explicit version or none, five whole elements
      and the key. Nothing asks the elements to end inside the SEQUENCE that announced them. */
  predicate Parts(b: seq<Octet>, root: Tlv, tbs: Tlv, leading: seq<Tlv>, info: Tlv)
  {
    && Writable(root) && IsSequence(root) && Stands(b, 0, Bytes(root))
    && Writable(tbs) && IsSequence(tbs) && Stands(b, |HeadOf(root)|, Bytes(tbs))
    && AllWritable(leading) && Writable(info)
    && (|leading| == 5 || |leading| == 6) && (IsVersion(leading[0]) <==> |leading| == 6)
    && Stands(b, |HeadOf(root)| + |HeadOf(tbs)|, Concat(leading))
    && Stands(b, |HeadOf(root)| + |HeadOf(tbs)| + |Concat(leading)|, Bytes(info))
  }

  /** The walk passes the version, if there is one, and the five fields. */
  lemma LeadingSkipped(b: seq<Octet>, offset: nat, leading: seq<Tlv>)
    requires AllWritable(leading) && Stands(b, offset, Concat(leading))
    requires (|leading| == 5 || |leading| == 6) && (IsVersion(leading[0]) <==> |leading| == 6)
    ensures Skip(b, AfterVersion(b, offset), 5) == Some(offset + |Concat(leading)|)
  {
    hide ReadElement, Skip, HeadOf, Bytes, Stands, Writable;
    var rest := leading[1..];
    assert AllWritable(rest);
    StandsParts(b, offset, Bytes(leading[0]), Concat(rest));
    ElementComplete(b, offset, leading[0]);
    if |leading| == 6 {
      SkipConcat(b, offset + |Bytes(leading[0])|, rest);
    } else {
      SkipConcat(b, offset, leading);
    }
  }

  lemma WalkComplete(b: seq<Octet>, root: Tlv, tbs: Tlv, leading: seq<Tlv>, info: Tlv)
    requires Parts(b, root, tbs, leading, info)
    ensures Walk(b) == if IsSequence(info) then Some(Bytes(info)) else None
  {
    hide ReadElement, Skip, AfterVersion, HeadOf, Bytes, Concat, Writable, AllWritable, Stands;
    ElementComplete(b, 0, root);
    ElementComplete(b, |HeadOf(root)|, tbs);
    LeadingSkipped(b, |HeadOf(root)| + |HeadOf(tbs)|, leading);
    ElementComplete(b, |HeadOf(root)| + |HeadOf(tbs)| + |Concat(leading)|, info);
  }

  /** What stands at the start of an element's content. */
  lemma ContentStands(b: seq<Octet>, offset: nat, t: Tlv, s: seq<Octet>, more: seq<Octet>)
    requires Writable(t) && Stands(b, offset, Bytes(t)) && t.content == s + more
    ensures Stands(b, offset + |HeadOf(t)|, s)
    ensures Stands(b, offset + |HeadOf(t)| + |s|, more)
  {
    hide FormHolds, Head, Stands;
    StandsParts(b, offset, HeadOf(t), t.content);
    StandsParts(b, offset + |HeadOf(t)|, s, more);
  }

  lemma Nesting(c: Certificate)
    requires Layout(c)
    ensures CertificateBytes(c) == Bytes(Root(c)) + c.trailing
    ensures Writable(Root(c)) && IsSequence(Root(c)) && Root(c).content == Bytes(Tbs(c)) + c.signature
    ensures Writable(Tbs(c)) && IsSequence(Tbs(c))
    ensures Tbs(c).content == Concat(Leading(c)) + (Bytes(c.info) + c.extensions)
    ensures Writable(c.info) && AllWritable(Leading(c))
    ensures (|Leading(c)| == 5 || |Leading(c)| == 6) && (IsVersion(Leading(c)[0]) <==> |Leading(c)| == 6)
  {
    hide Bytes, Concat, Writable;
  }

  /** For every certificate so laid out, whatever its fields hold, the walk returns exactly the encoding of the
      SubjectPublicKeyInfo when that is a SEQUENCE, and nothing otherwise. */
  lemma WalkFindsTheKey(c: Certificate)
    requires Layout(c)
    ensures Walk(CertificateBytes(c)) == if IsSequence(c.info) then Some(Bytes(c.info)) else None
  {
    hide HeadOf, Bytes, Concat, Leading, Writable, AllWritable, TbsContent, Root, Tbs, CertificateBytes, Stands, Walk;
    var b, root, tbs := CertificateBytes(c), Root(c), Tbs(c);
    var leading := Leading(c);
    hide Layout;
    Nesting(c);
    AllStands(b);
    StandsParts(b, 0, Bytes(root), c.trailing);
    ContentStands(b, 0, root, Bytes(tbs), c.signature);
    ContentStands(b, |HeadOf(root)|, tbs, Concat(leading), Bytes(c.info) + c.extensions);
    StandsParts(b, |HeadOf(root)| + |HeadOf(tbs)| + |Concat(leading)|, Bytes(c.info), c.extensions);
    WalkComplete(b, root, tbs, leading, c.info);
  }

  // ----- what a successful walk means -----

  /** The element octets that a walk passes, in order. */
  lemma {:induction false} SkipSound(b: seq<Octet>, offset: nat, n: nat) returns (ts: seq<Tlv>)
    requires offset <= |b| && Skip(b, offset, n).Some?
    ensures |ts| == n && AllWritable(ts)
    ensures Skip(b, offset, n).value <= |b| && b[offset..Skip(b, offset, n).value] == Concat(ts)
    decreases n
  {
    hide ReadElement, Bytes;
    if n == 0 {
      ts := [];
    } else {
      ElementSound(b, offset);
      var e := ReadElement(b, offset).value;
      var rest := SkipSound(b, e.end, n - 1);
      ts := [TlvAt(b, e)] + rest;
      var end := Skip(b, offset, n).value;
      SkipGrows(b, e.end, n - 1);
      assert b[offset..end] == b[offset..e.end] + b[e.end..end];
      assert ts[1..] == rest;
    }
  }

  lemma SkipGrows(b: seq<Octet>, offset: nat, n: nat)
    ensures Skip(b, offset, n).Some? ==> offset <= Skip(b, offset, n).value
  {
  }

  /** Whatever the walk returns is the key of an input with these parts. */
  lemma WalkSound(b: seq<Octet>) returns (root: Tlv, tbs: Tlv, leading: seq<Tlv>, info: Tlv)
    requires Walk(b).Some?
    ensures Parts(b, root, tbs, leading, info)
    ensures IsSequence(info) && Walk(b) == Some(Bytes(info))
  {
    hide ReadElement, AfterVersion, Bytes, HeadOf, Writable, AllWritable, Concat, Skip, Stands, TlvAt;
    var r := ReadElement(b, 0).value;
    var t := ReadElement(b, r.content).value;
    root := ElementStands(b, 0);
    tbs := ElementStands(b, r.content);
    var start := AfterVersion(b, t.content);
    var offset := Skip(b, start, 5).value;
    var fields := FieldsStand(b, t.content);
    leading := LeadingSound(b, t.content, fields);
    info := ElementStands(b, offset);
    SliceOf(b, offset, ReadElement(b, offset).value.end, Bytes(info));
  }

  lemma SliceOf(b: seq<Octet>, lo: nat, hi: nat, s: seq<Octet>)
    requires Stands(b, lo, s) && hi == lo + |s|
    ensures hi <= |b| && b[lo..hi] == s
  {
  }

  /** An element that is read, put together again. */
  lemma ElementStands(b: seq<Octet>, offset: nat) returns (t: Tlv)
    requires ReadElement(b, offset).Some?
    ensures var e := ReadElement(b, offset).value;
            && Writable(t) && t.tag == e.tag && Stands(b, offset, Bytes(t))
            && offset + |HeadOf(t)| == e.content && offset + |Bytes(t)| == e.end
  {
    hide ReadElement, FormHolds, Head;
    HeadSound(b, offset);
    ElementSound(b, offset);
    t := TlvAt(b, ReadElement(b, offset).value);
  }

  /** The five fields after the version, put together again. */
  lemma FieldsStand(b: seq<Octet>, offset: nat) returns (fields: seq<Tlv>)
    requires offset <= |b| && Skip(b, AfterVersion(b, offset), 5).Some?
    ensures |fields| == 5 && AllWritable(fields) && Stands(b, AfterVersion(b, offset), Concat(fields))
    ensures Skip(b, AfterVersion(b, offset), 5).value == AfterVersion(b, offset) + |Concat(fields)|
  {
    hide ReadElement, Skip, Concat, AllWritable;
    var start := AfterVersion(b, offset);
    SkipGrows(b, start, 5);
    fields := SkipSound(b, start, 5);
  }

  /** The fields that the walk passed, with the version before them if it passed one. */
  lemma LeadingSound(b: seq<Octet>, offset: nat, fields: seq<Tlv>) returns (leading: seq<Tlv>)
    requires offset <= |b| && AllWritable(fields) && |fields| == 5
    requires Stands(b, AfterVersion(b, offset), Concat(fields))
    ensures AllWritable(leading) && (|leading| == 5 || |leading| == 6)
    ensures IsVersion(leading[0]) <==> |leading| == 6
    ensures Stands(b, offset, Concat(leading))
    ensures offset + |Concat(leading)| == AfterVersion(b, offset) + |Concat(fields)|
  {
    hide ReadElement, Bytes, Writable, Stands;
    if AfterVersion(b, offset) == offset {
      leading := fields;
      StandsParts(b, offset, Bytes(fields[0]), Concat(fields[1..]));
      ElementComplete(b, offset, fields[0]);
    } else {
      var e := ReadElement(b, offset).value;
      ElementSound(b, offset);
      var version := TlvAt(b, e);
      leading := [version] + fields;
      assert leading[1..] == fields;
      assert Stands(b, offset, Bytes(version)) by { StandsWhole(b, e.start, e.end); }
      StandsParts(b, offset, Bytes(version), Concat(fields));
    }
  }

  lemma StandsWhole(b: seq<Octet>, lo: nat, hi: nat)
    requires lo <= hi <= |b|
    ensures Stands(b, lo, b[lo..hi])
  {
  }
}
