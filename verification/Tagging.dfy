/** Tagged data on the wire: tags in groups of 7 bits, integers in nibbles, payloads behind their length. */
module Tagging {
  import opened Bytes
  import opened EvBuffer

  const UINT32: int := 0x1_0000_0000
  const UINT64: int := 0x1_0000_0000_0000_0000
  const INT_MAX: int := 0x7fff_ffff

  datatype Option<T> = None | Some(value: T)

  // ----- integers -----

  /** The number of significant nibbles */
  function Nibbles(n: nat): (k: nat)
    ensures n > 0 ==> k > 0
  {
    if n == 0 then 0 else 1 + Nibbles(n / 16)
  }

  /** Nibble i of n, from the lowest */
  function Nibble(n: nat, i: nat): (b: nat)
    ensures b < 16
  {
    if i == 0 then n % 16 else Nibble(n / 16, i - 1)
  }

  /** n without its lowest i nibbles */
  function Shifted(n: nat, i: nat): nat {
    if i == 0 then n else Shifted(n / 16, i - 1)
  }

  /** The encoding of an integer: the number of nibbles less one, and the nibbles, which fill the bytes from the
      lower half of the first byte on. */
  function EncodedInt(n: nat): (s: seq<Byte>)
    requires Nibbles(n) <= 16
    ensures |s| == Nibbles(n) / 2 + 1
  {
    seq(Nibbles(n) / 2 + 1, k requires 0 <= k <= Nibbles(n) / 2 => IntByte(n, Nibbles(n), k))
  }

  /** Byte k of the encoding of n, as far as the lowest done nibbles go */
  function IntByte(n: nat, done: nat, k: nat): Byte
    requires done <= 16
  {
    (if k == 0 then 16 * (if done > 1 then done - 1 else 0) else if 2 * k - 1 < done then 16 * Nibble(n, 2 * k - 1) else 0) +
    (if 2 * k < done then Nibble(n, 2 * k) else 0)
  }

  lemma {:induction false} NibblesBound(n: nat, k: nat)
    requires n < Power16(k)
    ensures Nibbles(n) <= k
    decreases k
  {
    if n > 0 {
      assert n / 16 < Power16(k - 1);
      NibblesBound(n / 16, k - 1);
    }
  }

  function Power16(k: nat): (p: nat)
    ensures p > 0
  {
    if k == 0 then 1 else 16 * Power16(k - 1)
  }

  lemma PowersAre()
    ensures Power16(8) == UINT32 && Power16(16) == UINT64
  {
    assert Power16(4) == 0x1_0000;
    assert Power16(8) == UINT32;
    assert Power16(12) == 0x1_0000_0000_0000;
  }

  /** The nibble that the decoder takes as number j, from 1 on */
  function NibbleAt(s: seq<Byte>, j: nat): (b: nat)
    requires j / 2 < |s|
    ensures b < 16
  {
    if j % 2 == 1 then s[j / 2] % 16 else s[j / 2] / 16
  }

  /** The number made of nibbles lo to hi */
  function Digits(s: seq<Byte>, lo: nat, hi: nat): nat
    requires hi / 2 < |s|
    decreases hi + 1 - lo
  {
    if lo > hi then 0 else NibbleAt(s, lo) + 16 * Digits(s, lo + 1, hi)
  }

  /** What is decoded at the beginning of s, with the length of its encoding */
  function ParsedInt(s: seq<Byte>, maxNibbles: nat): (r: Option<(nat, nat)>)
    ensures r.Some? ==> 0 < r.value.1 <= |s|
  {
    if s == [] then None
    else
      var nibbles := s[0] / 16 + 1;
      if nibbles > maxNibbles || nibbles / 2 + 1 > |s| then None
      else Some((Digits(s, 1, nibbles), nibbles / 2 + 1))
  }

  lemma {:induction false} NibbleShifted(n: nat, i: nat)
    ensures Nibble(n, i) == Shifted(n, i) % 16
    ensures Shifted(n, i + 1) == Shifted(n, i) / 16
    ensures Nibbles(n) <= i <==> Shifted(n, i) == 0
    ensures i <= Nibbles(n) ==> Nibbles(Shifted(n, i)) == Nibbles(n) - i
    decreases i
  {
    if i > 0 { NibbleShifted(n / 16, i - 1); }
  }

  /** The digits of an encoding, from some nibble on */
  lemma {:induction false} DigitsOfEncoded(n: nat, rest: seq<Byte>, lo: nat)
    requires 0 < Nibbles(n) <= 16 && 1 <= lo <= Nibbles(n) + 1
    ensures Digits(EncodedInt(n) + rest, lo, Nibbles(n)) == Shifted(n, lo - 1)
    decreases Nibbles(n) + 1 - lo
  {
    var s := EncodedInt(n) + rest;
    NibbleShifted(n, lo - 1);
    hide Nibble, Nibbles, Shifted;
    if lo <= Nibbles(n) {
      DigitsOfEncoded(n, rest, lo + 1);
      assert s[lo / 2] == IntByte(n, Nibbles(n), lo / 2);
      NibbleIs(n, lo);
    }
  }

  lemma NibbleIs(n: nat, lo: nat)
    requires 1 <= lo <= Nibbles(n) <= 16
    ensures var b := IntByte(n, Nibbles(n), lo / 2);
            (if lo % 2 == 1 then b % 16 else b / 16) == Nibble(n, lo - 1)
  {
    hide Nibble, Nibbles;
    var k := lo / 2;
    if lo % 2 == 1 { assert lo - 1 == 2 * k; } else { assert lo - 1 == 2 * k - 1; }
  }

  lemma LeadByte(n: nat, done: nat)
    requires done <= 16
    ensures IntByte(n, done, 0) / 16 == (if done > 1 then done - 1 else 0) && (done == 0 ==> IntByte(n, done, 0) == 0)
  {
    hide Nibble;
    NibbleSmall(n, 0);
  }

  lemma NibbleSmall(n: nat, i: nat)
    ensures Nibble(n, i) < 16
  {
  }

  lemma OneDigit(s: seq<Byte>)
    requires s != [] && s[0] == 0
    ensures Digits(s, 1, 1) == 0
  {
    assert Digits(s, 1, 1) == NibbleAt(s, 1) + 16 * Digits(s, 2, 1);
  }

  /** Integers survive: the decoder reads what was encoded, and no more bytes. */
  lemma IntRoundTrip(n: nat, rest: seq<Byte>, maxNibbles: nat)
    requires 0 < maxNibbles <= 16 && n < Power16(maxNibbles)
    ensures Nibbles(n) <= 16
    ensures ParsedInt(EncodedInt(n) + rest, maxNibbles) == Some((n, |EncodedInt(n)|))
  {
    hide IntByte, Nibble, Power16, Digits;
    NibblesBound(n, maxNibbles);
    LeadByte(n, Nibbles(n));
    var s := EncodedInt(n) + rest;
    assert s[0] == IntByte(n, Nibbles(n), 0);
    if n == 0 {
      OneDigit(s);
    } else {
      DigitsOfEncoded(n, rest, 1);
    }
  }

  // ----- tags -----

  /** Groups of 7 bits, the lowest first; the high bit says that more follow. */
  function EncodedTag(tag: nat): (s: seq<Byte>)
    ensures |s| > 0
  {
    if tag < 128 then [tag] else [128 + tag % 128] + EncodedTag(tag / 128)
  }

  /** The length of the tag at the beginning of s, or None if none of the first bytes ends it */
  function TagLength(s: seq<Byte>): (r: Option<nat>)
    ensures r.Some? ==> 0 < r.value <= |s| && s[r.value - 1] < 128 && forall i :: 0 <= i < r.value - 1 ==> s[i] >= 128
    ensures r.None? ==> forall i :: 0 <= i < |s| ==> s[i] >= 128
  {
    if s == [] then None
    else if s[0] < 128 then Some(1)
    else match TagLength(s[1..])
         case None => None
         case Some(n) => Some(n + 1)
  }

  function TagValue(s: seq<Byte>): nat {
    if s == [] then 0 else s[0] % 128 + 128 * TagValue(s[1..])
  }

  /** Tags survive. */
  lemma {:induction false} TagRoundTrip(tag: nat, rest: seq<Byte>)
    ensures TagLength(EncodedTag(tag) + rest) == Some(|EncodedTag(tag)|)
    ensures TagValue(EncodedTag(tag)) == tag
    decreases tag
  {
    var e := EncodedTag(tag);
    if tag < 128 {
      assert TagValue([tag]) == tag % 128 + 128 * TagValue([]);
    } else {
      TagRoundTrip(tag / 128, rest);
      assert (e + rest)[1..] == EncodedTag(tag / 128) + rest;
      assert e[1..] == EncodedTag(tag / 128);
      assert (128 + tag % 128) % 128 == tag % 128;
    }
  }

  function Power128(k: nat): nat {
    if k == 0 then 1 else 128 * Power128(k - 1)
  }

  lemma {:induction false} TagBound(tag: nat, k: nat)
    requires k > 0 && tag < Power128(k)
    ensures |EncodedTag(tag)| <= k
    decreases k
  {
    if tag >= 128 {
      assert Power128(1) == 128;
      assert tag / 128 < Power128(k - 1);
      TagBound(tag / 128, k - 1);
    }
  }

  /** A 32-bit tag takes at most 5 bytes. */
  lemma TagFits(tag: nat)
    requires tag < UINT32
    ensures |EncodedTag(tag)| <= 5
  {
    assert Power128(5) == 128 * 128 * 128 * 128 * 128;
    TagBound(tag, 5);
  }

  // ----- items -----

  /** Tag, length and payload */
  function Item(tag: nat, payload: seq<Byte>): seq<Byte>
    requires |payload| < UINT32
  {
    LengthFits(|payload|);
    EncodedTag(tag) + (EncodedInt(|payload|) + payload)
  }

  lemma LengthFits(n: nat)
    ensures n < UINT32 ==> Nibbles(n) <= 8 && n < Power16(8)
    ensures n < UINT64 ==> Nibbles(n) <= 16 && n < Power16(16)
  {
    PowersAre();
    if n < UINT32 { NibblesBound(n, 8); }
    if n < UINT64 { NibblesBound(n, 16); }
  }

  datatype Header = Header(tag: nat, length: nat, size: nat)

  /** The header at the beginning of s: the tag modulo the width of its type, the length of the payload, and the
      size of the header itself */
  function ParsedHeader(s: seq<Byte>): (r: Option<Header>)
    ensures r.Some? ==> 0 < r.value.size <= |s|
  {
    match TagLength(s)
    case None => None
    case Some(n) =>
      match ParsedInt(s[n..], 8)
      case None => None
      case Some(p) => Some(Header(TagValue(s[..n]) % UINT32, p.0, n + p.1))
  }

  /** The header of an item, whatever follows it */
  lemma HeaderRoundTrip(tag: nat, payload: seq<Byte>, rest: seq<Byte>)
    requires tag < UINT32 && |payload| < UINT32
    ensures var h := ParsedHeader(Item(tag, payload) + rest);
            h.Some? && h.value.tag == tag && h.value.length == |payload| &&
            h.value.size + |payload| == |Item(tag, payload)| &&
            (Item(tag, payload) + rest)[h.value.size..] == payload + rest
  {
    hide TagLength, TagValue, EncodedTag, EncodedInt, ParsedInt, Nibbles, Power16;
    LengthFits(|payload|);
    var t, n, tail := EncodedTag(tag), EncodedInt(|payload|), payload + rest;
    var s := Item(tag, payload) + rest;
    TagRoundTrip(tag, n + tail);
    IntRoundTrip(|payload|, tail, 8);
    assert s == t + (n + tail);
    assert s[..|t|] == t && s[|t|..] == n + tail && s[|t| + |n|..] == tail;
  }

  /** A stream of items */
  function Stream(items: seq<(nat, seq<Byte>)>): seq<Byte>
    requires forall i :: i in items ==> |i.1| < UINT32
  {
    if items == [] then [] else Item(items[0].0, items[0].1) + Stream(items[1..])
  }

  /** Read n items from s: the items, and what is left; or None if one is malformed or too long for an int. */
  function ParsedStream(s: seq<Byte>, n: nat): Option<(seq<(nat, seq<Byte>)>, seq<Byte>)> {
    if n == 0 then Some(([], s))
    else match ParsedHeader(s)
         case None => None
         case Some(h) =>
           if h.length > INT_MAX || h.size + h.length > |s| then None
           else match ParsedStream(s[h.size + h.length..], n - 1)
                case None => None
                case Some(p) => Some(([(h.tag, s[h.size..h.size + h.length])] + p.0, p.1))
  }

  /** A stream of items survives, and the bytes behind it stay, if and only if every payload is short enough for
      the signed length that evtag_unmarshal_header returns. */
  lemma {:induction false} StreamRoundTrip(items: seq<(nat, seq<Byte>)>, rest: seq<Byte>)
    requires forall i :: i in items ==> i.0 < UINT32 && |i.1| < UINT32
    ensures ParsedStream(Stream(items) + rest, |items|) == Some((items, rest)) <==>
            forall i :: i in items ==> |i.1| <= INT_MAX
    ensures ParsedStream(Stream(items) + rest, |items|).Some? <==> forall i :: i in items ==> |i.1| <= INT_MAX
    decreases |items|
  {
    hide ParsedHeader, Item;
    var s := Stream(items) + rest;
    if items == [] {
      assert s == rest;
    } else {
      var tag, payload, more := items[0].0, items[0].1, items[1..];
      assert items == [items[0]] + more;
      var tail := Stream(more) + rest;
      assert s == Item(tag, payload) + tail;
      HeaderRoundTrip(tag, payload, tail);
      StreamRoundTrip(more, rest);
      var h := ParsedHeader(s).value;
      assert s[h.size..h.size + h.length] == s[h.size..][..h.length] == payload;
      assert s[h.size + h.length..] == s[h.size..][h.length..] == tail;
      assert (tag, payload) == items[0];
    }
  }

  // ----- the buffer, seen as a byte sequence -----

  /** The buffer takes n more bytes. */
  ghost predicate Room(buf: EvBuffer, n: nat)
    reads buf
  {
    !buf.freezeEnd && n <= EV_SIZE_MAX - buf.totalLen && n <= MAX_BLOCK
  }

  /** What a buffer holds when it has been given a piece: all of it, or nothing. */
  function Given(s: seq<Byte>, frozen: bool, piece: seq<Byte>): seq<Byte> {
    if !frozen && |piece| <= EV_SIZE_MAX - |s| && |piece| <= MAX_BLOCK then s + piece else s
  }

  /** An item is given in three pieces, and a piece that is refused is left out. */
  function GivenItem(s: seq<Byte>, frozen: bool, tag: nat, payload: seq<Byte>): seq<Byte>
    requires |payload| < UINT32
  {
    LengthFits(|payload|);
    Given(Given(Given(s, frozen, EncodedTag(tag)), frozen, EncodedInt(|payload|)), frozen, payload)
  }

  /** An item is given whole exactly if there is room for all of it. */
  lemma GivenWhole(s: seq<Byte>, frozen: bool, tag: nat, payload: seq<Byte>)
    requires |payload| < UINT32
    ensures GivenItem(s, frozen, tag, payload) == s + Item(tag, payload) <==>
            !frozen && |Item(tag, payload)| <= EV_SIZE_MAX - |s| && |EncodedTag(tag)| <= MAX_BLOCK
  {
    LengthFits(|payload|);
    PartsFit(tag, payload);
    var a, b := EncodedTag(tag), EncodedInt(|payload|);
    hide EncodedTag, EncodedInt, Nibbles, Power16, Item;
    GivenLength(s, frozen, a);
    GivenLength(Given(s, frozen, a), frozen, b);
    GivenLength(Given(Given(s, frozen, a), frozen, b), frozen, payload);
    assert Item(tag, payload) == a + (b + payload) by { ItemIs(tag, payload); }
    Parts(s, a, b, payload);
  }

  lemma ItemIs(tag: nat, payload: seq<Byte>)
    requires |payload| < UINT32
    ensures Nibbles(|payload|) <= 16 && Item(tag, payload) == EncodedTag(tag) + (EncodedInt(|payload|) + payload)
  {
    LengthFits(|payload|);
    hide EncodedTag, EncodedInt, Nibbles;
    assert Item(tag, payload) == EncodedTag(tag) + EncodedInt(|payload|) + payload;
  }

  lemma GivenLength(s: seq<Byte>, frozen: bool, piece: seq<Byte>)
    ensures |Given(s, frozen, piece)| <= |s| + |piece|
    ensures |Given(s, frozen, piece)| == |s| + |piece| <==> Given(s, frozen, piece) == s + piece
  {
  }

  /** evbuffer_add */
  method AddTo(buf: EvBuffer, data: seq<Byte>) returns (r: int)
    requires buf.Valid()
    modifies buf, buf.Footprint()
    ensures buf.Valid() && fresh(buf.Footprint() - old(buf.Footprint()))
    ensures r == if old(Room(buf, |data|)) then 0 else -1
    ensures buf.Contents() == old(buf.Contents()) + if r == 0 then data else []
    ensures buf.Contents() == Given(old(buf.Contents()), buf.freezeEnd, data)
    ensures buf.freezeStart == old(buf.freezeStart) && buf.freezeEnd == old(buf.freezeEnd)
  {
    assert forall c: Chain :: c in buf.chains ==> c in buf.Footprint() && c.buffer in buf.Footprint();
    r := buf.Add(data);
  }

  /** evbuffer_drain */
  method DrainFrom(buf: EvBuffer, len: nat)
    requires buf.Valid() && !buf.freezeStart && len <= |buf.Contents()|
    modifies buf, buf.Footprint()
    ensures buf.Valid() && fresh(buf.Footprint() - old(buf.Footprint()))
    ensures buf.Contents() == old(buf.Contents())[len..]
    ensures buf.freezeStart == old(buf.freezeStart) && buf.freezeEnd == old(buf.freezeEnd)
  {
    assert forall c: Chain :: c in buf.chains ==> c in buf.Footprint() && c.buffer in buf.Footprint();
    var r := buf.Drain(len);
  }

  /** evbuffer_pullup */
  method PullupOf(buf: EvBuffer, size: nat) returns (data: array?<Byte>, at: int)
    requires buf.Valid()
    modifies buf, buf.Footprint()
    ensures buf.Valid() && fresh(buf.Footprint() - old(buf.Footprint())) && buf.Contents() == old(buf.Contents())
    ensures data != null <==> 0 < size <= |buf.Contents()| && size <= MAX_BLOCK
    ensures data != null ==> 0 <= at <= at + size <= data.Length && data[at..at + size] == buf.Contents()[..size]
    ensures buf.freezeStart == old(buf.freezeStart) && buf.freezeEnd == old(buf.freezeEnd)
  {
    assert forall c: Chain :: c in buf.chains ==> c in buf.Footprint() && c.buffer in buf.Footprint();
    data, at := buf.Pullup(size);
  }

  // ----- encoding -----

  /** ENCODE_INT_INTERNAL for numbers of 4 or 8 bytes: the nibbles go from the lowest to halves of bytes, and
      their number goes to the upper half of the first. */
  method EncodeIntInternal(data: array<Byte>, at: nat, number: nat, width: nat) returns (len: nat)
    requires (width == 4 || width == 8) && at + width + 1 <= data.Length && number < Power16(2 * width)
    modifies data
    ensures Nibbles(number) <= 16 && len == |EncodedInt(number)| <= width + 1
    ensures data[at..at + len] == EncodedInt(number) && data[..at] == old(data[..at])
  {
    hide HalvesAt, Nibble, Nibbles, Power16, EncodedInt, Shifted;
    NibblesBound(number, 2 * width);
    ghost var before := data[..at];
    var off := PutNibbles(data, at, number, width);
    var nibbles := 0;
    if off > 2 { nibbles := off - 2; }
    HalvesEnd(data[..], at, width, number);
    data[at] := data[at] % 16 + nibbles % 16 * 16;
    len := (off + 1) / 2;
    assert data[at..at + len] == data[..][at..at + len];
    assert data[..at] == before;
  }

  /** The loop of ENCODE_INT_INTERNAL: off ends behind the last nibble. */
  method PutNibbles(data: array<Byte>, at: nat, number: nat, width: nat) returns (off: nat)
    requires (width == 4 || width == 8) && at + width + 1 <= data.Length && Nibbles(number) <= 2 * width
    modifies data
    ensures off == Nibbles(number) + 1 && data[..at] == old(data[..at])
    ensures HalvesAt(data[..], at, width, number, Nibbles(number))
  {
    hide HalvesAt, Nibble, Nibbles;
    ghost var before := data[..at];
    ZeroFill(data, at, width + 1);
    off := 1;
    var rest := number;
    HalvesStart(data[..], at, width, number);
    while rest != 0
      invariant 1 <= off && off - 1 <= Nibbles(number) && rest == Shifted(number, off - 1) && data[..at] == before
      invariant HalvesAt(data[..], at, width, number, off - 1)
      decreases rest
    {
      NibbleShifted(number, off - 1);
      HalvesNext(data[..], at, width, number, off - 1);
      PutNibble(data, at + off / 2, off, rest % 16);
      rest := rest / 16;
      off := off + 1;
    }
    NibbleShifted(number, off - 1);
  }

  /** An odd nibble goes to the lower half of its byte, an even one to the upper half. */
  method PutNibble(data: array<Byte>, j: nat, off: nat, b: nat)
    requires j < data.Length && b < 16
    modifies data
    ensures data[..] == old(data[..])[j := if off % 2 == 1 then old(data[j]) / 16 * 16 + b else old(data[j]) % 16 + 16 * b]
    ensures forall i :: 0 <= i < j ==> data[i] == old(data[i])
  {
    if off % 2 == 1 {
      data[j] := data[j] / 16 * 16 + b;
    } else {
      data[j] := data[j] % 16 + b * 16;
    }
  }

  /** memset(data, 0, n) */
  method ZeroFill(data: array<Byte>, at: nat, n: nat)
    requires at + n <= data.Length
    modifies data
    ensures data[..at] == old(data[..at]) && forall j :: at <= j < at + n ==> data[j] == 0
  {
    ghost var before := data[..at];
    var i := at;
    while i < at + n
      invariant at <= i <= at + n && data[..at] == before && forall j :: at <= j < i ==> data[j] == 0
    {
      data[i] := 0;
      i := i + 1;
    }
  }

  /** The bytes of s from at on hold the lowest done nibbles of n, but not yet their number. */
  ghost predicate HalvesAt(s: seq<Byte>, at: nat, width: nat, n: nat, done: nat) {
    at + width < |s| && forall j :: at <= j <= at + width ==> s[j] == Half(n, done, j - at)
  }

  lemma HalvesStart(s: seq<Byte>, at: nat, width: nat, n: nat)
    requires at + width < |s| && forall j :: at <= j <= at + width ==> s[j] == 0
    ensures HalvesAt(s, at, width, n, 0)
  {
    hide Nibble;
  }

  lemma HalvesNext(s: seq<Byte>, at: nat, width: nat, n: nat, done: nat)
    requires HalvesAt(s, at, width, n, done) && (width == 4 || width == 8)
    requires done < 2 * width
    ensures var k := (done + 1) / 2;
            var b := if (done + 1) % 2 == 1 then s[at + k] / 16 * 16 + Nibble(n, done) else s[at + k] % 16 + 16 * Nibble(n, done);
            k <= width && b < 256 && HalvesAt(s[at + k := b], at, width, n, done + 1)
  {
    hide Nibble, Half;
    HalfStep(n, done);
  }

  /** With all nibbles in place, their number completes the encoding. */
  lemma HalvesEnd(s: seq<Byte>, at: nat, width: nat, n: nat)
    requires HalvesAt(s, at, width, n, Nibbles(n)) && Nibbles(n) <= 2 * width && (width == 4 || width == 8)
    ensures var len := Nibbles(n) / 2 + 1;
            var b := s[at] % 16 + 16 * (if Nibbles(n) > 1 then Nibbles(n) - 1 else 0);
            b < 256 && at + len <= |s| && s[at := b][at..at + len] == EncodedInt(n)
  {
    hide Nibble, Nibbles, Half, IntByte;
    var len := Nibbles(n) / 2 + 1;
    var b := s[at] % 16 + 16 * (if Nibbles(n) > 1 then Nibbles(n) - 1 else 0);
    forall k | 0 <= k < len ensures s[at := b][at..at + len][k] == EncodedInt(n)[k] {
      assert s[at + k] == Half(n, Nibbles(n), k);
      HalfIsByte(n, Nibbles(n), k);
    }
  }

  lemma HalfIsByte(n: nat, done: nat, k: nat)
    requires done <= 16
    ensures IntByte(n, done, k) ==
            if k > 0 then Half(n, done, k) else Half(n, done, 0) % 16 + 16 * (if done > 1 then done - 1 else 0)
  {
    hide Nibble;
    NibbleSmall(n, 0);
  }

  lemma HalfOther(n: nat, done: nat, k: nat)
    requires k != (done + 1) / 2
    ensures Half(n, done + 1, k) == Half(n, done, k)
  {
    hide Nibble;
  }

  lemma HalfStep(n: nat, done: nat)
    ensures forall k :: k != (done + 1) / 2 ==> Half(n, done + 1, k) == Half(n, done, k)
    ensures var k := (done + 1) / 2;
            Half(n, done + 1, k) == if done % 2 == 0 then Half(n, done, k) / 16 * 16 + Nibble(n, done)
                                    else Half(n, done, k) % 16 + 16 * Nibble(n, done)
  {
    hide Half, Nibble;
    forall k: nat | k != (done + 1) / 2 ensures Half(n, done + 1, k) == Half(n, done, k) {
      HalfOther(n, done, k);
    }
    HalfHere(n, done);
  }

  lemma HalfHere(n: nat, done: nat)
    ensures var k := (done + 1) / 2;
            Half(n, done + 1, k) == if done % 2 == 0 then Half(n, done, k) / 16 * 16 + Nibble(n, done)
                                    else Half(n, done, k) % 16 + 16 * Nibble(n, done)
  {
    hide Half, Nibble;
    if done % 2 == 0 {
      HalfEven(n, done / 2);
    } else {
      HalfOdd(n, done / 2);
    }
  }

  lemma HalfEven(n: nat, h: nat)
    ensures Half(n, 2 * h + 1, h) == Half(n, 2 * h, h) / 16 * 16 + Nibble(n, 2 * h)
  {
    hide Nibble;
    var upper := if h > 0 then Nibble(n, 2 * h - 1) else 0;
    assert Half(n, 2 * h, h) == 16 * upper;
  }

  lemma HalfOdd(n: nat, h: nat)
    ensures Half(n, 2 * h + 2, h + 1) == Half(n, 2 * h + 1, h + 1) % 16 + 16 * Nibble(n, 2 * h + 1)
  {
    hide Nibble;
    assert Half(n, 2 * h + 1, h + 1) == 0;
  }

  /** Byte k of the encoding while its first byte does not have the number of nibbles yet */
  function Half(n: nat, done: nat, k: nat): Byte {
    (if k > 0 && 2 * k - 1 < done then 16 * Nibble(n, 2 * k - 1) else 0) +
    (if 2 * k < done then Nibble(n, 2 * k) else 0)
  }

  /** evtag_encode_int and evtag_encode_int64 */
  method EncodeInt(buf: EvBuffer, number: nat, width: nat)
    requires buf.Valid() && (width == 4 || width == 8) && number < Power16(2 * width)
    modifies buf, buf.Footprint()
    ensures Nibbles(number) <= 16
    ensures buf.Valid() && fresh(buf.Footprint() - old(buf.Footprint()))
    ensures buf.Contents() == Given(old(buf.Contents()), buf.freezeEnd, EncodedInt(number))
    ensures buf.freezeStart == old(buf.freezeStart) && buf.freezeEnd == old(buf.freezeEnd)
  {
    hide Nibbles, Power16, EncodedInt, Linked, Flat;
    var data := new Byte[9];
    var len := EncodeIntInternal(data, 0, number, width);
    assert data[..len] == data[0..0 + len];
    var r := AddTo(buf, data[..len]);
  }

  /** The loop of evtag_encode_tag */
  method TagBytes(tag: nat) returns (data: array<Byte>, bytes: nat)
    requires tag < UINT32
    ensures fresh(data) && bytes <= data.Length && data[..bytes] == EncodedTag(tag)
  {
    TagFits(tag);
    data := new Byte[5](_ => 0);
    bytes := 0;
    var rest := tag;
    while true
      invariant bytes + |EncodedTag(rest)| == |EncodedTag(tag)| <= 5
      invariant data[..bytes] + EncodedTag(rest) == EncodedTag(tag)
      decreases rest
    {
      var lower := rest % 128;
      var next := rest / 128;
      if next != 0 { lower := lower + 128; }
      ghost var before := data[..bytes];
      data[bytes] := lower;
      bytes := bytes + 1;
      assert data[..bytes] == before + [lower];
      if next == 0 { return; }
      assert before + EncodedTag(rest) == data[..bytes] + EncodedTag(next);
      rest := next;
    }
  }

  /** evtag_encode_tag */
  method EncodeTag(buf: EvBuffer, tag: nat) returns (bytes: nat)
    requires buf.Valid() && tag < UINT32
    modifies buf, buf.Footprint()
    ensures buf.Valid() && fresh(buf.Footprint() - old(buf.Footprint())) && bytes == |EncodedTag(tag)|
    ensures buf.Contents() == Given(old(buf.Contents()), buf.freezeEnd, EncodedTag(tag))
    ensures buf.freezeStart == old(buf.freezeStart) && buf.freezeEnd == old(buf.freezeEnd)
  {
    hide EncodedTag;
    var data;
    data, bytes := TagBytes(tag);
    var r := AddTo(buf, data[..bytes]);
  }

  // ----- decoding -----

  /** The loop of decode_tag_internal does not look where the contiguous bytes end: a tag must end within them. */
  ghost predicate TagEnds(s: seq<Byte>) {
    |s| <= 5 || exists i :: 0 <= i < 5 && s[i] < 128
  }

  lemma {:induction false} TagValueSnoc(s: seq<Byte>, b: Byte)
    ensures TagValue(s + [b]) == TagValue(s) + b % 128 * Power128(|s|)
  {
    if s == [] {
      assert s + [b] == [b] && [b][1..] == [];
      EmptyTag();
      assert TagValue([b]) == b % 128 + 128 * TagValue([]);
    } else {
      TagValueSnoc(s[1..], b);
      NextPower(|s| - 1);
      hide Power128;
      assert (s + [b])[1..] == s[1..] + [b];
      Times128(b % 128, Power128(|s| - 1));
    }
  }

  lemma Times128(x: nat, p: nat)
    ensures 128 * (x * p) == x * (128 * p)
  {
  }

  /** The tag has not ended yet. */
  lemma {:induction false} TagGoesOn(s: seq<Byte>, k: nat)
    requires k <= |s| && forall i :: 0 <= i < k ==> s[i] >= 128
    ensures TagLength(s) == match TagLength(s[k..])
                            case None => None
                            case Some(n) => Some(k + n)
    decreases k
  {
    if k > 0 {
      TagGoesOn(s[1..], k - 1);
      assert s[1..][k - 1..] == s[k..];
    } else {
      assert s[0..] == s;
    }
  }

  lemma TagEndsHere(s: seq<Byte>, k: nat)
    requires k < |s| && (forall i :: 0 <= i < k ==> s[i] >= 128) && s[k] < 128
    ensures TagLength(s) == Some(k + 1)
  {
    TagGoesOn(s, k);
    assert s[k..][0] == s[k];
  }

  lemma TagNeverEnds(s: seq<Byte>)
    requires forall i :: 0 <= i < |s| ==> s[i] >= 128
    ensures TagLength(s) == None
  {
    TagGoesOn(s, |s|);
    assert s[|s|..] == [];
  }

  /** decode_tag_internal: the length of the tag at the beginning of the buffer and its value, or -1.  The tag is
      taken out of the buffer if dodrain is set. */
  method DecodeTagInternal(buf: EvBuffer, dodrain: bool) returns (r: int, tag: nat)
    requires buf.Valid() && !buf.freezeStart && TagEnds(buf.Contents())
    modifies buf, buf.Footprint()
    ensures buf.Valid() && fresh(buf.Footprint() - old(buf.Footprint()))
    ensures buf.freezeStart == old(buf.freezeStart) && buf.freezeEnd == old(buf.freezeEnd)
    ensures var s := old(buf.Contents());
            match TagLength(s)
            case None => r == -1 && buf.Contents() == s
            case Some(n) => r == n && tag == TagValue(s[..n]) % UINT32 && tag < UINT32 &&
                            buf.Contents() == (if dodrain then s[n..] else s)
  {
    hide TagLength, TagValue, Power128, Linked, Flat;
    ghost var s := buf.Contents();
    var len := buf.totalLen;
    var data, at := PullupOf(buf, if len < 5 then len else 5);
    tag := 0;
    if data == null {
      TagNeverEnds(s);
      return -1, 0;
    }
    var done;
    r, tag, done := ReadTag(data, at, len, s);
    if !done { return -1, tag; }
    if dodrain { DrainFrom(buf, r); }
  }

  /** The loop of decode_tag_internal */
  method ReadTag(data: array<Byte>, at: nat, len: nat, ghost s: seq<Byte>) returns (count: nat, number: nat, done: bool)
    requires len == |s| > 0 && at + Min(len, 5) <= data.Length && data[at..at + Min(len, 5)] == s[..Min(len, 5)]
    requires TagEnds(s)
    ensures number < UINT32
    ensures match TagLength(s)
            case None => !done
            case Some(n) => done && count == n && number == TagValue(s[..n]) % UINT32
  {
    hide TagLength, TagValue, Power128;
    count, number, done := 0, 0, false;
    var shift: nat := 1;
    assert s[..0] == [];
    EmptyTag();
    while count < len
      invariant count <= len && number == TagValue(s[..count]) % UINT32 && shift == Power128(count)
      invariant forall i :: 0 <= i < count ==> s[i] >= 128
      invariant count < len ==> count < 5
    {
      assert s[count] == s[..Min(len, 5)][count] == data[at + count];
      var lower: nat := data[at + count];
      TagValueSnoc(s[..count], s[count]);
      assert s[..count + 1] == s[..count] + [s[count]];
      var bits := lower % 128 * shift;
      ModAdd(TagValue(s[..count]), bits);
      number := (number + bits) % UINT32;
      shift := 128 * shift;
      NextPower(count);
      count := count + 1;
      if lower < 128 {
        TagEndsHere(s, count - 1);
        done := true;
        return;
      }
    }
    TagNeverEnds(s);
  }

  lemma ModAdd(a: nat, b: nat)
    ensures (a % UINT32 + b) % UINT32 == (a + b) % UINT32
  {
  }

  lemma EmptyTag()
    ensures TagValue([]) == 0 && Power128(0) == 1
  {
  }

  lemma NextPower(k: nat)
    ensures Power128(k + 1) == 128 * Power128(k)
  {
  }

  lemma ParsedFrom(s: seq<Byte>, offset: nat, maxNibbles: nat)
    requires offset <= |s|
    ensures offset == |s| ==> ParsedInt(s[offset..], maxNibbles) == None
    ensures offset < |s| ==>
              var nibbles := s[offset] / 16 + 1;
              var r := ParsedInt(s[offset..], maxNibbles);
              if nibbles > maxNibbles || nibbles / 2 + 1 > |s| - offset then r == None
              else r.Some? && r.value.0 == Digits(s[offset..], 1, nibbles) && r.value.1 == nibbles / 2 + 1
  {
  }

  /** DECODE_INT_INTERNAL: the length of the encoded integer at offset and its value, or -1. */
  method DecodeIntInternal(buf: EvBuffer, offset: nat, maxNibbles: nat) returns (r: int, number: nat)
    requires buf.Valid() && offset <= INT_MAX && (maxNibbles == 8 || maxNibbles == 16)
    modifies buf, buf.Footprint()
    ensures buf.Valid() && fresh(buf.Footprint() - old(buf.Footprint())) && buf.Contents() == old(buf.Contents())
    ensures buf.freezeStart == old(buf.freezeStart) && buf.freezeEnd == old(buf.freezeEnd)
    ensures var s := buf.Contents();
            match if offset <= |s| then ParsedInt(s[offset..], maxNibbles) else None
            case None => r == -1
            case Some(p) => r == p.1 && number == p.0
  {
    hide Linked, Flat, Digits, ParsedInt;
    ghost var s := buf.Contents();
    if offset <= |s| { ParsedFrom(s, offset, maxNibbles); }
    var len := buf.totalLen - offset;
    number := 0;
    if len <= 0 { return -1, 0; }
    var data, at := PullupAt(buf, offset, 1);
    assert data[at] == data[at..at + 1][0] == s[offset];
    var nibbles: nat := data[at] / 16 + 1;
    if nibbles > maxNibbles || nibbles / 2 + 1 > len { return -1, 0; }
    len := nibbles / 2 + 1;
    number := ReadAll(buf, offset, nibbles);
    r := len;
  }

  /** The nibbles of an integer, after its length has been looked at. */
  method ReadAll(buf: EvBuffer, offset: nat, nibbles: nat) returns (number: nat)
    requires buf.Valid() && 0 < nibbles <= 16 && offset + nibbles / 2 + 1 <= |buf.Contents()| && offset <= INT_MAX
    modifies buf, buf.Footprint()
    ensures buf.Valid() && fresh(buf.Footprint() - old(buf.Footprint())) && buf.Contents() == old(buf.Contents())
    ensures buf.freezeStart == old(buf.freezeStart) && buf.freezeEnd == old(buf.freezeEnd)
    ensures number == Digits(buf.Contents()[offset..], 1, nibbles)
  {
    hide Linked, Flat, Digits;
    ghost var s := buf.Contents();
    var data, at := PullupAt(buf, offset, nibbles / 2 + 1);
    number := ReadNibbles(data, at, nibbles);
    PieceOf(s, offset, nibbles / 2 + 1);
    DigitsPrefix(s[offset..], nibbles / 2 + 1, 1, nibbles);
  }

  /** evbuffer_pullup of offset + n bytes, plus offset */
  method PullupAt(buf: EvBuffer, offset: nat, n: nat) returns (data: array<Byte>, at: nat)
    requires buf.Valid() && 0 < n && offset + n <= |buf.Contents()| && offset + n <= MAX_BLOCK
    modifies buf, buf.Footprint()
    ensures buf.Valid() && fresh(buf.Footprint() - old(buf.Footprint())) && buf.Contents() == old(buf.Contents())
    ensures at + n <= data.Length && data[at..at + n] == buf.Contents()[offset..offset + n]
    ensures buf.freezeStart == old(buf.freezeStart) && buf.freezeEnd == old(buf.freezeEnd)
  {
    hide Linked, Flat;
    var d, a := PullupOf(buf, offset + n);
    assert d[a + offset..a + offset + n] == d[a..a + (offset + n)][offset..] == buf.Contents()[..offset + n][offset..];
    data, at := d, a + offset;
  }

  lemma PieceOf(s: seq<Byte>, a: nat, n: nat)
    requires a + n <= |s|
    ensures s[a..a + n] == s[a..][..n]
  {
  }

  /** The loop of DECODE_INT_INTERNAL, from the highest nibble down */
  method ReadNibbles(data: array<Byte>, at: nat, nibbles: nat) returns (number: nat)
    requires at + nibbles / 2 + 1 <= data.Length
    ensures number == Digits(data[at..at + nibbles / 2 + 1], 1, nibbles)
  {
    ghost var s := data[at..at + nibbles / 2 + 1];
    number := 0;
    var j := nibbles;
    while j > 0
      invariant 0 <= j <= nibbles && number == Digits(s, j + 1, nibbles)
    {
      number := number * 16;
      assert s[j / 2] == data[at + j / 2];
      if j % 2 == 1 {
        number := number + (data[at + j / 2] as int) % 16;
      } else {
        number := number + (data[at + j / 2] as int) / 16;
      }
      j := j - 1;
    }
  }

  lemma {:induction false} DigitsPrefix(s: seq<Byte>, k: nat, lo: nat, hi: nat)
    requires hi / 2 < k <= |s|
    ensures Digits(s[..k], lo, hi) == Digits(s, lo, hi)
    decreases hi + 1 - lo
  {
    if lo <= hi { DigitsPrefix(s, k, lo + 1, hi); }
  }

  /** evtag_decode_int and evtag_decode_int64 */
  method DecodeInt(buf: EvBuffer, maxNibbles: nat) returns (r: int, number: nat)
    requires buf.Valid() && !buf.freezeStart && (maxNibbles == 8 || maxNibbles == 16)
    modifies buf, buf.Footprint()
    ensures buf.Valid() && fresh(buf.Footprint() - old(buf.Footprint()))
    ensures buf.freezeStart == old(buf.freezeStart) && buf.freezeEnd == old(buf.freezeEnd)
    ensures var s := old(buf.Contents());
            match ParsedInt(s, maxNibbles)
            case None => r == -1 && buf.Contents() == s
            case Some(p) => r == 0 && number == p.0 && buf.Contents() == s[p.1..]
  {
    hide ParsedInt, Linked, Flat;
    assert buf.Contents()[0..] == buf.Contents();
    r, number := DecodeIntInternal(buf, 0, maxNibbles);
    if r != -1 { DrainFrom(buf, r); }
    r := if r == -1 then -1 else 0;
  }

  // ----- items in buffers -----

  /** evtag_marshal */
  method Marshal(buf: EvBuffer, tag: nat, data: seq<Byte>)
    requires buf.Valid() && tag < UINT32 && |data| < UINT32
    modifies buf, buf.Footprint()
    ensures buf.Valid() && fresh(buf.Footprint() - old(buf.Footprint()))
    ensures buf.freezeStart == old(buf.freezeStart) && buf.freezeEnd == old(buf.freezeEnd)
    ensures buf.Contents() == GivenItem(old(buf.Contents()), buf.freezeEnd, tag, data)
    ensures old(Room(buf, |Item(tag, data)|)) ==> buf.Contents() == old(buf.Contents()) + Item(tag, data)
  {
    hide Linked, Flat, EncodedTag, EncodedInt, Nibbles, Power16, Given;
    LengthFits(|data|);
    PartsFit(tag, data);
    GivenWhole(buf.Contents(), buf.freezeEnd, tag, data);
    var n := EncodeTag(buf, tag);
    EncodeInt(buf, |data|, 4);
    var r := AddTo(buf, data);
  }

  lemma Parts(s: seq<Byte>, a: seq<Byte>, b: seq<Byte>, c: seq<Byte>)
    ensures ((s + a) + b) + c == s + (a + (b + c))
  {
  }

  lemma PartsFit(tag: nat, data: seq<Byte>)
    requires |data| < UINT32
    ensures Nibbles(|data|) <= 16
    ensures |Item(tag, data)| == |EncodedTag(tag)| + |EncodedInt(|data|)| + |data|
  {
    LengthFits(|data|);
  }

  predicate ItemsFit(items: seq<(nat, seq<Byte>)>) {
    forall i :: i in items ==> i.0 < UINT32 && |i.1| < UINT32
  }

  /** evtag_marshal for every item of a list */
  method MarshalAll(buf: EvBuffer, items: seq<(nat, seq<Byte>)>)
    requires buf.Valid() && ItemsFit(items) && Room(buf, |Stream(items)|)
    modifies buf, buf.Footprint()
    ensures buf.Valid() && fresh(buf.Footprint() - old(buf.Footprint()))
    ensures buf.freezeStart == old(buf.freezeStart) && buf.freezeEnd == old(buf.freezeEnd)
    ensures buf.Contents() == old(buf.Contents()) + Stream(items)
    decreases |items|
  {
    hide Linked, Flat, Item;
    if items == [] {
      assert buf.Contents() + [] == buf.Contents();
    } else {
      ghost var s, first := buf.Contents(), Item(items[0].0, items[0].1);
      assert items == [items[0]] + items[1..];
      assert |Stream(items)| == |first| + |Stream(items[1..])|;
      Marshal(buf, items[0].0, items[0].1);
      MarshalAll(buf, items[1..]);
      assert s + first + Stream(items[1..]) == s + Stream(items);
    }
  }

  /** evtag_marshal_int and evtag_marshal_int64: the payload is the encoded integer. */
  method MarshalInt(buf: EvBuffer, tag: nat, integer: nat, width: nat)
    requires buf.Valid() && tag < UINT32 && (width == 4 || width == 8) && integer < Power16(2 * width)
    modifies buf, buf.Footprint()
    ensures buf.Valid() && fresh(buf.Footprint() - old(buf.Footprint()))
    ensures buf.freezeStart == old(buf.freezeStart) && buf.freezeEnd == old(buf.freezeEnd)
    ensures Nibbles(integer) <= 16 && |EncodedInt(integer)| <= 9
    ensures buf.Contents() == GivenItem(old(buf.Contents()), buf.freezeEnd, tag, EncodedInt(integer))
  {
    var data := new Byte[9];
    var len := EncodeIntInternal(data, 0, integer, width);
    Marshal(buf, tag, data[..len]);
  }

  /** The payload of a time value */
  function TimevalBytes(sec: nat, usec: nat): seq<Byte>
    requires sec < UINT32 && usec < UINT32
  {
    LengthFits(sec);
    LengthFits(usec);
    EncodedInt(sec) + EncodedInt(usec)
  }

  method TimevalData(sec: nat, usec: nat) returns (data: array<Byte>, n: nat)
    requires sec < UINT32 && usec < UINT32
    ensures fresh(data) && n <= data.Length && n <= 10 && data[..n] == TimevalBytes(sec, usec)
  {
    hide EncodedInt, Nibbles, Power16;
    LengthFits(sec);
    LengthFits(usec);
    data := new Byte[10];
    var len := EncodeIntInternal(data, 0, sec, 4);
    ghost var first := data[..len];
    assert first == data[0..0 + len];
    var len2 := EncodeIntInternal(data, len, usec, 4);
    assert data[..len + len2] == data[..len] + data[len..len + len2];
    n := len + len2;
  }

  /** evtag_marshal_timeval: seconds and microseconds go in as 32-bit numbers. */
  method MarshalTimeval(buf: EvBuffer, tag: nat, sec: nat, usec: nat)
    requires buf.Valid() && tag < UINT32
    modifies buf, buf.Footprint()
    ensures buf.Valid() && fresh(buf.Footprint() - old(buf.Footprint()))
    ensures buf.freezeStart == old(buf.freezeStart) && buf.freezeEnd == old(buf.freezeEnd)
    ensures |TimevalBytes(sec % UINT32, usec % UINT32)| <= 10
    ensures buf.Contents() == GivenItem(old(buf.Contents()), buf.freezeEnd, tag, TimevalBytes(sec % UINT32, usec % UINT32))
  {
    hide TimevalBytes, GivenItem;
    var data, n := TimevalData(sec % UINT32, usec % UINT32);
    assert |data[..n]| == n;
    Marshal(buf, tag, data[..n]);
  }

  /** evtag_unmarshal_header: the tag and the length of the payload, which is still in the buffer, or -1. */
  method UnmarshalHeader(buf: EvBuffer) returns (len: int, tag: nat)
    requires buf.Valid() && !buf.freezeStart && TagEnds(buf.Contents())
    modifies buf, buf.Footprint()
    ensures buf.Valid() && fresh(buf.Footprint() - old(buf.Footprint()))
    ensures buf.freezeStart == old(buf.freezeStart) && buf.freezeEnd == old(buf.freezeEnd)
    ensures var s := old(buf.Contents());
            match ParsedHeader(s)
            case None => len == -1
            case Some(h) => tag == h.tag && buf.Contents() == s[h.size..] &&
                            len == if |s| - h.size < h.length then -1 else Signed(h.length, INT_MODULUS)
  {
    hide Linked, Flat, ParsedInt, TagLength, TagValue;
    ghost var s := buf.Contents();
    var r;
    r, tag := DecodeTagInternal(buf, true);
    if r == -1 { return -1, tag; }
    var e, n := DecodeInt(buf, 8);
    if e == -1 { return -1, tag; }
    if buf.totalLen < n { return -1, tag; }
    len := Signed(n, INT_MODULUS);
  }

  /** Two buffers without memory in common */
  ghost predicate Beside(a: EvBuffer, b: EvBuffer)
    reads a, b
  {
    a != b && ({a} + a.Footprint()) !! ({b} + b.Footprint())
  }

  /** The chains and blocks of a buffer are in its footprint. */
  lemma InMemory(buf: EvBuffer)
    ensures forall c: Chain :: c in buf.chains ==> c in buf.Footprint() && c.buffer in buf.Footprint()
  {
  }

  /** evtag_unmarshal_header and evbuffer_pullup, in the presence of another buffer */
  method HeaderAndPayload(src: EvBuffer, dst: EvBuffer) returns (len: int, tag: nat, data: seq<Byte>)
    requires src.Valid() && dst.Valid() && !src.freezeStart && TagEnds(src.Contents()) && Beside(src, dst)
    modifies src, src.Footprint()
    ensures src.Valid() && dst.Valid() && Beside(src, dst) && dst.Contents() == old(dst.Contents())
    ensures fresh(src.Footprint() - old(src.Footprint())) && dst.Footprint() == old(dst.Footprint())
    ensures src.freezeStart == old(src.freezeStart) && Room(dst, |data|) == old(Room(dst, |data|))
    ensures var s := old(src.Contents());
            var h := ParsedHeader(s);
            if h.Some? && h.value.size + h.value.length <= |s| && h.value.length <= INT_MAX then
              len == h.value.length == |data| && tag == h.value.tag && src.Contents() == s[h.value.size..] &&
              data == s[h.value.size..h.value.size + h.value.length]
            else len < 0
  {
    hide Linked, Flat, ParsedHeader, Signed;
    ghost var s := src.Contents();
    HeaderLength(s);
    InMemory(dst);
    len, tag := UnmarshalHeader(src);
    data := [];
    if len < 0 { return; }
    data := FirstBytes(src, len);
    ghost var h := ParsedHeader(s).value;
    PieceOf(s, h.size, h.length);
  }

  /** evtag_unmarshal: the payload moves from src to dst. */
  method Unmarshal(src: EvBuffer, dst: EvBuffer) returns (r: int, tag: nat)
    requires src.Valid() && dst.Valid() && !src.freezeStart && TagEnds(src.Contents()) && Beside(src, dst)
    modifies src, src.Footprint(), dst, dst.Footprint()
    ensures src.Valid() && dst.Valid() && Beside(src, dst)
    ensures fresh(src.Footprint() - old(src.Footprint())) && fresh(dst.Footprint() - old(dst.Footprint()))
    ensures src.freezeStart == old(src.freezeStart) && dst.freezeEnd == old(dst.freezeEnd)
    ensures var s := old(src.Contents());
            var h := ParsedHeader(s);
            if h.Some? && h.value.size + h.value.length <= |s| && h.value.length <= INT_MAX && old(Room(dst, h.value.length)) then
              r == h.value.length && tag == h.value.tag &&
              dst.Contents() == old(dst.Contents()) + s[h.value.size..h.value.size + h.value.length] &&
              src.Contents() == s[h.value.size + h.value.length..]
            else r == -1 && dst.Contents() == old(dst.Contents())
  {
    hide Linked, Flat, ParsedHeader, Signed, Room;
    ghost var s := src.Contents();
    var len, data;
    len, tag, data := HeaderAndPayload(src, dst);
    // a length that is negative as an int is too large as a size
    if len < 0 { return -1, tag; }
    r := MoveOver(src, dst, data);
    ghost var h := ParsedHeader(s).value;
    if r != -1 { assert s[h.size..][h.length..] == s[h.size + h.length..]; }
  }

  /** The end of evtag_unmarshal: the payload, at the beginning of src, goes to dst, if dst takes it. */
  method MoveOver(src: EvBuffer, dst: EvBuffer, data: seq<Byte>) returns (r: int)
    requires src.Valid() && dst.Valid() && !src.freezeStart && Beside(src, dst)
    requires |data| <= |src.Contents()| && |data| <= INT_MAX
    modifies src, src.Footprint(), dst, dst.Footprint()
    ensures src.Valid() && dst.Valid() && Beside(src, dst)
    ensures fresh(src.Footprint() - old(src.Footprint())) && fresh(dst.Footprint() - old(dst.Footprint()))
    ensures src.freezeStart == old(src.freezeStart) && dst.freezeEnd == old(dst.freezeEnd)
    ensures r == if old(Room(dst, |data|)) then |data| else -1
    ensures dst.Contents() == old(dst.Contents()) + if r == -1 then [] else data
    ensures src.Contents() == old(src.Contents())[if r == -1 then 0 else |data|..]
  {
    hide Linked, Flat;
    InMemory(src);
    assert src.Contents()[0..] == src.Contents();
    r := AddTo(dst, data);
    if r == -1 { return -1; }
    InMemory(dst);
    DrainFrom(src, |data|);
    r := |data|;
  }

  function Payloads(items: seq<(nat, seq<Byte>)>): seq<Byte> {
    if items == [] then [] else items[0].1 + Payloads(items[1..])
  }

  /** An encoded tag ends within five bytes. */
  lemma ItemTagEnds(tag: nat, payload: seq<Byte>, tail: seq<Byte>)
    requires tag < UINT32 && |payload| < UINT32
    ensures TagEnds(Item(tag, payload) + tail)
  {
    LengthFits(|payload|);
    TagFits(tag);
    var t, s := EncodedTag(tag), Item(tag, payload) + tail;
    TagRoundTrip(tag, EncodedInt(|payload|) + payload + tail);
    assert s == t + (EncodedInt(|payload|) + payload + tail);
    assert s[|t| - 1] < 128;
  }

  /** evtag_unmarshal for the first item of a stream */
  method NextItem(src: EvBuffer, dst: EvBuffer, ghost tag: nat, ghost payload: seq<Byte>, ghost tail: seq<Byte>, ghost more: nat)
    returns (r: int, t: nat)
    requires src.Valid() && dst.Valid() && !src.freezeStart && Beside(src, dst) && tag < UINT32 && |payload| < UINT32
    requires src.Contents() == Item(tag, payload) + tail && Room(dst, |payload| + more)
    modifies src, src.Footprint(), dst, dst.Footprint()
    ensures src.Valid() && dst.Valid() && Beside(src, dst) && !src.freezeStart
    ensures fresh(src.Footprint() - old(src.Footprint())) && fresh(dst.Footprint() - old(dst.Footprint()))
    ensures if |payload| > INT_MAX then r == -1
            else r == |payload| && t == tag && dst.Contents() == old(dst.Contents()) + payload && src.Contents() == tail && Room(dst, more)
  {
    hide Linked, Flat, Item, ParsedHeader, TagEnds;
    ghost var s := src.Contents();
    ItemTagEnds(tag, payload, tail);
    HeaderRoundTrip(tag, payload, tail);
    ghost var h := ParsedHeader(s).value;
    assert s[h.size..h.size + h.length] == s[h.size..][..h.length] == payload;
    assert s[h.size + h.length..] == s[h.size..][h.length..] == tail;
    r, t := Unmarshal(src, dst);
  }

  /** evtag_unmarshal, again and again: one item after the other, into dst */
  method UnmarshalAll(src: EvBuffer, dst: EvBuffer, n: nat, ghost items: seq<(nat, seq<Byte>)>, ghost rest: seq<Byte>)
    returns (ok: bool, tags: seq<nat>, sizes: seq<int>)
    requires src.Valid() && dst.Valid() && !src.freezeStart && Beside(src, dst)
    requires n == |items| && ItemsFit(items) && src.Contents() == Stream(items) + rest && Room(dst, |Payloads(items)|)
    modifies src, src.Footprint(), dst, dst.Footprint()
    ensures src.Valid() && dst.Valid()
    ensures ok <==> forall i :: i in items ==> |i.1| <= INT_MAX
    ensures ok ==> |tags| == |sizes| == |items| && forall i :: 0 <= i < |items| ==> tags[i] == items[i].0 && sizes[i] == |items[i].1|
    ensures ok ==> dst.Contents() == old(dst.Contents()) + Payloads(items) && src.Contents() == rest
    decreases n
  {
    hide Linked, Flat, Item, Room, Beside, EvBuffer.Valid;
    ok, tags, sizes := true, [], [];
    if n == 0 {
      assert Stream(items) + rest == rest && dst.Contents() + [] == dst.Contents();
    } else {
      ghost var tag, payload, more := items[0].0, items[0].1, items[1..];
      ghost var was := dst.Contents();
      assert items == [items[0]] + more;
      assert src.Contents() == Item(tag, payload) + (Stream(more) + rest);
      var r, t := NextItem(src, dst, tag, payload, Stream(more) + rest, |Payloads(more)|);
      if r == -1 { return false, [], []; }
      ok, tags, sizes := UnmarshalAll(src, dst, n - 1, more, rest);
      tags, sizes := [t] + tags, [r] + sizes;
      assert was + payload + Payloads(more) == was + Payloads(items);
    }
  }

  /** Items that are marshalled into an empty buffer, with bytes behind them, and unmarshalled again: all of it comes
      back, in order, and the bytes behind it stay, exactly when every payload is short enough for an int. */
  method PassItems(buf: EvBuffer, dst: EvBuffer, items: seq<(nat, seq<Byte>)>, rest: seq<Byte>)
    returns (ok: bool, tags: seq<nat>, sizes: seq<int>)
    requires buf.Valid() && dst.Valid() && !buf.freezeStart && Beside(buf, dst) && ItemsFit(items)
    requires buf.Contents() == [] && Room(buf, |Stream(items)| + |rest|) && Room(dst, |Payloads(items)|)
    modifies buf, buf.Footprint(), dst, dst.Footprint()
    ensures buf.Valid() && dst.Valid()
    ensures ok <==> forall i :: i in items ==> |i.1| <= INT_MAX
    ensures ok ==> |tags| == |sizes| == |items| && forall i :: 0 <= i < |items| ==> tags[i] == items[i].0 && sizes[i] == |items[i].1|
    ensures ok ==> dst.Contents() == old(dst.Contents()) + Payloads(items) && buf.Contents() == rest
  {
    hide Linked, Flat, Item, Stream, Payloads;
    InMemory(dst);
    MarshalAll(buf, items);
    var r := AddTo(buf, rest);
    InMemory(buf);
    InMemory(dst);
    ok, tags, sizes := UnmarshalAll(buf, dst, |items|, items, rest);
  }

  /** The first bytes of a buffer, made contiguous */
  method FirstBytes(buf: EvBuffer, n: nat) returns (data: seq<Byte>)
    requires buf.Valid() && n <= |buf.Contents()| && n <= MAX_BLOCK
    modifies buf, buf.Footprint()
    ensures buf.Valid() && fresh(buf.Footprint() - old(buf.Footprint())) && buf.Contents() == old(buf.Contents())
    ensures data == buf.Contents()[..n]
    ensures buf.freezeStart == old(buf.freezeStart) && buf.freezeEnd == old(buf.freezeEnd)
  {
    hide Linked, Flat, MemoryOf;
    data := [];
    if n > 0 {
      var d, at := PullupAt(buf, 0, n);
      data := d[at..at + n];
    }
  }

  lemma {:induction false} DigitsBound(s: seq<Byte>, lo: nat, hi: nat)
    requires hi / 2 < |s| && 0 < lo <= hi + 1
    ensures Digits(s, lo, hi) < Power16(hi + 1 - lo)
    decreases hi + 1 - lo
  {
    if lo <= hi { DigitsBound(s, lo + 1, hi); }
  }

  lemma {:induction false} PowerGrows(a: nat, b: nat)
    requires a <= b
    ensures Power16(a) <= Power16(b)
    decreases b
  {
    if a < b { PowerGrows(a, b - 1); }
  }

  /** The length in a header has 32 bits; as an int it is itself, or negative. */
  lemma HeaderLength(s: seq<Byte>)
    ensures var h := ParsedHeader(s);
            h.Some? ==> h.value.length < UINT32
    ensures var h := ParsedHeader(s);
            h.Some? && h.value.length <= INT_MAX ==> Signed(h.value.length, INT_MODULUS) == h.value.length
    ensures var h := ParsedHeader(s);
            h.Some? && h.value.length > INT_MAX ==> Signed(h.value.length, INT_MODULUS) < 0
  {
    var h := ParsedHeader(s);
    if h.Some? {
      var t := s[TagLength(s).value..];
      var nibbles := t[0] / 16 + 1;
      DigitsBound(t, 1, nibbles);
      PowerGrows(nibbles, 8);
      PowersAre();
    }
  }

  /** evtag_peek_length and, with whole unset, evtag_payload_length: how many bytes the next item, or its payload,
      takes.  The sum is an unsigned 32-bit number. */
  method PeekLength(buf: EvBuffer, whole: bool) returns (r: int, length: nat)
    requires buf.Valid() && !buf.freezeStart && TagEnds(buf.Contents())
    modifies buf, buf.Footprint()
    ensures buf.Valid() && fresh(buf.Footprint() - old(buf.Footprint())) && buf.Contents() == old(buf.Contents())
    ensures buf.freezeStart == old(buf.freezeStart) && buf.freezeEnd == old(buf.freezeEnd)
    ensures match ParsedHeader(buf.Contents())
            case None => r == -1
            case Some(h) => r == 0 && length == (if whole then (h.length + h.size) % UINT32 else h.length)
  {
    hide Linked, Flat, ParsedInt, TagLength, TagValue;
    var len, tag := DecodeTagInternal(buf, false);
    if len == -1 { return -1, 0; }
    var res;
    res, length := DecodeIntInternal(buf, len, 8);
    if res == -1 { return -1, length; }
    if whole { length := (length + res + len) % UINT32; }
    r := 0;
  }

  /** The peeked length is what the item occupies, exactly if that is a 32-bit number. */
  lemma PeekExactly(tag: nat, payload: seq<Byte>, rest: seq<Byte>)
    requires tag < UINT32 && |payload| < UINT32
    ensures var h := ParsedHeader(Item(tag, payload) + rest);
            h.Some? && ((h.value.length + h.value.size) % UINT32 == |Item(tag, payload)| <==> |Item(tag, payload)| < UINT32)
  {
    hide ParsedHeader, Item;
    HeaderRoundTrip(tag, payload, rest);
  }

  /** evtag_consume: an item is thrown away. */
  method Consume(buf: EvBuffer) returns (r: int)
    requires buf.Valid() && !buf.freezeStart && TagEnds(buf.Contents())
    modifies buf, buf.Footprint()
    ensures buf.Valid() && fresh(buf.Footprint() - old(buf.Footprint()))
    ensures var s := old(buf.Contents());
            var h := ParsedHeader(s);
            h.Some? && h.value.size + h.value.length <= |s| && h.value.length <= INT_MAX ==>
              r == 0 && buf.Contents() == s[h.value.size + h.value.length..]
  {
    hide Linked, Flat, ParsedHeader, Signed, TagEnds, EvBuffer.Valid;
    HeaderLength(buf.Contents());
    var len, tag := UnmarshalHeader(buf);
    if len == -1 { return -1; }
    DrainPayload(buf, len);
    r := 0;
  }

  /** evbuffer_drain takes a negative length for a large one, and drains everything. */
  method DrainPayload(buf: EvBuffer, len: int)
    requires buf.Valid() && !buf.freezeStart
    modifies buf, buf.Footprint()
    ensures buf.Valid() && fresh(buf.Footprint() - old(buf.Footprint()))
    ensures buf.Contents() == if 0 <= len <= |old(buf.Contents())| then old(buf.Contents())[len..] else []
  {
    hide Linked, Flat;
    var n := if len < 0 || len > buf.totalLen then buf.totalLen else len;
    DrainFrom(buf, n);
  }

  /** The integer in the item at the beginning of s, how many bytes encode it, and what follows the item */
  function ParsedIntItem(s: seq<Byte>, needTag: nat, maxNibbles: nat): Option<(nat, nat, seq<Byte>)> {
    match ParsedHeader(s)
    case None => None
    case Some(h) =>
      if h.tag != needTag || h.size + h.length > |s| then None
      else match ParsedInt(s[h.size..], maxNibbles)
           case None => None
           case Some(p) => if p.1 > h.length then None else Some((p.0, p.1, s[h.size + h.length..]))
  }

  /** evtag_unmarshal_int and evtag_unmarshal_int64 */
  method UnmarshalInt(buf: EvBuffer, needTag: nat, maxNibbles: nat) returns (r: int, integer: nat)
    requires buf.Valid() && !buf.freezeStart && TagEnds(buf.Contents()) && (maxNibbles == 8 || maxNibbles == 16)
    modifies buf, buf.Footprint()
    ensures buf.Valid() && fresh(buf.Footprint() - old(buf.Footprint()))
    ensures match ParsedIntItem(old(buf.Contents()), needTag, maxNibbles)
            case None => r == -1
            case Some(p) => r == p.1 && integer == p.0 && buf.Contents() == p.2
  {
    hide Linked, Flat, ParsedInt, ParsedHeader;
    ghost var s := buf.Contents();
    integer := 0;
    var len := HeaderOf(buf, needTag);
    if len < 0 { return -1, 0; }
    ghost var h := ParsedHeader(s).value;
    assert s[h.size..][len..] == s[h.size + h.length..];
    assert buf.Contents()[0..] == buf.Contents();
    r, integer := DecodeIntInternal(buf, 0, maxNibbles);
    DrainFrom(buf, len);
    if r < 0 || r > len { return -1, integer; }
  }

  /** The header of an item with the tag that is needed, taken out of the buffer: the length of its payload, all
      of which is in the buffer; or -1. */
  method HeaderOf(buf: EvBuffer, needTag: nat) returns (len: int)
    requires buf.Valid() && !buf.freezeStart && TagEnds(buf.Contents())
    modifies buf, buf.Footprint()
    ensures buf.Valid() && fresh(buf.Footprint() - old(buf.Footprint()))
    ensures buf.freezeStart == old(buf.freezeStart)
    ensures var s := old(buf.Contents());
            var h := ParsedHeader(s);
            if h.Some? && h.value.tag == needTag && h.value.size + h.value.length <= |s| then
              len == h.value.length && buf.Contents() == s[h.value.size..]
            else len == -1
  {
    hide Linked, Flat, ParsedInt, TagLength, TagValue;
    var e, tag := DecodeTagInternal(buf, true);
    if e == -1 { return -1; }
    if needTag != tag { return -1; }
    var d, n := DecodeInt(buf, 8);
    if d == -1 { return -1; }
    if buf.totalLen < n { return -1; }
    len := n;
  }

  /** 32-bit and 64-bit integers survive the trip through an item. */
  lemma IntItemRoundTrip(tag: nat, n: nat, rest: seq<Byte>, maxNibbles: nat)
    requires tag < UINT32 && 0 < maxNibbles <= 16 && n < Power16(maxNibbles)
    ensures Nibbles(n) <= 16
    ensures ParsedIntItem(Item(tag, EncodedInt(n)) + rest, tag, maxNibbles) == Some((n, |EncodedInt(n)|, rest))
  {
    NibblesBound(n, maxNibbles);
    HeaderRoundTrip(tag, EncodedInt(n), rest);
    IntRoundTrip(n, rest, maxNibbles);
    hide ParsedHeader, ParsedInt, EncodedInt, Item, Nibbles, Power16;
    var s := Item(tag, EncodedInt(n)) + rest;
    var h := ParsedHeader(s).value;
    assert s[h.size + h.length..] == s[h.size..][h.length..] == rest;
  }

  /** The time value in the item at the beginning of s, and what follows the item */
  function ParsedTimevalItem(s: seq<Byte>, needTag: nat): Option<(nat, nat, seq<Byte>)> {
    match ParsedHeader(s)
    case None => None
    case Some(h) =>
      if h.tag != needTag || h.size + h.length > |s| || h.length > INT_MAX then None
      else match ParsedInt(s[h.size..], 8)
           case None => None
           case Some(p) =>
             match ParsedInt(s[h.size..][p.1..], 8)
             case None => None
             case Some(q) => if p.1 + q.1 > h.length then None else Some((p.0, q.0, s[h.size + h.length..]))
  }

  /** evtag_unmarshal_timeval */
  method UnmarshalTimeval(buf: EvBuffer, needTag: nat) returns (r: int, sec: nat, usec: nat)
    requires buf.Valid() && !buf.freezeStart && TagEnds(buf.Contents())
    modifies buf, buf.Footprint()
    ensures buf.Valid() && fresh(buf.Footprint() - old(buf.Footprint()))
    ensures match ParsedTimevalItem(old(buf.Contents()), needTag)
            case None => r == -1
            case Some(p) => r == 0 && sec == p.0 && usec == p.1 && buf.Contents() == p.2
  {
    hide Linked, Flat, ParsedInt, ParsedHeader, Signed;
    ghost var s := buf.Contents();
    HeaderLength(s);
    sec, usec := 0, 0;
    var len, tag := UnmarshalHeader(buf);
    if len == -1 { return -1, 0, 0; }
    r, sec, usec := TimevalBody(buf, len, tag == needTag);
    ghost var h := ParsedHeader(s).value;
    if len >= 0 { assert s[h.size..][len..] == s[h.size + h.length..]; }
  }

  /** evtag_unmarshal_timeval behind the header; evbuffer_drain takes a negative length for a large one. */
  method TimevalBody(buf: EvBuffer, len: int, wanted: bool) returns (r: int, sec: nat, usec: nat)
    requires buf.Valid() && !buf.freezeStart && len <= |buf.Contents()|
    modifies buf, buf.Footprint()
    ensures buf.Valid() && fresh(buf.Footprint() - old(buf.Footprint()))
    ensures len >= 0 ==> buf.Contents() == old(buf.Contents())[len..]
    ensures var s := old(buf.Contents());
            var p := ParsedInt(s, 8);
            var q := if p.Some? then ParsedInt(s[p.value.1..], 8) else None;
            if wanted && p.Some? && q.Some? && p.value.1 + q.value.1 <= len then
              r == 0 && sec == p.value.0 && usec == q.value.0
            else r == -1
  {
    hide Linked, Flat, ParsedInt;
    r, sec, usec := TimevalFields(buf, if len < 0 then -1 else len, wanted);
    DrainFrom(buf, if len < 0 then buf.totalLen else len);
  }

  /** The two integers of a time value, which must not be longer than the payload; a length of -1 stands for a
      negative one. */
  method TimevalFields(buf: EvBuffer, len: int, wanted: bool) returns (r: int, sec: nat, usec: nat)
    requires buf.Valid() && !buf.freezeStart && -1 <= len
    modifies buf, buf.Footprint()
    ensures buf.Valid() && fresh(buf.Footprint() - old(buf.Footprint())) && buf.Contents() == old(buf.Contents())
    ensures buf.freezeStart == old(buf.freezeStart)
    ensures var s := buf.Contents();
            var p := ParsedInt(s, 8);
            var q := if p.Some? then ParsedInt(s[p.value.1..], 8) else None;
            if wanted && p.Some? && q.Some? && p.value.1 + q.value.1 <= len then
              r == 0 && sec == p.value.0 && usec == q.value.0
            else r == -1
  {
    hide Linked, Flat, ParsedInt;
    r, sec, usec := -1, 0, 0;
    if !wanted { return; }
    ghost var s := buf.Contents();
    assert s[0..] == s;
    var offset, integer := DecodeIntInternal(buf, 0, 8);
    if offset == -1 { return; }
    sec := integer;
    var offset2;
    ShortInt(s);
    offset2, integer := DecodeIntInternal(buf, offset, 8);
    if offset2 == -1 { return; }
    usec := integer;
    if offset + offset2 > len { return; }
    r := 0;
  }

  lemma ShortInt(s: seq<Byte>)
    ensures var p := ParsedInt(s, 8); p.Some? ==> p.value.1 <= 5
  {
  }

  /** Time values survive. */
  lemma TimevalRoundTrip(tag: nat, sec: nat, usec: nat, rest: seq<Byte>)
    requires tag < UINT32 && sec < UINT32 && usec < UINT32
    ensures |TimevalBytes(sec, usec)| <= 10
    ensures ParsedTimevalItem(Item(tag, TimevalBytes(sec, usec)) + rest, tag) == Some((sec, usec, rest))
  {
    LengthFits(sec);
    LengthFits(usec);
    PowersAre();
    var payload, a, c := TimevalBytes(sec, usec), EncodedInt(sec), EncodedInt(usec);
    HeaderRoundTrip(tag, payload, rest);
    IntRoundTrip(sec, c + rest, 8);
    IntRoundTrip(usec, rest, 8);
    hide ParsedHeader, ParsedInt, EncodedInt, Item, Nibbles, Power16;
    var s := Item(tag, payload) + rest;
    var h := ParsedHeader(s).value;
    Associate(a, c, rest);
    TailOf(s, payload, rest, h.size);
    TailOf(a + (c + rest), a, c + rest, 0);
  }

  lemma TailOf(s: seq<Byte>, a: seq<Byte>, b: seq<Byte>, k: nat)
    requires k <= |s| && s[k..] == a + b
    ensures s[k + |a|..] == b && s[k..][|a|..] == b
  {
    assert s[k + |a|..] == s[k..][|a|..];
  }
}
