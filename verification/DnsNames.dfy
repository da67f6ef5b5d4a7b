/** Domain names in DNS packets, with the compression of section 4.1.4 of RFC 1035. */
module DnsNames {
  import opened Bytes

  const DOT: Byte := 46
  const MAX_LABELS := 128

  /** A domain name as a C string, without its terminator. */
  type Name = seq<Byte>

  // ----- names and labels -----

  /** strchr(name, '.'): the index of the first dot, or the length of the name. */
  function FirstDot(name: Name): (k: nat)
    ensures k <= |name| && DOT !in name[..k] && (k < |name| ==> name[k] == DOT)
  {
    if name == [] || name[0] == DOT then 0 else
      var k := FirstDot(name[1..]);
      assert name[..k + 1] == [name[0]] + name[1..][..k];
      k + 1
  }

  /** The labels of a name, up to the first that is empty: an empty label ends the name on the wire. */
  function Labels(name: Name): (r: seq<Name>)
    ensures forall i :: 0 <= i < |r| ==> r[i] != []
    decreases |name|
  {
    var k := FirstDot(name);
    if k == 0 then [] else if k == |name| then [name] else [name[..k]] + Labels(name[k + 1..])
  }

  /** Labels joined by dots. */
  function Text(labels: seq<Name>): Name
    decreases |labels|
  {
    if labels == [] then [] else if |labels| == 1 then labels[0] else labels[0] + [DOT] + Text(labels[1..])
  }

  predicate AllNonempty(name: Name)
    decreases |name|
  {
    var k := FirstDot(name);
    k > 0 && (k < |name| ==> AllNonempty(name[k + 1..]))
  }

  /** No label is empty, or the name is that of the root. */
  predicate Proper(name: Name) {
    name == [] || AllNonempty(name)
  }

  /** Exactly the proper names are what their labels say. */
  lemma {:induction false} ProperExactly(name: Name)
    ensures Text(Labels(name)) == name <==> Proper(name)
    ensures |Text(Labels(name))| <= |name|
    ensures AllNonempty(name) ==> Labels(name) != []
    decreases |name|
  {
    var k := FirstDot(name);
    if 0 < k < |name| {
      var rest := name[k + 1..];
      ProperExactly(rest);
      var ls := Labels(rest);
      assert name == name[..k] + [DOT] + rest;
      assert ([name[..k]] + ls)[1..] == ls;
      if ls == [] {
        assert Text([name[..k]]) == name[..k];
      } else {
        assert Text([name[..k]] + ls) == name[..k] + [DOT] + Text(ls);
        assert Text(Labels(name)) == name ==> Text(ls) == rest by {
          assert (name[..k] + [DOT] + Text(ls))[k + 1..] == Text(ls);
        }
      }
    }
  }

  // ----- the wire format -----

  /** The offset in a compression pointer. */
  function Pointer(hi: Byte, lo: Byte): nat {
    (hi % 64) * 256 + lo
  }

  /** The labels are encoded at pos, in bytes before bound.  A pointer leads to a place before it, and what it
      leads to is encoded in bytes before the pointer. */
  ghost predicate Encodes(b: seq<Byte>, pos: nat, bound: nat, labels: seq<Name>)
    decreases bound, |labels|
  {
    && pos < bound <= |b|
    && if b[pos] >= 192 then
         pos + 2 <= bound && Pointer(b[pos], b[pos + 1]) < pos && Encodes(b, Pointer(b[pos], b[pos + 1]), pos, labels)
       else if labels == [] then
         b[pos] == 0
       else
         var l := labels[0];
         0 < |l| <= 63 && b[pos] == |l| && pos + 1 + |l| <= bound && b[pos + 1..pos + 1 + |l|] == l &&
         Encodes(b, pos + 1 + |l|, bound, labels[1..])
  }

  /** The index behind an encoding: behind its first pointer, or behind its zero byte. */
  ghost function NameEnd(b: seq<Byte>, pos: nat, bound: nat, labels: seq<Name>): nat
    requires Encodes(b, pos, bound, labels)
    decreases |labels|
  {
    if b[pos] >= 192 then pos + 2
    else if labels == [] then pos + 1
    else NameEnd(b, pos + 1 + |labels[0]|, bound, labels[1..])
  }

  /** NameEnd, where there is an encoding */
  ghost function EndAt(b: seq<Byte>, pos: nat, bound: nat, labels: seq<Name>): nat {
    if Encodes(b, pos, bound, labels) then NameEnd(b, pos, bound, labels) else 0
  }

  /** An encoding depends on the bytes before its bound only. */
  lemma {:induction false} EncodesFrame(b: seq<Byte>, c: seq<Byte>, pos: nat, bound: nat, bound2: nat, labels: seq<Name>)
    requires Encodes(b, pos, bound, labels) && bound <= bound2 <= |c| && b[..bound] == c[..bound]
    ensures Encodes(c, pos, bound2, labels)
    ensures NameEnd(c, pos, bound2, labels) == NameEnd(b, pos, bound, labels)
    decreases bound, |labels|
  {
    assert forall i :: 0 <= i < bound ==> b[i] == b[..bound][i] == c[i];
    if b[pos] >= 192 {
      assert b[..pos] == c[..pos];
      EncodesFrame(b, c, Pointer(b[pos], b[pos + 1]), pos, pos, labels);
    } else if labels != [] {
      var n := |labels[0]|;
      assert b[pos + 1..pos + 1 + n] == c[pos + 1..pos + 1 + n];
      EncodesFrame(b, c, pos + 1 + n, bound, bound2, labels[1..]);
    }
  }

  /** The labels lie one behind the other from pos to end. */
  ghost predicate Run(b: seq<Byte>, pos: nat, labels: seq<Name>, end: nat)
    decreases |labels|
  {
    if labels == [] then pos == end <= |b|
    else
      var l := labels[0];
      0 < |l| <= 63 && pos + 1 + |l| <= end <= |b| && b[pos] == |l| && b[pos + 1..pos + 1 + |l|] == l &&
      Run(b, pos + 1 + |l|, labels[1..], end)
  }

  lemma {:induction false} RunFrame(b: seq<Byte>, c: seq<Byte>, pos: nat, labels: seq<Name>, end: nat)
    requires Run(b, pos, labels, end) && end <= |c| && b[..end] == c[..end]
    ensures Run(c, pos, labels, end)
    decreases |labels|
  {
    if labels != [] {
      var n := |labels[0]|;
      assert forall i :: 0 <= i < end ==> b[i] == b[..end][i] == c[i];
      assert b[pos + 1..pos + 1 + n] == c[pos + 1..pos + 1 + n];
      RunFrame(b, c, pos + 1 + n, labels[1..], end);
    }
  }

  /** A run followed by an encoding of the rest is an encoding. */
  lemma {:induction false} RunThen(b: seq<Byte>, pos: nat, labels: seq<Name>, end: nat, bound: nat, rest: seq<Name>)
    requires Run(b, pos, labels, end) && Encodes(b, end, bound, rest)
    ensures Encodes(b, pos, bound, labels + rest)
    ensures NameEnd(b, pos, bound, labels + rest) == NameEnd(b, end, bound, rest)
    decreases |labels|
  {
    if labels == [] {
      assert labels + rest == rest;
    } else {
      RunThen(b, pos + 1 + |labels[0]|, labels[1..], end, bound, rest);
      assert (labels + rest)[1..] == labels[1..] + rest;
    }
  }

  /** A run can grow by one label. */
  lemma {:induction false} RunMore(b: seq<Byte>, pos: nat, labels: seq<Name>, end: nat, l: Name, end2: nat)
    requires Run(b, pos, labels, end) && Run(b, end, [l], end2)
    ensures Run(b, pos, labels + [l], end2)
    decreases |labels|
  {
    if labels == [] {
      assert labels + [l] == [l];
    } else {
      RunEnds(b, pos, labels, end);
      RunMore(b, pos + 1 + |labels[0]|, labels[1..], end, l, end2);
      assert (labels + [l])[1..] == labels[1..] + [l];
    }
  }

  lemma RunEnds(b: seq<Byte>, pos: nat, labels: seq<Name>, end: nat)
    requires Run(b, pos, labels, end)
    ensures pos <= end <= |b|
  {
  }

  // ----- decoding -----

  lemma {:induction false} TextSnoc(done: seq<Name>, l: Name)
    ensures Text(done + [l]) == if done == [] then l else Text(done) + [DOT] + l
    decreases |done|
  {
    if |done| > 1 {
      TextSnoc(done[1..], l);
      assert (done + [l])[1..] == done[1..] + [l];
    } else if |done| == 1 {
      assert (done + [l])[1..] == [l];
      assert Text([l]) == l;
    }
  }

  lemma {:induction false} TextGrows(done: seq<Name>, more: seq<Name>)
    ensures |Text(done)| <= |Text(done + more)|
    decreases |more|
  {
    if more == [] {
      assert done + more == done;
    } else {
      TextSnoc(done, more[0]);
      TextGrows(done + [more[0]], more[1..]);
      assert done + more == (done + [more[0]]) + more[1..];
    }
  }

  /** memcpy */
  method Copy(dst: array<Byte>, at: nat, src: seq<Byte>)
    requires at + |src| <= dst.Length
    modifies dst
    ensures dst[..] == old(dst[..])[..at] + src + old(dst[..])[at + |src|..]
  {
    var i := 0;
    while i < |src|
      invariant 0 <= i <= |src|
      invariant forall k :: 0 <= k < dst.Length ==> dst[k] == if at <= k < at + i then src[k - at] else old(dst[k])
    {
      dst[at + i] := src[i];
      i := i + 1;
    }
  }

  /** How far the decoder has come: todo is left of the labels, in bytes from j on and before bound, and out
      is the text of done. */
  ghost predicate Decoding(packet: seq<Byte>, length: nat, j: nat, bound: nat, labels: seq<Name>, todo: seq<Name>,
                           done: seq<Name>, out: seq<Byte>, jumps: nat) {
    && Encodes(packet, j, bound, todo) && jumps + bound <= length
    && done + todo == labels && Text(done) == out
    && (out == [] <==> done == []) && (todo == [] || |labels| > 0)
  }

  lemma DecodeStart(packet: seq<Byte>, length: nat, j: nat, bound: nat, labels: seq<Name>)
    requires Encodes(packet, j, bound, labels) && bound <= length
    ensures Decoding(packet, length, j, bound, labels, labels, [], [], 0)
  {
  }

  lemma DecodingInside(packet: seq<Byte>, length: nat, j: nat, bound: nat, labels: seq<Name>, todo: seq<Name>,
                       done: seq<Name>, out: seq<Byte>, jumps: nat)
    requires Decoding(packet, length, j, bound, labels, todo, done, out, jumps)
    ensures j < length <= |packet| || j < bound <= length
    ensures j < length && Encodes(packet, j, bound, todo)
  {
  }

  /** The decoder meets a label. */
  lemma DecodeLabel(packet: seq<Byte>, length: nat, j: nat, bound: nat, labels: seq<Name>, todo: seq<Name>,
                    done: seq<Name>, out: seq<Byte>, jumps: nat)
    requires Decoding(packet, length, j, bound, labels, todo, done, out, jumps)
    requires 0 < packet[j] < 64
    ensures j + 1 + packet[j] <= length && todo != [] && packet[j + 1..j + 1 + packet[j]] == todo[0]
    ensures var out2 := (if out == [] then out else out + [DOT]) + todo[0];
            Decoding(packet, length, j + 1 + packet[j], bound, labels, todo[1..], done + [todo[0]], out2, jumps) &&
            |out2| <= |Text(labels)|
    ensures NameEnd(packet, j, bound, todo) == NameEnd(packet, j + 1 + packet[j], bound, todo[1..])
  {
    TextSnoc(done, todo[0]);
    TextGrows(done + [todo[0]], todo[1..]);
    assert done + todo == (done + [todo[0]]) + todo[1..];
  }

  /** The decoder meets a pointer. */
  lemma DecodePointer(packet: seq<Byte>, length: nat, j: nat, bound: nat, labels: seq<Name>, todo: seq<Name>,
                      done: seq<Name>, out: seq<Byte>, jumps: nat)
    requires Decoding(packet, length, j, bound, labels, todo, done, out, jumps)
    requires packet[j] >= 64
    ensures j + 2 <= length && jumps + 1 <= length
    ensures Decoding(packet, length, Pointer(packet[j], packet[j + 1]), j, labels, todo, done, out, jumps + 1)
    ensures Pointer(packet[j], packet[j + 1]) < j && NameEnd(packet, j, bound, todo) == j + 2
  {
  }

  /** The decoder meets the end. */
  lemma DecodeEnd(packet: seq<Byte>, length: nat, j: nat, bound: nat, labels: seq<Name>, todo: seq<Name>,
                  done: seq<Name>, out: seq<Byte>, jumps: nat)
    requires Decoding(packet, length, j, bound, labels, todo, done, out, jumps)
    requires packet[j] == 0
    ensures out == Text(labels) && NameEnd(packet, j, bound, todo) == j + 1
  {
    assert done + [] == done;
  }

  /** Write a label, behind a dot unless it is the first: the new end of the text, or -1 if the text and its
      terminator do not fit. */
  method PutLabel(nameOut: array<Byte>, nameOutLen: nat, cp: nat, bytes: seq<Byte>) returns (cp2: int)
    requires cp <= nameOutLen <= nameOut.Length
    modifies nameOut
    ensures var n := cp + (if cp == 0 then 0 else 1) + |bytes|;
            if n >= nameOutLen then cp2 == -1
            else cp2 == n && nameOut[..n] == old(nameOut[..cp]) + (if cp == 0 then [] else [DOT]) + bytes
  {
    var at := cp;
    if cp != 0 {
      if cp + 1 >= nameOutLen { return -1; }
      nameOut[cp] := DOT;
      at := at + 1;
    }
    if at + |bytes| >= nameOutLen { return -1; }
    assert nameOut[..at] == old(nameOut[..cp]) + (if cp == 0 then [] else [DOT]);
    Copy(nameOut, at, bytes);
    cp2 := at + |bytes|;
  }

  /** name_parse: 0 with the name, zero-terminated, in nameOut, and the index behind its encoding; or -1.  The
      bytes of a label are copied without a look at the length of the packet, so up to 63 bytes behind it must
      be readable.  If labels are what the packet encodes at idx, then they are what is written, whenever
      nameOut has room for them; the limit on jumps does not come into play. */
  method NameParse(packet: seq<Byte>, length: nat, idx: nat, nameOut: array<Byte>, nameOutLen: nat,
                   ghost bound: nat, ghost labels: seq<Name>)
    returns (r: int, idx2: nat)
    requires length + 63 <= |packet| && nameOutLen <= nameOut.Length
    modifies nameOut
    ensures r == 0 || r == -1
    ensures Encodes(packet, idx, bound, labels) && bound <= length ==>
              r == (if |Text(labels)| < nameOutLen then 0 else -1) &&
              (r == 0 ==> nameOut[..|Text(labels)| + 1] == Text(labels) + [0] && idx2 == NameEnd(packet, idx, bound, labels))
  {
    hide Encodes, Text, NameEnd, Decoding;
    ghost var good := Encodes(packet, idx, bound, labels) && bound <= length;
    ghost var todo, done, bd: nat, end := labels, [], bound, 0;
    var nameEnd, j: nat, ptrCount, cp := -1, idx, 0, 0;
    if good {
      DecodeStart(packet, length, idx, bound, labels);
      end := EndAt(packet, idx, bound, labels);
    }
    idx2 := idx;
    while true
      invariant 0 <= cp <= nameOutLen && 0 <= ptrCount <= length && nameEnd >= -1
      invariant good ==> Decoding(packet, length, j, bd, labels, todo, done, nameOut[..cp], ptrCount)
      invariant good ==> end == if nameEnd < 0 then EndAt(packet, j, bd, todo) else nameEnd
      invariant good ==> cp <= |Text(labels)|
      decreases length - ptrCount, length - j
    {
      if good { DecodingInside(packet, length, j, bd, labels, todo, done, nameOut[..cp], ptrCount); }
      if j >= length { return -1, idx; }
      var labelLen := packet[j];
      if labelLen == 0 { break; }
      if labelLen >= 64 {
        if good {
          DecodePointer(packet, length, j, bd, labels, todo, done, nameOut[..cp], ptrCount);
          bd := j;
        }
        if j + 1 >= length { return -1, idx; }
        if nameEnd < 0 { nameEnd := j + 2; }
        j := Pointer(labelLen, packet[j + 1]);
        if j >= length { return -1, idx; }
        ptrCount := ptrCount + 1;
        if ptrCount > length { return -1, idx; }
        continue;
      }
      if good { DecodeLabel(packet, length, j, bd, labels, todo, done, nameOut[..cp], ptrCount); }
      cp := PutLabel(nameOut, nameOutLen, cp, packet[j + 1..j + 1 + labelLen]);
      if cp < 0 { return -1, idx; }
      if good { todo, done := todo[1..], done + [todo[0]]; }
      j := j + 1 + labelLen;
    }
    if good { DecodeEnd(packet, length, j, bd, labels, todo, done, nameOut[..cp], ptrCount); }
    if cp >= nameOutLen { return -1, idx; }
    nameOut[cp] := 0;
    r, idx2 := 0, if nameEnd < 0 then j + 1 else nameEnd;
  }

  // ----- encoding -----

  /** struct dnslabel_entry: a suffix of a name, and where it is encoded */
  datatype Entry = Entry(v: Name, pos: nat)

  /** struct dnslabel_table; n_labels is the length of labels */
  class LabelTable {
    var labels: seq<Entry>

    constructor ()
      ensures labels == []
    {
      labels := [];
    }

    /** dnslabel_table_get_pos */
    method GetPos(name: Name) returns (pos: int)
      ensures if pos >= 0 then Entry(name, pos) in labels else forall e :: e in labels ==> e.v != name
    {
      var i := 0;
      while i < |labels|
        invariant 0 <= i <= |labels| && forall k :: 0 <= k < i ==> labels[k].v != name
      {
        if labels[i].v == name { return labels[i].pos; }
        i := i + 1;
      }
      pos := -1;
    }

    /** dnslabel_table_add */
    method Add(name: Name, pos: nat) returns (r: int)
      modifies this
      ensures r == if |old(labels)| == MAX_LABELS then -1 else 0
      ensures labels == if r == 0 then old(labels) + [Entry(name, pos)] else old(labels)
    {
      if |labels| == MAX_LABELS { return -1; }
      labels := labels + [Entry(name, pos)];
      r := 0;
    }
  }

  /** Every suffix in the table is encoded where the table says, in bytes before limit. */
  ghost predicate TableOk(labels: seq<Entry>, b: seq<Byte>, limit: nat) {
    |labels| <= MAX_LABELS && forall e :: e in labels ==> Encodes(b, e.pos, limit, Labels(e.v))
  }

  /** What can be pointed at: offsets have 14 bits. */
  const OFFSET_LIMIT := 0x4000

  predicate Low(labels: seq<Entry>) {
    forall e :: e in labels ==> e.pos < OFFSET_LIMIT
  }

  /** htons(ref | 0xc000), for the 16 bits that are written */
  function PointerWord(ref: nat): nat {
    0xc000 + ref % 0x4000
  }

  /** A written pointer begins with two one bits, and leads back to ref exactly if ref fits into 14 bits. */
  lemma PointerExactly(ref: nat)
    ensures 192 <= PointerWord(ref) / 256 < 256
    ensures Pointer(PointerWord(ref) / 256, PointerWord(ref) % 256) == ref % OFFSET_LIMIT
    ensures Pointer(PointerWord(ref) / 256, PointerWord(ref) % 256) == ref <==> ref < OFFSET_LIMIT
  {
  }

  /** An encoding that is under way: it is complete, or its labels lie one behind the other up to j, and todo
      are the ones that are missing. */
  ghost predicate Pending(b: seq<Byte>, pos: nat, labels: seq<Name>, j: nat, todo: seq<Name>) {
    || Encodes(b, pos, j, labels)
    || Open(b, pos, labels, j, todo)
  }

  ghost predicate Open(b: seq<Byte>, pos: nat, labels: seq<Name>, j: nat, todo: seq<Name>) {
    var n := |labels| - |todo|;
    0 <= n && labels == labels[..n] + todo && Run(b, pos, labels[..n], j)
  }

  /** With the rest encoded at j, an open encoding is complete. */
  lemma Close(b: seq<Byte>, pos: nat, labels: seq<Name>, j: nat, todo: seq<Name>, bound: nat)
    requires Pending(b, pos, labels, j, todo) && Encodes(b, j, bound, todo)
    ensures Encodes(b, pos, bound, labels)
    ensures Open(b, pos, labels, j, todo) ==> NameEnd(b, pos, bound, labels) == NameEnd(b, j, bound, todo)
  {
    if Open(b, pos, labels, j, todo) {
      RunThen(b, pos, labels[..|labels| - |todo|], j, bound, todo);
    } else {
      EncodesInside(b, j, bound, todo);
      EncodesFrame(b, b, pos, j, bound, labels);
    }
  }

  lemma EncodesInside(b: seq<Byte>, pos: nat, bound: nat, labels: seq<Name>)
    requires Encodes(b, pos, bound, labels)
    ensures pos < bound <= |b|
  {
  }

  /** What is under way goes on when the next label is written. */
  lemma Advance(b: seq<Byte>, c: seq<Byte>, pos: nat, labels: seq<Name>, j: nat, todo: seq<Name>, j2: nat)
    requires Pending(b, pos, labels, j, todo) && todo != [] && j <= j2 <= |c| && j <= |b| && b[..j] == c[..j]
    requires Run(c, j, [todo[0]], j2)
    ensures Pending(c, pos, labels, j2, todo[1..])
    ensures Open(b, pos, labels, j, todo) ==> Open(c, pos, labels, j2, todo[1..])
  {
    if Open(b, pos, labels, j, todo) {
      var n := |labels| - |todo|;
      RunFrame(b, c, pos, labels[..n], j);
      RunMore(c, pos, labels[..n], j, todo[0], j2);
      assert labels[..n + 1] == labels[..n] + [todo[0]];
    } else {
      EncodesFrame(b, c, pos, j, j2, labels);
    }
  }

  /** Where an encoding starts, everything is to be done. */
  lemma Start(b: seq<Byte>, j: nat, labels: seq<Name>)
    requires j <= |b|
    ensures Open(b, j, labels, j, labels)
  {
    assert labels[..0] == [] && labels == [] + labels;
  }

  /** The encoding of e is under way at j, with rest still to be written. */
  ghost predicate EntryPending(b: seq<Byte>, e: Entry, j: nat, rest: Name) {
    Pending(b, e.pos, Labels(e.v), j, Labels(rest)) && |e.v| > |rest|
  }

  /** The state of the encoder: the entries that were in the table before are encoded before j0; the new ones,
      and the whole name, are under way at j with the rest of the name still to be written. */
  ghost predicate Underway(b: seq<Byte>, known: seq<Entry>, added: seq<Entry>, name: Name, j0: nat, rest: Name, j: nat) {
    && |known + added| <= MAX_LABELS && j0 <= j <= |b|
    && (forall e :: e in known ==> Encodes(b, e.pos, j0, Labels(e.v)))
    && (forall e :: e in added ==> EntryPending(b, e, j, rest))
    && Pending(b, j0, Labels(name), j, Labels(rest))
    && (Proper(name) ==> Open(b, j0, Labels(name), j, Labels(rest)) && Proper(rest) && (name != [] ==> rest != []))
  }

  lemma UnderwayStart(b: seq<Byte>, labels: seq<Entry>, name: Name, j0: nat)
    requires TableOk(labels, b, j0) && j0 <= |b|
    ensures Underway(b, labels, [], name, j0, name, j0)
  {
    Start(b, j0, Labels(name));
    assert labels + [] == labels;
  }

  /** b after one more label was written at j. */
  ghost predicate LabelAt(b: seq<Byte>, c: seq<Byte>, j: nat, l: Name) {
    && |c| == |b| && |l| <= 63 && j + 1 + |l| <= |b| && c[..j] == b[..j]
    && c[j] == |l| && c[j + 1..j + 1 + |l|] == l
  }

  /** An empty label ends what is under way. */
  lemma PendingEmpty(b: seq<Byte>, c: seq<Byte>, pos: nat, labels: seq<Name>, j: nat)
    requires Pending(b, pos, labels, j, []) && LabelAt(b, c, j, [])
    ensures Encodes(c, pos, j + 1, labels)
  {
    assert Encodes(c, j, j + 1, []);
    if Encodes(b, pos, j, labels) {
      EncodesFrame(b, c, pos, j, j, labels);
    } else {
      RunFrame(b, c, pos, labels[..|labels|], j);
    }
    Close(c, pos, labels, j, [], j + 1);
  }

  /** What is under way at j, with a label that is not the last. */
  lemma PendingNext(b: seq<Byte>, c: seq<Byte>, pos: nat, labels: seq<Name>, j: nat, rest: Name)
    requires Pending(b, pos, labels, j, Labels(rest)) && FirstDot(rest) < |rest|
    requires LabelAt(b, c, j, rest[..FirstDot(rest)])
    ensures Pending(c, pos, labels, j + 1 + FirstDot(rest), Labels(rest[FirstDot(rest) + 1..]))
    ensures Open(b, pos, labels, j, Labels(rest)) && FirstDot(rest) > 0 ==>
              Open(c, pos, labels, j + 1 + FirstDot(rest), Labels(rest[FirstDot(rest) + 1..]))
  {
    hide Encodes, Pending, Open, LabelAt, Run, Labels, FirstDot;
    var k, next := FirstDot(rest), rest[FirstDot(rest) + 1..];
    LabelsStep(rest);
    if k > 0 {
      LabelIsRun(b, c, j, rest[..k]);
      Advance(b, c, pos, labels, j, Labels(rest), j + 1 + k);
    } else {
      assert rest[..0] == [];
      PendingEmpty(b, c, pos, labels, j);
      Complete(c, pos, labels, j + 1, Labels(next));
    }
  }

  lemma LabelsStep(rest: Name)
    requires FirstDot(rest) < |rest|
    ensures if FirstDot(rest) == 0 then Labels(rest) == []
            else Labels(rest) != [] && Labels(rest)[0] == rest[..FirstDot(rest)] &&
                 Labels(rest)[1..] == Labels(rest[FirstDot(rest) + 1..])
  {
  }

  lemma LabelIsRun(b: seq<Byte>, c: seq<Byte>, j: nat, l: Name)
    requires LabelAt(b, c, j, l) && l != []
    ensures Run(c, j, [l], j + 1 + |l|) && j + 1 + |l| <= |b| == |c| && b[..j] == c[..j]
  {
  }

  lemma Complete(b: seq<Byte>, pos: nat, labels: seq<Name>, j: nat, todo: seq<Name>)
    requires Encodes(b, pos, j, labels)
    ensures Pending(b, pos, labels, j, todo)
  {
  }

  /** An entry of the table when the encoder goes on to the next label; more is the entry of the suffix that the
      encoder was at, if it went into the table. */
  lemma EntryNext(b: seq<Byte>, c: seq<Byte>, e: Entry, j: nat, rest: Name)
    requires EntryPending(b, e, j, rest) || (e == Entry(rest, j) && j <= |b|)
    requires FirstDot(rest) < |rest| && LabelAt(b, c, j, rest[..FirstDot(rest)])
    ensures EntryPending(c, e, j + 1 + FirstDot(rest), rest[FirstDot(rest) + 1..])
  {
    hide Encodes, Labels, LabelAt, FirstDot, Open, Pending;
    if e == Entry(rest, j) {
      Start(b, j, Labels(rest));
      OpenIsPending(b, j, Labels(rest), j, Labels(rest));
    }
    PendingNext(b, c, e.pos, Labels(e.v), j, rest);
  }

  /** The encoder goes on to the next label; the suffix it was at may have gone into the table. */
  lemma UnderwayNext(b: seq<Byte>, c: seq<Byte>, known: seq<Entry>, added: seq<Entry>, more: seq<Entry>, name: Name,
                     j0: nat, rest: Name, j: nat)
    requires Underway(b, known, added, name, j0, rest, j) && FirstDot(rest) < |rest|
    requires more == [] || (more == [Entry(rest, j)] && |known + added| < MAX_LABELS)
    requires LabelAt(b, c, j, rest[..FirstDot(rest)])
    ensures Underway(c, known, added + more, name, j0, rest[FirstDot(rest) + 1..], j + 1 + FirstDot(rest))
  {
    hide Encodes, Pending, Open, Labels, LabelAt, Proper, EntryPending, FirstDot;
    LabelFits(b, c, j, rest[..FirstDot(rest)]);
    forall e | e in known ensures Encodes(c, e.pos, j0, Labels(e.v)) {
      KnownFrame(b, c, e, j0, j);
    }
    forall e | e in added + more ensures EntryPending(c, e, j + 1 + FirstDot(rest), rest[FirstDot(rest) + 1..]) {
      EntryNext(b, c, e, j, rest);
    }
    PendingNext(b, c, j0, Labels(name), j, rest);
    if Proper(name) { ProperNext(rest); }
  }

  lemma KnownFrame(b: seq<Byte>, c: seq<Byte>, e: Entry, j0: nat, j: nat)
    requires Encodes(b, e.pos, j0, Labels(e.v)) && j0 <= j <= |b| && j <= |c| && b[..j] == c[..j]
    ensures Encodes(c, e.pos, j0, Labels(e.v))
  {
    assert b[..j0] == b[..j][..j0] == c[..j][..j0] == c[..j0];
    EncodesFrame(b, c, e.pos, j0, j0, Labels(e.v));
  }

  lemma ProperNext(rest: Name)
    requires rest != [] && Proper(rest) && FirstDot(rest) < |rest|
    ensures FirstDot(rest) > 0 && Proper(rest[FirstDot(rest) + 1..]) && rest[FirstDot(rest) + 1..] != []
  {
    assert AllNonempty(rest[FirstDot(rest) + 1..]);
  }

  lemma LabelFits(b: seq<Byte>, c: seq<Byte>, j: nat, l: Name)
    requires LabelAt(b, c, j, l)
    ensures j + 1 + |l| <= |b| == |c| && b[..j] == c[..j]
  {
  }

  lemma OpenIsPending(b: seq<Byte>, pos: nat, labels: seq<Name>, j: nat, todo: seq<Name>)
    requires Open(b, pos, labels, j, todo)
    ensures Pending(b, pos, labels, j, todo)
  {
  }

  /** Once the rest is encoded, everything is. */
  lemma UnderwayEnd(b: seq<Byte>, c: seq<Byte>, known: seq<Entry>, added: seq<Entry>, more: seq<Entry>, name: Name,
                    j0: nat, rest: Name, j: nat, bound: nat)
    requires Underway(b, known, added, name, j0, rest, j)
    requires more == [] || (more == [Entry(rest, j)] && |known + added| < MAX_LABELS)
    requires j <= |c| && b[..j] == c[..j] && Encodes(c, j, bound, Labels(rest))
    ensures TableOk(known + added + more, c, bound) && Encodes(c, j0, bound, Labels(name))
    ensures Proper(name) ==> NameEnd(c, j0, bound, Labels(name)) == NameEnd(c, j, bound, Labels(rest))
  {
    hide Encodes, Pending, Open, Labels, NameEnd, Proper;
    EncodesInside(c, j, bound, Labels(rest));
    forall e | e in known + added + more ensures Encodes(c, e.pos, bound, Labels(e.v)) {
      if e in known {
        KnownFrame(b, c, e, j0, j);
        EncodesFrame(c, c, e.pos, j0, bound, Labels(e.v));
      } else if e in added {
        assert EntryPending(b, e, j, rest);
        PendingFrame(b, c, e.pos, Labels(e.v), j, Labels(rest));
        Close(c, e.pos, Labels(e.v), j, Labels(rest), bound);
      }
    }
    PendingFrame(b, c, j0, Labels(name), j, Labels(rest));
    Close(c, j0, Labels(name), j, Labels(rest), bound);
  }

  lemma PendingFrame(b: seq<Byte>, c: seq<Byte>, pos: nat, labels: seq<Name>, j: nat, todo: seq<Name>)
    requires Pending(b, pos, labels, j, todo) && j <= |b| && j <= |c| && b[..j] == c[..j]
    ensures Pending(c, pos, labels, j, todo) && (Open(b, pos, labels, j, todo) ==> Open(c, pos, labels, j, todo))
  {
    if Open(b, pos, labels, j, todo) {
      RunFrame(b, c, pos, labels[..|labels| - |todo|], j);
    } else {
      EncodesFrame(b, c, pos, j, j, labels);
    }
  }

  /** The result of dnsname_to_labels for what is left of a name. */
  ghost function EndOrError(rest: Name, j: nat, bufLen: nat, known: seq<Entry>): int
    decreases |rest|
  {
    var k := FirstDot(rest);
    if exists e :: e in known && e.v == rest then (if j + 2 > bufLen then -2 else j + 2)
    else if k > 63 then -1
    else if j + k + 1 > bufLen then -2
    else if k < |rest| then EndOrError(rest[k + 1..], j + k + 1, bufLen, known)
    else if k == 0 then j + 1 else j + k + 2
  }

  /** A pointer that the encoder writes for this part of a name can be written. */
  ghost predicate RefLow(rest: Name, known: seq<Entry>)
    decreases |rest|
  {
    var k := FirstDot(rest);
    if exists e :: e in known && e.v == rest then forall e :: e in known && e.v == rest ==> e.pos < OFFSET_LIMIT
    else k < |rest| ==> RefLow(rest[k + 1..], known)
  }

  lemma {:induction false} LowEnough(rest: Name, known: seq<Entry>)
    requires Low(known)
    ensures RefLow(rest, known)
    decreases |rest|
  {
    if FirstDot(rest) < |rest| { LowEnough(rest[FirstDot(rest) + 1..], known); }
  }

  ghost predicate IsKnown(rest: Name, known: seq<Entry>) {
    exists e :: e in known && e.v == rest
  }

  /** The suffixes of a name that are written out as labels, up to one that the table knows already, and where. */
  ghost function Suffixes(rest: Name, j: nat, known: seq<Entry>): seq<Entry>
    decreases |rest|
  {
    var k := FirstDot(rest);
    if IsKnown(rest, known) then []
    else [Entry(rest, j)] + if k < |rest| then Suffixes(rest[k + 1..], j + k + 1, known) else []
  }

  /** As many of the entries as a table has room for */
  function Kept(entries: seq<Entry>): seq<Entry> {
    if |entries| <= MAX_LABELS then entries else entries[..MAX_LABELS]
  }

  lemma {:induction false} SuffixesStep(known: seq<Entry>, added: seq<Entry>, added2: seq<Entry>, rest: Name, j: nat)
    requires |known + added| <= MAX_LABELS
    requires !IsKnown(rest, known) && added2 == (if |known + added| == MAX_LABELS then added else added + [Entry(rest, j)])
    ensures FirstDot(rest) < |rest| ==>
              Kept(known + added + Suffixes(rest, j, known)) ==
              Kept(known + added2 + Suffixes(rest[FirstDot(rest) + 1..], j + FirstDot(rest) + 1, known))
    ensures FirstDot(rest) == |rest| ==> Kept(known + added + Suffixes(rest, j, known)) == known + added2
  {
    hide FirstDot;
    if FirstDot(rest) < |rest| {
      KeptNext(known, added, Entry(rest, j), Suffixes(rest[FirstDot(rest) + 1..], j + FirstDot(rest) + 1, known));
    } else {
      KeptNext(known, added, Entry(rest, j), []);
      assert known + added2 + [] == known + added2;
    }
  }

  lemma KnownAdds(known: seq<Entry>, added: seq<Entry>, rest: Name, j: nat, ref: nat)
    requires |known + added| <= MAX_LABELS && Entry(rest, ref) in known
    ensures Kept(known + added + Suffixes(rest, j, known)) == known + added
  {
    assert known + added + [] == known + added;
  }

  lemma NotKnown(rest: Name, known: seq<Entry>)
    requires forall e :: e in known ==> e.v != rest
    ensures !IsKnown(rest, known)
  {
  }

  lemma KeptNext(known: seq<Entry>, added: seq<Entry>, e: Entry, more: seq<Entry>)
    requires |known + added| <= MAX_LABELS
    ensures Kept(known + added + ([e] + more)) ==
            Kept(known + (if |known + added| == MAX_LABELS then added else added + [e]) + more)
  {
    if |known + added| == MAX_LABELS {
      assert Kept(known + added + ([e] + more)) == known + added == Kept(known + added + more);
    } else {
      assert known + added + ([e] + more) == known + (added + [e]) + more;
    }
  }

  /** Is there a byte for the zero byte that is written at the end without a look at the length? */
  ghost predicate SpareByte(room: nat, rest: Name, j: nat, bufLen: nat, known: seq<Entry>) {
    bufLen <= room && (bufLen < room || EndOrError(rest, j, bufLen, known) <= bufLen)
  }

  /** Nothing at bufLen or behind it has changed, except for a zero byte that ends the name there. */
  ghost predicate Inside(b: seq<Byte>, c: seq<Byte>, bufLen: nat, r: int) {
    && |b| == |c| && (forall i :: bufLen < i < |b| ==> c[i] == b[i])
    && (bufLen < |b| ==> c[bufLen] == if r == bufLen + 1 then 0 else b[bufLen])
  }

  /** No label is longer than 63 bytes. */
  predicate Short(name: Name)
    decreases |name|
  {
    var k := FirstDot(name);
    k <= 63 && (k < |name| ==> Short(name[k + 1..]))
  }

  lemma DotInside(name: Name)
    ensures FirstDot(name) <= |name|
  {
  }

  /** What is left of a name with short labels takes at most two bytes more than it has. */
  lemma {:induction false} ShortFits(rest: Name, j: nat, bufLen: nat, known: seq<Entry>)
    requires Short(rest) && j + |rest| + 2 <= bufLen
    ensures j < EndOrError(rest, j, bufLen, known) <= j + |rest| + 2
    decreases |rest|
  {
    hide FirstDot;
    DotInside(rest);
    var k := FirstDot(rest);
    if k < |rest| { ShortFits(rest[k + 1..], j + k + 1, bufLen, known); }
  }

  function EntriesOf(table: LabelTable?): seq<Entry>
    reads table
  {
    if table == null then [] else table.labels
  }

  /** Write a label behind its length. */
  method PutLabelBytes(buf: array<Byte>, j: nat, l: Name)
    requires |l| <= 63 && j + 1 + |l| <= buf.Length
    modifies buf
    ensures LabelAt(old(buf[..]), buf[..], j, l)
    ensures buf[..j] == old(buf[..j]) && forall i :: j + 1 + |l| <= i < buf.Length ==> buf[i] == old(buf[i])
  {
    ghost var before := buf[..];
    buf[j] := |l|;
    ghost var middle := buf[..];
    Copy(buf, j + 1, l);
    assert buf[..j] == middle[..j] == before[..j];
    assert buf[j + 1..j + 1 + |l|] == l;
  }

  /** dnsname_to_labels, for a name without zero bytes.  The zero byte at the end is written without a look at the
      length: a byte behind bufLen is needed, and written, exactly if the result is bufLen + 1.  If the entry of the
      table that is pointed at can be pointed at, then the name is encoded, and the table is right about the new
      entries too. */
  method DnsnameToLabels(buf: array<Byte>, bufLen: nat, j0: nat, name: Name, table: LabelTable?) returns (r: int)
    requires j0 <= bufLen <= buf.Length && 0 !in name
    requires |name| <= 255 ==> SpareByte(buf.Length, name, j0, bufLen, EntriesOf(table))
    requires TableOk(EntriesOf(table), buf[..], j0)
    modifies buf, table
    ensures buf[..j0] == old(buf[..j0]) && Inside(old(buf[..]), buf[..], bufLen, r)
    ensures r == if |name| > 255 then -2 else EndOrError(name, j0, bufLen, old(EntriesOf(table)))
    ensures r >= 0 ==> j0 < r <= buf.Length && r <= bufLen + 1
    ensures r >= 0 && table != null ==>
              EntriesOf(table) == Kept(old(EntriesOf(table)) + Suffixes(name, j0, old(EntriesOf(table))))
    ensures r >= 0 ==> forall e :: e in EntriesOf(table) ==> e in old(EntriesOf(table)) || e.pos < bufLen
    ensures r >= 0 && RefLow(name, old(EntriesOf(table))) ==>
              TableOk(EntriesOf(table), buf[..], r) && Encodes(buf[..], j0, r, Labels(name)) &&
              (Proper(name) ==> NameEnd(buf[..], j0, r, Labels(name)) == r)
  {
    hide Encodes, NameEnd, Labels, Proper, Underway, TableOk, FirstDot, EndOrError, RefLow, Suffixes, Kept;
    if |name| > 255 { return -2; }
    ghost var known, added := EntriesOf(table), [];
    var at, j: nat := 0, j0;
    UnderwayStart(buf[..], known, name, j0);
    assert name[0..] == name && known + added == known;
    var done := false;
    while true
      invariant 0 <= at <= |name| && j0 <= j <= bufLen && buf[..j0] == old(buf[..j0])
      invariant Underway(buf[..], known, added, name, j0, name[at..], j)
      invariant EntriesOf(table) == known + added && forall e :: e in added ==> e.pos < bufLen
      invariant EndOrError(name, j0, bufLen, known) == EndOrError(name[at..], j, bufLen, known)
      invariant table != null ==>
                  Kept(known + Suffixes(name, j0, known)) == Kept(known + added + Suffixes(name[at..], j, known))
      invariant RefLow(name, known) == RefLow(name[at..], known) && Inside(old(buf[..]), buf[..], bufLen, -1)
      decreases |name| - at
    {
      done, r, added := PutNext(buf, bufLen, j, name[at..], table, known, added, name, j0);
      if done { return; }
      j := r;
      at := at + FirstDot(name[at..]) + 1;
    }
  }

  /** Into a buffer with a length of 2, the name "a" is written with its zero byte behind the end. */
  method ZeroBehindEnd(buf: array<Byte>) returns (r: int)
    requires buf.Length == 3 && buf[2] == 255
    modifies buf
    ensures r == 3 && buf[2] == 0
  {
    var name: Name := [97];
    assert FirstDot(name) == 1;
    assert EndOrError(name, 0, 2, []) == 3;
    EmptyTableOk(buf[..]);
    r := DnsnameToLabels(buf, 2, 0, name, null);
  }

  /** Writing a name twice: if the table can remember it and pointers reach that far, it takes two bytes the second
      time, and both times it is encoded. */
  method WriteTwice(buf: array<Byte>, bufLen: nat, j0: nat, name: Name, table: LabelTable) returns (r: int, r2: int)
    requires j0 <= bufLen < buf.Length && 0 !in name && |name| <= 255
    requires TableOk(table.labels, buf[..], j0) && Low(table.labels) && |table.labels| < MAX_LABELS && bufLen <= OFFSET_LIMIT
    modifies buf, table
    ensures r < 0 || r + 2 > bufLen ==> r2 < 0
    ensures r >= 0 && r + 2 <= bufLen ==>
              r2 == r + 2 && Encodes(buf[..], j0, r, Labels(name)) && Encodes(buf[..], r, r2, Labels(name))
  {
    hide Encodes, NameEnd, Labels, Proper, EndOrError, TableOk, RefLow, Suffixes;
    ghost var known := table.labels;
    LowEnough(name, known);
    r := DnsnameToLabels(buf, bufLen, j0, name, table);
    r2 := -1;
    if r < 0 || r > bufLen { return; }
    ghost var once := buf[..];
    LowEnough(name, table.labels);
    Remembered(name, j0, known);
    KnownTakesTwo(name, r, bufLen, table.labels);
    r2 := DnsnameToLabels(buf, bufLen, r, name, table);
    EncodesFrame(once, buf[..], j0, r, r, Labels(name));
  }

  /** A name that was written is in the table, unless that was full. */
  lemma Remembered(name: Name, j: nat, known: seq<Entry>)
    requires |known| < MAX_LABELS
    ensures IsKnown(name, Kept(known + Suffixes(name, j, known)))
  {
    var all := known + Suffixes(name, j, known);
    if IsKnown(name, known) {
      var e :| e in known && e.v == name;
      var i :| 0 <= i < |known| && known[i] == e;
      assert Kept(all)[i] == e;
    } else {
      assert Kept(all)[|known|] == Entry(name, j);
    }
  }

  lemma KnownTakesTwo(name: Name, j: nat, bufLen: nat, known: seq<Entry>)
    requires IsKnown(name, known)
    ensures EndOrError(name, j, bufLen, known) == if j + 2 > bufLen then -2 else j + 2
  {
    var e :| e in known && e.v == name;
  }

  /** One label, or a pointer: done with the result, or the index behind the label. */
  method PutNext(buf: array<Byte>, bufLen: nat, j: nat, rest: Name, table: LabelTable?, ghost known: seq<Entry>,
                 ghost added: seq<Entry>, ghost name: Name, ghost j0: nat)
    returns (done: bool, r: int, ghost added2: seq<Entry>)
    requires j0 <= j <= bufLen && 0 !in rest && SpareByte(buf.Length, rest, j, bufLen, known)
    requires Underway(buf[..], known, added, name, j0, rest, j) && EntriesOf(table) == known + added
    modifies buf, table
    ensures buf[..j0] == old(buf[..j0]) && Inside(old(buf[..]), buf[..], bufLen, if done then r else -1)
    ensures r >= 0 ==> EntriesOf(table) == known + added2
    ensures added2 == added || (added2 == added + [Entry(rest, j)] && j < bufLen)
    ensures r >= 0 && table != null && done ==> known + added2 == Kept(known + added + Suffixes(rest, j, known))
    ensures r >= 0 && table != null && !done ==>
              FirstDot(rest) < |rest| &&
              Kept(known + added + Suffixes(rest, j, known)) == Kept(known + added2 + Suffixes(rest[FirstDot(rest) + 1..], r, known))
    ensures done ==> r == EndOrError(rest, j, bufLen, known) && (r >= 0 ==> j0 < r <= buf.Length && r <= bufLen + 1)
    ensures done && r >= 0 && RefLow(rest, known) ==>
              TableOk(EntriesOf(table), buf[..], r) && Encodes(buf[..], j0, r, Labels(name)) &&
              (Proper(name) ==> NameEnd(buf[..], j0, r, Labels(name)) == r)
    ensures !done ==> FirstDot(rest) < |rest| && r == j + FirstDot(rest) + 1 <= bufLen &&
                      Underway(buf[..], known, added2, name, j0, rest[FirstDot(rest) + 1..], r) &&
                      EndOrError(rest, j, bufLen, known) == EndOrError(rest[FirstDot(rest) + 1..], r, bufLen, known) &&
                      RefLow(rest, known) == RefLow(rest[FirstDot(rest) + 1..], known)
  {
    hide Encodes, NameEnd, Labels, Proper, Underway, TableOk, FirstDot, Suffixes, Kept, IsKnown;
    UnderwayFacts(buf[..], known, added, name, j0, rest, j);
    added2 := added;
    if table != null {
      var ref := table.GetPos(rest);
      if ref >= 0 {
        assert Entry(rest, ref) in known;
        KnownAdds(known, added, rest, j, ref);
        r := PutPointer(buf, bufLen, j, ref, rest, known, added, name, j0);
        return true, r, added;
      }
      assert forall e :: e in known ==> e in table.labels;
      NotKnown(rest, known);
    }
    done, r, added2 := PutLabelOf(buf, bufLen, j, rest, table, known, added, name, j0);
    if r >= 0 && table != null { SuffixesStep(known, added, added2, rest, j); }
  }

  lemma LabelOutcome(rest: Name, j: nat, bufLen: nat, known: seq<Entry>)
    requires forall e :: e in known ==> e.v != rest
    ensures FirstDot(rest) <= |rest|
    ensures var r := EndOrError(rest, j, bufLen, known);
            var k := FirstDot(rest);
            if k > 63 then r == -1
            else if j + k + 1 > bufLen then r == -2
            else if k < |rest| then r == EndOrError(rest[k + 1..], j + k + 1, bufLen, known)
            else r == if k == 0 then j + 1 else j + k + 2
    ensures FirstDot(rest) < |rest| ==> RefLow(rest, known) == RefLow(rest[FirstDot(rest) + 1..], known)
  {
  }

  /** One label, for a rest of the name that the table does not know. */
  method PutLabelOf(buf: array<Byte>, bufLen: nat, j: nat, rest: Name, table: LabelTable?, ghost known: seq<Entry>,
                    ghost added: seq<Entry>, ghost name: Name, ghost j0: nat)
    returns (done: bool, r: int, ghost added2: seq<Entry>)
    requires j0 <= j <= bufLen && 0 !in rest && SpareByte(buf.Length, rest, j, bufLen, known)
    requires Underway(buf[..], known, added, name, j0, rest, j) && EntriesOf(table) == known + added
    requires forall e :: e in known ==> e.v != rest
    modifies buf, table
    ensures buf[..j0] == old(buf[..j0]) && Inside(old(buf[..]), buf[..], bufLen, if done then r else -1)
    ensures r >= 0 ==> EntriesOf(table) == known + added2
    ensures added2 == added || (added2 == added + [Entry(rest, j)] && j < bufLen)
    ensures r >= 0 && table != null ==>
              added2 == (if |known + added| == MAX_LABELS then added else added + [Entry(rest, j)]) && |known + added| <= MAX_LABELS
    ensures r >= 0 && done ==> FirstDot(rest) == |rest|
    ensures done ==> r == EndOrError(rest, j, bufLen, known) && (r >= 0 ==> j0 < r <= buf.Length && r <= bufLen + 1)
    ensures done && r >= 0 ==>
              TableOk(EntriesOf(table), buf[..], r) && Encodes(buf[..], j0, r, Labels(name)) &&
              (Proper(name) ==> NameEnd(buf[..], j0, r, Labels(name)) == r)
    ensures !done ==> FirstDot(rest) < |rest| && r == j + FirstDot(rest) + 1 <= bufLen &&
                      Underway(buf[..], known, added2, name, j0, rest[FirstDot(rest) + 1..], r) &&
                      EndOrError(rest, j, bufLen, known) == EndOrError(rest[FirstDot(rest) + 1..], r, bufLen, known) &&
                      RefLow(rest, known) == RefLow(rest[FirstDot(rest) + 1..], known)
  {
    hide Encodes, NameEnd, Labels, Proper, Underway, TableOk, LabelAt, FirstDot, EndOrError;
    UnderwayFacts(buf[..], known, added, name, j0, rest, j);
    added2 := added;
    var k := FirstDot(rest);
    LabelOutcome(rest, j, bufLen, known);
    if k > 63 { return true, -1, added; }
    if j + k + 1 > bufLen { return true, -2, added; }
    ghost var more := Remember(table, rest, j);
    added2 := added + more;
    assert known + added2 == known + added + more;
    ghost var before := buf[..];
    PutLabelBytes(buf, j, rest[..k]);
    assert buf[..j0] == buf[..j][..j0] == before[..j][..j0];
    if k == |rest| {
      assert rest[..k] == rest;
      r := PutEnd(buf, j, before, rest, known, added, more, name, j0);
      done := true;
    } else {
      UnderwayNext(before, buf[..], known, added, more, name, j0, rest, j);
      done, r := false, j + k + 1;
    }
  }

  /** Put a suffix into the table, if there is a table that is not full. */
  method Remember(table: LabelTable?, rest: Name, j: nat) returns (ghost more: seq<Entry>)
    modifies table
    ensures more == if table == null || |old(EntriesOf(table))| == MAX_LABELS then [] else [Entry(rest, j)]
    ensures EntriesOf(table) == old(EntriesOf(table)) + more
  {
    more := [];
    if table != null {
      var e := table.Add(rest, j);
      if e == 0 { more := [Entry(rest, j)]; }
    }
  }

  lemma UnderwayFacts(b: seq<Byte>, known: seq<Entry>, added: seq<Entry>, name: Name, j0: nat, rest: Name, j: nat)
    requires Underway(b, known, added, name, j0, rest, j)
    ensures forall e :: e in added ==> e.v != rest
    ensures |known + added| <= MAX_LABELS && j0 <= j <= |b|
  {
    hide Pending, Open, Encodes, Labels, Proper;
  }

  /** A pointer in place of the rest of the name. */
  method PutPointer(buf: array<Byte>, bufLen: nat, j: nat, ref: nat, ghost rest: Name, ghost known: seq<Entry>,
                    ghost added: seq<Entry>, ghost name: Name, ghost j0: nat)
    returns (r: int)
    requires bufLen <= buf.Length && j0 <= j
    requires Underway(buf[..], known, added, name, j0, rest, j) && Entry(rest, ref) in known
    modifies buf
    ensures buf[..j0] == old(buf[..j0]) && Inside(old(buf[..]), buf[..], bufLen, r)
    ensures r == if j + 2 > bufLen then -2 else j + 2
    ensures r >= 0 && ref < OFFSET_LIMIT ==>
              TableOk(known + added, buf[..], r) && Encodes(buf[..], j0, r, Labels(name)) &&
              (Proper(name) ==> NameEnd(buf[..], j0, r, Labels(name)) == r)
  {
    hide Encodes, NameEnd, Labels, Proper, Underway, TableOk, PointerWord;
    if j + 2 > bufLen { return -2; }
    var word := PointerWord(ref);
    PointerExactly(ref);
    ghost var before := buf[..];
    buf[j], buf[j + 1] := word / 256, word % 256;
    assert buf[..j] == before[..j];
    assert buf[..j0] == buf[..j][..j0] == before[..j][..j0];
    r := j + 2;
    if ref < OFFSET_LIMIT {
      KnownEncodes(before, known, added, name, j0, rest, j, ref);
      PointerEncodes(before, buf[..], j0, j, ref, Labels(rest));
      UnderwayEnd(before, buf[..], known, added, [], name, j0, rest, j, j + 2);
      assert known + added + [] == known + added;
    }
  }

  lemma KnownEncodes(b: seq<Byte>, known: seq<Entry>, added: seq<Entry>, name: Name, j0: nat, rest: Name, j: nat, ref: nat)
    requires Underway(b, known, added, name, j0, rest, j) && Entry(rest, ref) in known
    ensures Encodes(b, ref, j0, Labels(rest)) && j <= |b|
  {
    hide Encodes, Labels, Pending, Open, Proper;
  }

  lemma PointerEncodes(b: seq<Byte>, c: seq<Byte>, j0: nat, j: nat, ref: nat, labels: seq<Name>)
    requires Encodes(b, ref, j0, labels) && j0 <= j && j + 2 <= |c| == |b| && b[..j] == c[..j]
    requires ref < OFFSET_LIMIT && c[j] == PointerWord(ref) / 256 && c[j + 1] == PointerWord(ref) % 256
    ensures Encodes(c, j, j + 2, labels) && NameEnd(c, j, j + 2, labels) == j + 2
  {
    PointerExactly(ref);
    EncodesInside(b, ref, j0, labels);
    assert b[..j0] == b[..j][..j0] == c[..j][..j0] == c[..j0];
    EncodesFrame(b, c, ref, j0, j, labels);
  }

  /** The last label, behind which a zero byte stands unless it is empty, encodes the rest of the name. */
  lemma EndEncodes(b: seq<Byte>, j: nat, rest: Name)
    requires FirstDot(rest) == |rest| <= 63 && j + 1 + |rest| <= |b|
    requires b[j] == |rest| && b[j + 1..j + 1 + |rest|] == rest
    requires rest != [] ==> j + 1 + |rest| < |b| && b[j + 1 + |rest|] == 0
    ensures var r := j + 1 + |rest| + if rest == [] then 0 else 1;
            Encodes(b, j, r, Labels(rest)) && NameEnd(b, j, r, Labels(rest)) == r
  {
    if rest != [] {
      var r := j + 2 + |rest|;
      assert Labels(rest) == [rest] && [rest][1..] == [];
      assert Encodes(b, j + 1 + |rest|, r, []);
    }
  }

  /** The end of a name, behind its last label. */
  method PutEnd(buf: array<Byte>, j: nat, ghost before: seq<Byte>, rest: Name, ghost known: seq<Entry>,
                ghost added: seq<Entry>, ghost more: seq<Entry>, ghost name: Name, ghost j0: nat)
    returns (r: int)
    requires Underway(before, known, added, name, j0, rest, j) && LabelAt(before, buf[..], j, rest)
    requires more == [] || (more == [Entry(rest, j)] && |known + added| < MAX_LABELS)
    requires FirstDot(rest) == |rest| && 0 !in rest && j0 <= j
    requires j + 1 + |rest| + (if rest == [] then 0 else 1) <= buf.Length
    modifies buf
    ensures buf[..j0] == old(buf[..j0])
    ensures forall i :: j + 1 + |rest| <= i < buf.Length ==> buf[i] == if i < r then 0 else old(buf[i])
    ensures r == j + 1 + |rest| + if rest == [] then 0 else 1
    ensures TableOk(known + added + more, buf[..], r) && Encodes(buf[..], j0, r, Labels(name))
    ensures Proper(name) ==> NameEnd(buf[..], j0, r, Labels(name)) == r
  {
    ghost var middle := buf[..];
    r := j + 1 + |rest|;
    LastByte(middle, j, rest);
    if r == 0 || buf[r - 1] != 0 {
      buf[r] := 0;
      r := r + 1;
    }
    assert buf[..j] == middle[..j] && buf[j + 1..j + 1 + |rest|] == middle[j + 1..j + 1 + |rest|];
    assert buf[..j0] == buf[..j][..j0] == middle[..j][..j0];
    EndEncodes(buf[..], j, rest);
    hide Encodes, NameEnd, Labels, Proper, Underway, TableOk;
    UnderwayEnd(before, buf[..], known, added, more, name, j0, rest, j, r);
  }

  lemma LastByte(b: seq<Byte>, j: nat, l: Name)
    requires j + 1 + |l| <= |b| && b[j] == |l| && b[j + 1..j + 1 + |l|] == l && 0 !in l
    ensures b[j + |l|] != 0 <==> l != []
  {
    if l != [] {
      assert b[j + |l|] == b[j + 1..j + 1 + |l|][|l| - 1] == l[|l| - 1];
    }
  }

  // ----- whole packets -----

  /** The C string at the beginning of s. */
  function CString(s: seq<Byte>): Name {
    if s == [] || s[0] == 0 then [] else [s[0]] + CString(s[1..])
  }

  lemma {:induction false} CStringIs(s: seq<Byte>, name: Name)
    requires 0 !in name && |name| < |s| && s[..|name| + 1] == name + [0]
    ensures CString(s) == name
    decreases |name|
  {
    assert s[|name|] == (name + [0])[|name|];
    if name != [] {
      assert s[0] == (name + [0])[0];
      assert s[1..][..|name[1..]| + 1] == s[..|name| + 1][1..] == name[1..] + [0];
      CStringIs(s[1..], name[1..]);
    }
  }

  /** Every name is encoded where starts says and up to where ends says. */
  ghost predicate Packed(b: seq<Byte>, names: seq<Name>, starts: seq<nat>, ends: seq<nat>, j: nat) {
    && |starts| == |ends| == |names| && j <= |b|
    && (forall i :: 0 <= i < |names| ==>
          ends[i] <= j && Encodes(b, starts[i], ends[i], Labels(names[i])) &&
          NameEnd(b, starts[i], ends[i], Labels(names[i])) == ends[i])
  }

  lemma PackedMore(b: seq<Byte>, c: seq<Byte>, names: seq<Name>, starts: seq<nat>, ends: seq<nat>, j: nat,
                   name: Name, r: nat)
    requires Packed(b, names, starts, ends, j) && j <= r <= |c| && b[..j] == c[..j]
    requires Encodes(c, j, r, Labels(name)) && NameEnd(c, j, r, Labels(name)) == r
    ensures Packed(c, names + [name], starts + [j], ends + [r], r)
  {
    hide Encodes, NameEnd, Labels;
    PackedFrame(b, c, names, starts, ends, j);
  }

  lemma PackedFrame(b: seq<Byte>, c: seq<Byte>, names: seq<Name>, starts: seq<nat>, ends: seq<nat>, j: nat)
    requires Packed(b, names, starts, ends, j) && j <= |c| && b[..j] == c[..j]
    ensures Packed(c, names, starts, ends, j) && |starts| == |ends| == |names|
  {
    hide Encodes, NameEnd, Labels;
    forall i | 0 <= i < |names|
      ensures Encodes(c, starts[i], ends[i], Labels(names[i])) &&
              NameEnd(c, starts[i], ends[i], Labels(names[i])) == ends[i]
    {
      assert b[..ends[i]] == b[..j][..ends[i]] == c[..j][..ends[i]] == c[..ends[i]];
      EncodesFrame(b, c, starts[i], ends[i], ends[i], Labels(names[i]));
    }
  }

  /** Room that is enough for the names. */
  function Room(names: seq<Name>): nat {
    if names == [] then 0 else Room(names[..|names| - 1]) + |names[|names| - 1]| + 2
  }

  lemma {:induction false} RoomGrows(names: seq<Name>, k: nat)
    requires k <= |names|
    ensures Room(names[..k]) <= Room(names)
    decreases |names|
  {
    if k < |names| {
      RoomGrows(names[..|names| - 1], k);
      assert names[..|names| - 1][..k] == names[..k];
    } else {
      assert names[..k] == names;
    }
  }

  /** Names written one behind the other with one table, into a buffer that pointers can reach. */
  method PackNames(buf: array<Byte>, bufLen: nat, names: seq<Name>) returns (ok: bool, starts: seq<nat>, ends: seq<nat>)
    requires bufLen < buf.Length && bufLen <= OFFSET_LIMIT
    requires forall i :: 0 <= i < |names| ==> 0 !in names[i] && Proper(names[i])
    modifies buf
    ensures ok ==> exists j :: Packed(buf[..], names, starts, ends, j)
    ensures Room(names) <= bufLen && (forall name :: name in names ==> Short(name) && |name| <= 255) ==> ok
  {
    hide Encodes, NameEnd, Labels, Proper, EndOrError, Packed, Short, TableOk;
    var table := new LabelTable();
    var j: nat := 0;
    ok, starts, ends := true, [], [];
    var i := 0;
    NonePacked(buf[..]);
    EmptyTableOk(buf[..]);
    ghost var fits := Room(names) <= bufLen && forall name :: name in names ==> Short(name) && |name| <= 255;
    while i < |names|
      invariant 0 <= i <= |names| && fresh(table) && j <= bufLen
      invariant Packed(buf[..], names[..i], starts, ends, j)
      invariant TableOk(table.labels, buf[..], j) && Low(table.labels)
      invariant fits ==> j <= Room(names[..i])
    {
      ghost var before := buf[..];
      assert names[..i + 1] == names[..i] + [names[i]];
      RoomGrows(names, i + 1);
      if fits { ShortFits(names[i], j, bufLen, table.labels); }
      LowEnough(names[i], table.labels);
      var r := DnsnameToLabels(buf, bufLen, j, names[i], table);
      if r < 0 || r > bufLen { return false, [], []; }
      PackedMore(before, buf[..], names[..i], starts, ends, j, names[i], r);
      starts, ends, j := starts + [j], ends + [r], r;
      i := i + 1;
    }
    assert names[..i] == names;
  }

  lemma EmptyTableOk(b: seq<Byte>)
    ensures TableOk([], b, 0)
  {
  }

  lemma NonePacked(b: seq<Byte>)
    ensures Packed(b, [], [], [], 0)
  {
  }

  /** Encoding any list of proper names and decoding it again gives the list, and the decoder stops behind each
      name where the encoder did. */
  method RoundTrip(bufLen: nat, names: seq<Name>, nameOutLen: nat) returns (ok: bool, parsed: seq<Name>)
    requires bufLen <= OFFSET_LIMIT
    requires forall i :: 0 <= i < |names| ==> 0 !in names[i] && Proper(names[i]) && |names[i]| < nameOutLen
    ensures ok ==> parsed == names
    ensures Room(names) <= bufLen && (forall name :: name in names ==> Short(name) && |name| <= 255) ==> ok
  {
    hide Encodes, NameEnd, Labels, Proper, Packed, Text;
    var buf := new Byte[bufLen + 1](_ => 0);
    var starts, ends;
    ok, starts, ends := PackNames(buf, bufLen, names);
    parsed := [];
    if !ok { return; }
    var nameOut := new Byte[nameOutLen](_ => 0);
    var packet := buf[..] + seq(63, _ => 0);
    ghost var j: nat :| Packed(buf[..], names, starts, ends, j);
    assert j <= |buf[..]| && buf[..][..j] == packet[..j] by { PackedInside(buf[..], names, starts, ends, j); }
    PackedFrame(buf[..], packet, names, starts, ends, j);
    var i := 0;
    while i < |names|
      invariant 0 <= i <= |names| && parsed == names[..i] && |starts| == |ends| == |names|
      invariant Packed(packet, names, starts, ends, j) && j <= bufLen + 1
    {
      PackedAt(packet, names, starts, ends, j, i);
      ProperExactly(names[i]);
      var r, idx := NameParse(packet, bufLen + 1, starts[i], nameOut, nameOutLen, ends[i], Labels(names[i]));
      assert r == 0 && idx == ends[i];
      CStringIs(nameOut[..], names[i]);
      parsed := parsed + [CString(nameOut[..])];
      i := i + 1;
    }
  }

  lemma PackedInside(b: seq<Byte>, names: seq<Name>, starts: seq<nat>, ends: seq<nat>, j: nat)
    requires Packed(b, names, starts, ends, j)
    ensures j <= |b|
  {
  }

  lemma PackedAt(b: seq<Byte>, names: seq<Name>, starts: seq<nat>, ends: seq<nat>, j: nat, i: nat)
    requires Packed(b, names, starts, ends, j) && i < |names|
    ensures |starts| == |ends| == |names| && ends[i] <= j <= |b|
    ensures Encodes(b, starts[i], ends[i], Labels(names[i]))
    ensures NameEnd(b, starts[i], ends[i], Labels(names[i])) == ends[i]
  {
  }
}
