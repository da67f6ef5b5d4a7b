/** evbuffer: a linked list of partly filled memory blocks that behaves like one byte sequence. */
module EvBuffer {
  import opened Bytes

  const EV_SIZE_MAX: int := 0xffff_ffff_ffff_ffff
  const EVBUFFER_CHAIN_MAX: int := 0x7fff_ffff_ffff_ffff
  /** sizeof(struct evbuffer_chain) on a 64-bit target */
  const EVBUFFER_CHAIN_SIZE: int := 48
  const MIN_BUFFER_SIZE: int := 1024
  const EVBUFFER_CHAIN_MAX_AUTO_SIZE: int := 4096
  const MAX_TO_REALIGN_IN_EXPAND: int := 2048
  /** the largest block that evbuffer_chain_new hands out */
  const MAX_BLOCK: int := EVBUFFER_CHAIN_MAX - EVBUFFER_CHAIN_SIZE

  /** A size converted to a signed C integer of the given modulus. */
  function Signed(n: nat, modulus: nat): int
    requires modulus > 0
  {
    if n % modulus < modulus / 2 then n % modulus else n % modulus - modulus
  }

  /** It differs by a multiple of the modulus, and has a sign. */
  lemma SignedExactly(n: nat, modulus: nat) returns (q: int)
    requires modulus > 0 && modulus % 2 == 0
    ensures n == Signed(n, modulus) + q * modulus && 0 <= 2 * Signed(n, modulus) + modulus < 2 * modulus
  {
    q := if n % modulus < modulus / 2 then n / modulus else n / modulus + 1;
    assert n == n % modulus + (n / modulus) * modulus;
    assert (n / modulus + 1) * modulus == (n / modulus) * modulus + modulus;
  }

  const INT_MODULUS: int := 0x1_0000_0000
  const SSIZE_MODULUS: int := 0x1_0000_0000_0000_0000

  function Min(a: int, b: int): int {
    if a <= b then a else b
  }

  /** struct evbuffer_chain: off bytes of data in buffer, after misalign unused bytes. */
  class Chain {
    const buffer: array<Byte>
    var misalign: int
    var off: int

    constructor (size: nat)
      requires 0 < size
      ensures fresh(buffer) && buffer.Length == size && misalign == 0 && off == 0
    {
      buffer := new Byte[size](_ => 0);
      misalign, off := 0, 0;
    }

    /** misalign + off never exceeds buffer_len */
    ghost predicate Fits()
      reads this
    {
      0 <= misalign && 0 <= off && misalign + off <= buffer.Length && 0 < buffer.Length <= MAX_BLOCK
    }

    ghost function Data(): (d: seq<Byte>)
      requires Fits()
      reads this, buffer
      ensures |d| == off
    {
      buffer[misalign..misalign + off]
    }

    /** CHAIN_SPACE_LEN */
    function Space(): int
      reads this
    {
      buffer.Length - (misalign + off)
    }

    /** evbuffer_chain_should_realign */
    predicate ShouldRealign(datlen: int)
      reads this
    {
      buffer.Length - off >= datlen && off < buffer.Length / 2 && off <= MAX_TO_REALIGN_IN_EXPAND
    }

    /** evbuffer_chain_align */
    method Align()
      requires Fits()
      modifies this, buffer
      ensures Fits() && Data() == old(Data()) && misalign == 0 && off == old(off)
    {
      MemCpy(buffer, 0, buffer[misalign..misalign + off]);
      misalign := 0;
    }

    /** Write data behind the data of the chain. */
    method WriteBehind(data: seq<Byte>)
      requires Fits() && |data| <= Space()
      modifies this, buffer
      ensures Fits() && Data() == old(Data()) + data && off == old(off) + |data| && misalign == old(misalign)
    {
      MemCpy(buffer, misalign + off, data);
      off := off + |data|;
    }

    /** Write data in front of the data of the chain. */
    method WriteBefore(data: seq<Byte>)
      requires Fits() && |data| <= misalign
      modifies this, buffer
      ensures Fits() && Data() == data + old(Data())
      ensures off == old(off) + |data| && misalign == old(misalign) - |data|
    {
      ghost var b, at, n := buffer[..], misalign, off;
      MemCpy(buffer, misalign - |data|, data);
      off := off + |data|;
      misalign := misalign - |data|;
      InFront(b, buffer[..], at, n, data);
    }

    /** Copy the first n bytes of the chain to dst. */
    method CopyTo(dst: array<Byte>, at: nat, n: nat)
      requires Fits() && n <= off && at + n <= dst.Length && dst != buffer
      modifies dst
      ensures dst[..] == old(dst[..])[..at] + Data()[..n] + old(dst[..])[at + n..]
    {
      MemCpy(dst, at, buffer[misalign..misalign + n]);
      assert Data()[..n] == buffer[misalign..misalign + n];
    }

    /** Copy the first n bytes of another chain behind the data of this one. */
    method TakeFrom(other: Chain, n: nat)
      requires Fits() && other.Fits() && n <= other.off && n <= Space()
      requires this != other && buffer != other.buffer
      modifies this, buffer
      ensures Fits() && other.Fits() && Data() == old(Data()) + other.Data()[..n] && other.Data() == old(other.Data())
      ensures off == old(off) + n && Space() == old(Space()) - n
    {
      assert other.Data()[..n] == other.buffer[other.misalign..other.misalign + n];
      WriteBehind(other.buffer[other.misalign..other.misalign + n]);
    }

    /** Give up the first n bytes. */
    method DropFront(n: nat)
      requires Fits() && n <= off
      modifies this
      ensures Fits() && Data() == old(Data())[n..] && off == old(off) - n
    {
      misalign := misalign + n;
      off := off - n;
    }
  }

  lemma InFront(b: seq<Byte>, b2: seq<Byte>, at: nat, n: nat, data: seq<Byte>)
    requires |data| <= at && at + n <= |b| && b2 == b[..at - |data|] + data + b[at - |data| + |data|..]
    ensures |b2| == |b| && b2[at - |data|..at + n] == data + b[at..at + n]
  {
  }

  /** memcpy and memmove: the source has been read before the first byte is written. */
  method MemCpy(dst: array<Byte>, at: nat, src: seq<Byte>)
    requires at + |src| <= dst.Length
    modifies dst
    ensures dst[..] == old(dst[..])[..at] + src + old(dst[..])[at + |src|..]
  {
    var i := 0;
    while i < |src|
      invariant 0 <= i <= |src|
      invariant forall k :: 0 <= k < dst.Length ==> dst[k] == if at <= k < at + i then src[k - at] else old(dst[k])
    {
      dst[at + i] := src[i];
      i := i + 1;
    }
  }

  /** evbuffer_chain_new: a block that holds at least size bytes, or NULL for an absurd size. */
  method ChainNew(size: nat) returns (c: Chain?)
    ensures c == null <==> size > MAX_BLOCK
    ensures c != null ==> fresh(c) && fresh(c.buffer) && size <= c.buffer.Length && c.Fits() &&
                          c.off == 0 && c.misalign == 0 && c.Data() == [] && c.Space() == c.buffer.Length
  {
    if size > MAX_BLOCK { return null; }
    var need := size + EVBUFFER_CHAIN_SIZE;
    var toAlloc := need;
    if need < EVBUFFER_CHAIN_MAX / 2 {
      toAlloc := MIN_BUFFER_SIZE;
      while toAlloc < need
        invariant MIN_BUFFER_SIZE <= toAlloc < 2 * need || toAlloc == MIN_BUFFER_SIZE
      {
        toAlloc := toAlloc * 2;
      }
    }
    c := new Chain(toAlloc - EVBUFFER_CHAIN_SIZE);
  }

  /** A new block of at least size bytes that holds data. */
  method ChainWith(size: nat, data: seq<Byte>) returns (c: Chain?)
    requires |data| <= size
    ensures c == null <==> size > MAX_BLOCK
    ensures c != null ==> fresh(c) && fresh(c.buffer) && c.Fits() && c.off == |data| && c.Data() == data
  {
    c := ChainNew(size);
    if c != null { c.WriteBehind(data); }
  }

  /** What a block of memory holds after data was written to its beginning. */
  function Filled(orig: seq<Byte>, data: seq<Byte>): seq<Byte>
    requires |data| <= |orig|
  {
    data + orig[|data|..]
  }

  lemma FilledNone(orig: seq<Byte>)
    ensures Filled(orig, []) == orig
  {
  }

  lemma FilledStep(orig: seq<Byte>, done: seq<Byte>, more: seq<Byte>)
    requires |done| + |more| <= |orig|
    ensures var was := Filled(orig, done);
            |was| == |orig| &&
            was[..|done|] + more + was[|done| + |more|..] == Filled(orig, done + more)
  {
    assert Filled(orig, done)[|done| + |more|..] == orig[|done| + |more|..];
  }

  /** A new block that holds data at its end. */
  method ChainEndingWith(data: seq<Byte>) returns (c: Chain?)
    ensures c == null <==> |data| > MAX_BLOCK
    ensures c != null ==> fresh(c) && fresh(c.buffer) && c.Fits() && c.off == |data| && c.Data() == data
  {
    c := ChainNew(|data|);
    if c != null {
      c.off := |data|;
      c.misalign := c.buffer.Length - |data|;
      MemCpy(c.buffer, c.misalign, data);
    }
  }

  // ----- lists of chains -----

  ghost predicate Separate(cs: seq<Chain>) {
    forall i, j :: 0 <= i < j < |cs| ==> cs[i] != cs[j] && cs[i].buffer != cs[j].buffer
  }

  /** The chains and their buffers. */
  ghost function MemoryOf(cs: seq<Chain>): set<object> {
    (set c: Chain | c in cs :: c as object) + (set c: Chain | c in cs :: c.buffer as object)
  }

  /** No chain of a is a chain of b. */
  ghost predicate Apart(a: seq<Chain>, b: seq<Chain>) {
    forall i, j :: 0 <= i < |a| && 0 <= j < |b| ==> a[i] != b[j] && a[i].buffer != b[j].buffer
  }

  /** A list of chains that holds the given blocks.  Without reserved space, only a single chain can be
      empty, and slot, the last_with_datap of the list, is the one before the last chain. */
  ghost predicate Linked(cs: seq<Chain>, blocks: seq<seq<Byte>>, slot: Chain?)
    reads cs, set c | c in cs :: c.buffer
  {
    && Holds(cs, blocks) && Separate(cs)
    && slot == (if |cs| <= 1 then null else cs[|cs| - 2])
    && (|cs| > 1 ==> forall i :: 0 <= i < |blocks| ==> blocks[i] != [])
  }

  /** blocks lists the data of each chain. */
  ghost predicate Holds(cs: seq<Chain>, blocks: seq<seq<Byte>>)
    reads cs, set c | c in cs :: c.buffer
  {
    |cs| == |blocks| && forall i :: 0 <= i < |cs| ==> cs[i].Fits() && cs[i].Data() == blocks[i]
  }

  lemma HoldsLengths(cs: seq<Chain>, blocks: seq<seq<Byte>>)
    requires Holds(cs, blocks)
    ensures |cs| == |blocks|
    ensures forall i :: 0 <= i < |cs| ==> |blocks[i]| == cs[i].off >= 0
  {
    forall i | 0 <= i < |cs| ensures |blocks[i]| == cs[i].off {
      assert |cs[i].Data()| == cs[i].off;
    }
  }

  lemma LinkedBehind(cs: seq<Chain>, blocks: seq<seq<Byte>>, slot: Chain?, c: Chain)
    requires Linked(cs, blocks, slot) && Apart([c], cs) && c.Fits() && (c.off > 0 || cs == [])
    ensures Linked([c], [c.Data()], null)
    ensures |cs| <= 1 ==> slot == null
    ensures |cs| == 1 && cs[0].off == 0 ==> Flat(blocks) == []
    ensures (|cs| == 1 && cs[0].off == 0) || Linked(cs + [c], blocks + [c.Data()], if |cs| > 0 then cs[|cs| - 1] else null)
  {
    forall i | 0 <= i < |cs| ensures cs[i] != c && cs[i].buffer != c.buffer {
      assert [c][0] != cs[i];
    }
    if |cs| == 1 && cs[0].off == 0 { 
      assert |cs[0].Data()| == 0;
      FlatEmpty(blocks);
    } else if |cs| == 1 { assert |cs[0].Data()| > 0; }
  }

  function Flat(d: seq<seq<Byte>>): seq<Byte>
    decreases |d|
  {
    if d == [] then [] else d[0] + Flat(d[1..])
  }

  lemma {:induction false} FlatAppend(a: seq<seq<Byte>>, b: seq<seq<Byte>>)
    ensures Flat(a + b) == Flat(a) + Flat(b)
    decreases |a|
  {
    if a == [] {
      assert a + b == b;
    } else {
      assert (a + b)[0] == a[0] && (a + b)[1..] == a[1..] + b;
      FlatAppend(a[1..], b);
    }
  }

  lemma FlatOne(d: seq<Byte>)
    ensures Flat([d]) == d
  {
    assert [d][1..] == [];
    assert d + [] == d;
  }

  /** More data behind the last block. */
  lemma FlatGrow(blocks: seq<seq<Byte>>, more: seq<Byte>)
    requires blocks != []
    ensures Flat(blocks[|blocks| - 1 := blocks[|blocks| - 1] + more]) == Flat(blocks) + more
  {
    var init, d := blocks[..|blocks| - 1], blocks[|blocks| - 1];
    FlatAppend(init, [d]);
    FlatAppend(init, [d + more]);
    FlatOne(d);
    FlatOne(d + more);
    assert blocks == init + [d] && blocks[|blocks| - 1 := d + more] == init + [d + more];
  }

  /** What a single empty block is worth. */
  lemma FlatEmpty(a: seq<seq<Byte>>)
    requires |a| == 0 || (|a| == 1 && a[0] == [])
    ensures Flat(a) == []
  {
    if |a| == 1 { assert a == [[]]; FlatOne([]); }
  }

  lemma FlatGrowFront(blocks: seq<seq<Byte>>, more: seq<Byte>)
    requires blocks != []
    ensures Flat(blocks[0 := more + blocks[0]]) == more + Flat(blocks)
  {
    assert blocks[0 := more + blocks[0]][1..] == blocks[1..];
    assert (more + blocks[0]) + Flat(blocks[1..]) == more + (blocks[0] + Flat(blocks[1..]));
  }

  lemma FlatFront(blocks: seq<seq<Byte>>, d: seq<Byte>)
    ensures Flat([d] + blocks) == d + Flat(blocks)
  {
    assert ([d] + blocks)[1..] == blocks;
  }

  lemma SplitAt(a: seq<Byte>, b: seq<Byte>, k: nat)
    requires k <= |b|
    ensures (a + b[..k]) + b[k..] == a + b
  {
  }

  lemma Associate(a: seq<Byte>, b: seq<Byte>, c: seq<Byte>)
    ensures (a + b) + c == a + (b + c)
  {
  }

  /** Where block k lies in the whole. */
  lemma FlatAt(blocks: seq<seq<Byte>>, k: nat)
    requires k < |blocks|
    ensures |Flat(blocks[..k])| + |blocks[k]| <= |Flat(blocks)|
    ensures Flat(blocks[..k + 1]) == Flat(blocks[..k]) + blocks[k]
    ensures Flat(blocks[k..]) == blocks[k] + Flat(blocks[k + 1..])
    ensures Flat(blocks) == Flat(blocks[..k]) + Flat(blocks[k..])
  {
    FlatAppend(blocks[..k], blocks[k..]);
    FlatAppend(blocks[..k], [blocks[k]]);
    FlatOne(blocks[k]);
    assert blocks[..k + 1] == blocks[..k] + [blocks[k]];
    assert blocks == blocks[..k] + blocks[k..];
    assert blocks[k..][1..] == blocks[k + 1..];
  }

  /** Copying the next block, or the beginning of it, extends a prefix. */
  lemma FlatPrefix(blocks: seq<seq<Byte>>, k: nat, n: nat)
    requires k < |blocks| && n <= |blocks[k]|
    ensures |Flat(blocks[..k])| + n <= |Flat(blocks)|
    ensures Flat(blocks)[..|Flat(blocks[..k])| + n] == Flat(blocks)[..|Flat(blocks[..k])|] + blocks[k][..n]
    ensures |Flat(blocks[..k + 1])| == |Flat(blocks[..k])| + |blocks[k]|
  {
    FlatAt(blocks, k);
  }

  lemma FlatNone(blocks: seq<seq<Byte>>)
    ensures Flat(blocks) != [] ==> blocks != []
  {
  }

  lemma FlatTrim(blocks: seq<seq<Byte>>, n: nat)
    requires blocks != [] && n <= |blocks[0]|
    ensures n <= |Flat(blocks)| && Flat(blocks[0 := blocks[0][n..]]) == Flat(blocks)[n..]
  {
    assert blocks[0 := blocks[0][n..]][1..] == blocks[1..];
  }

  lemma FlatHead(blocks: seq<seq<Byte>>)
    requires blocks != []
    ensures |blocks[0]| <= |Flat(blocks)| && Flat(blocks)[..|blocks[0]|] == blocks[0]
    ensures Flat(blocks[..0]) == [] && Flat(blocks[..1]) == blocks[0]
    ensures |blocks| == 1 ==> Flat(blocks) == blocks[0]
  {
    assert blocks[..1] == [blocks[0]];
    FlatOne(blocks[0]);
    if |blocks| == 1 { assert blocks == [blocks[0]]; }
  }

  lemma FlatFrom(blocks: seq<seq<Byte>>)
    ensures Flat(blocks[0..]) == Flat(blocks)
  {
    assert blocks[0..] == blocks;
  }

  lemma FlatEnd(blocks: seq<seq<Byte>>, k: nat)
    requires k == |blocks|
    ensures Flat(blocks[k..]) == [] && Flat(blocks[..k]) == Flat(blocks)
  {
    assert blocks[k..] == [] && blocks[..k] == blocks;
  }

  /** What lies behind len bytes lies behind fewer bytes after block k. */
  lemma FlatSkip(blocks: seq<seq<Byte>>, k: nat, len: nat, rest: nat)
    requires k < |blocks| && len <= |Flat(blocks)| && |blocks[k]| <= rest < |Flat(blocks[k..])|
    requires Flat(blocks)[len..] == Flat(blocks[k..])[rest..]
    ensures k + 1 < |blocks| && rest - |blocks[k]| < |Flat(blocks[k + 1..])|
    ensures Flat(blocks)[len..] == Flat(blocks[k + 1..])[rest - |blocks[k]|..]
  {
    FlatAt(blocks, k);
    if k + 1 == |blocks| { FlatEnd(blocks, k + 1); }
    assert Flat(blocks[k..])[rest..] == Flat(blocks[k + 1..])[rest - |blocks[k]|..];
  }

  // ----- how lists of chains change -----

  twostate lemma NewApart(new c: Chain, cs: seq<Chain>)
    requires fresh(c) && fresh(c.buffer)
    ensures Apart([c], cs)
  {
  }

  /** Linked, but for what chain k holds. */
  ghost predicate LinkedBut(cs: seq<Chain>, blocks: seq<seq<Byte>>, slot: Chain?, k: nat)
    requires k < |cs|
    reads cs[..k] + cs[k + 1..], set c | c in cs[..k] + cs[k + 1..] :: c.buffer
  {
    && |cs| == |blocks| && Separate(cs)
    && (forall i :: 0 <= i < |cs| && i != k ==> 
          cs[i] in cs[..k] + cs[k + 1..] && cs[i].Fits() && cs[i].Data() == blocks[i])
    && slot == (if |cs| <= 1 then null else cs[|cs| - 2])
    && (|cs| > 1 ==> forall i :: 0 <= i < |blocks| && i != k ==> blocks[i] != [])
  }

  /** What Linked says about chain k. */
  lemma LinkedAt(cs: seq<Chain>, blocks: seq<seq<Byte>>, slot: Chain?, k: nat)
    requires Linked(cs, blocks, slot) && k < |cs|
    ensures |cs| == |blocks| && cs[k].Fits() && cs[k].Data() == blocks[k] && |blocks[k]| == cs[k].off
    ensures |cs| > 1 ==> cs[k].off > 0
    ensures LinkedBut(cs, blocks, slot, k)
    ensures forall c :: c in cs[..k] + cs[k + 1..] ==> c != cs[k] && c.buffer != cs[k].buffer
  {
    forall i | 0 <= i < |cs| && i != k ensures cs[i] in cs[..k] + cs[k + 1..] {
      assert if i < k then cs[i] == (cs[..k] + cs[k + 1..])[i] else cs[i] == (cs[..k] + cs[k + 1..])[i - 1];
    }
  }

  lemma FirstApart(cs: seq<Chain>, blocks: seq<seq<Byte>>, slot: Chain?)
    requires Linked(cs, blocks, slot) && cs != []
    ensures Apart([cs[0]], cs[1..])
  {
  }

  /** Chain k has changed. */
  lemma LinkedUpdated(cs: seq<Chain>, blocks: seq<seq<Byte>>, slot: Chain?, k: nat)
    requires k < |cs| && LinkedBut(cs, blocks, slot, k)
    requires cs[k].Fits() && (cs[k].off > 0 || |cs| == 1)
    ensures |cs| == |blocks| && Linked(cs, blocks[k := cs[k].Data()], slot)
  {
    assert |cs[k].Data()| == cs[k].off;
  }

  /** A chain in front of a list that holds data, or of no list. */
  lemma LinkedBefore(cs: seq<Chain>, blocks: seq<seq<Byte>>, slot: Chain?, c: Chain)
    requires Linked(cs, blocks, slot) && Apart([c], cs) && c.Fits() && c.off > 0
    requires cs == [] || cs[0].off > 0
    ensures Linked([c] + cs, [c.Data()] + blocks, if cs == [] then null else if slot == null then c else slot)
  {
    assert |c.Data()| > 0;
    if |cs| > 0 { assert |cs[0].Data()| > 0; }
    forall i | 0 <= i < |cs| ensures cs[i] != c && cs[i].buffer != c.buffer {
      assert [c][0] != cs[i];
    }
  }

  lemma LinkedDrop(cs: seq<Chain>, blocks: seq<seq<Byte>>, slot: Chain?, k: nat)
    requires Linked(cs, blocks, slot) && k <= |cs|
    ensures |cs| == |blocks| && Linked(cs[k..], blocks[k..], if |cs| <= k + 1 then null else slot)
  {
  }

  lemma LinkedTake(cs: seq<Chain>, blocks: seq<seq<Byte>>, slot: Chain?, k: nat)
    requires Linked(cs, blocks, slot) && k <= |cs|
    ensures |cs| == |blocks| && Linked(cs[..k], blocks[..k], if k <= 1 then null else cs[k - 2])
  {
  }

  /** Two lists that hold data, one behind the other. */
  lemma LinkedConcat(a: seq<Chain>, blocksA: seq<seq<Byte>>, slotA: Chain?,
                     b: seq<Chain>, blocksB: seq<seq<Byte>>, slotB: Chain?)
    requires Linked(a, blocksA, slotA) && Linked(b, blocksB, slotB) && Apart(a, b)
    requires Flat(blocksA) != [] && Flat(blocksB) != []
    ensures a != [] && b != []
    ensures Linked(a + b, blocksA + blocksB, if slotB == null then a[|a| - 1] else slotB)
    ensures Flat(blocksA + blocksB) == Flat(blocksA) + Flat(blocksB)
  {
    hide Flat, Chain.Data;
    FlatNone(blocksA);
    FlatNone(blocksB);
    FlatAppend(blocksA, blocksB);
    if |blocksA| == 1 && blocksA[0] == [] { FlatEmpty(blocksA); }
    if |blocksB| == 1 && blocksB[0] == [] { FlatEmpty(blocksB); }
  }

  /** The index of the chain a next field points at: the field belongs to owner, or is the head of
      the list if owner is null.  The owner must still be in the list: a field of a freed chain cannot be
      followed. */
  function SlotIndex(cs: seq<Chain>, owner: Chain?): (i: nat)
    requires owner == null || owner in cs
    ensures i <= |cs|
    ensures owner == null ==> i == 0
    ensures owner != null ==> 0 < i && cs[i - 1] == owner
    decreases |cs|
  {
    if owner == null then 0 else if cs[0] == owner then 1 else 1 + SlotIndex(cs[1..], owner)
  }

  /** Where the slot of a list points: at the last chain. */
  lemma SlotOf(cs: seq<Chain>, blocks: seq<seq<Byte>>, slot: Chain?)
    requires Linked(cs, blocks, slot)
    ensures |cs| == |blocks|
    ensures slot == if |cs| <= 1 then null else cs[|cs| - 2]
    ensures SlotIndex(cs, slot) == if cs == [] then 0 else |cs| - 1
    ensures forall i :: 0 <= i < |cs| && cs[i] == slot ==> i == |cs| - 2
  {
  }

  lemma StillApart(a: seq<Chain>, a1: seq<Chain>, a2: seq<Chain>, b: seq<Chain>)
    requires forall c :: c in a ==> c in a1 || c in a2
    requires Apart(a1, b) && Apart(a2, b)
    ensures Apart(a, b)
  {
    forall i, j | 0 <= i < |a| && 0 <= j < |b| ensures a[i] != b[j] && a[i].buffer != b[j].buffer {
      assert a[i] in a;
    }
  }

  lemma InFootprint(cs: seq<Chain>, i: nat)
    requires i < |cs|
    ensures cs[i] in MemoryOf(cs)
  {
    assert cs[i] in cs;
  }

  lemma WithinFootprint(cs: seq<Chain>, a: seq<Chain>, b: seq<Chain>)
    requires forall c :: c in cs ==> c in a + b
    ensures MemoryOf(cs) <= MemoryOf(a) + MemoryOf(b)
  {
    forall o | o in MemoryOf(cs) ensures o in MemoryOf(a) + MemoryOf(b) {
      var c :| c in cs && (o == c || o == c.buffer);
      assert c in a + b;
    }
  }

  /** The two halves of a list have no chain in common. */
  lemma LinkedSplit(cs: seq<Chain>, blocks: seq<seq<Byte>>, slot: Chain?, k: nat)
    requires Linked(cs, blocks, slot) && k <= |cs|
    ensures Apart(cs[..k], cs[k..])
  {
  }

  /** A list that is empty or holds data, and a list that holds data behind it. */
  lemma AppendChains(a: seq<Chain>, blocksA: seq<seq<Byte>>, slotA: Chain?,
                     b: seq<Chain>, blocksB: seq<seq<Byte>>, slotB: Chain?)
    requires Linked(a, blocksA, slotA) && Linked(b, blocksB, slotB) && Apart(a, b)
    requires (a != [] ==> Flat(blocksA) != []) && Flat(blocksB) != []
    ensures Linked(a + b, blocksA + blocksB, if a == [] then slotB else if slotB == null then a[|a| - 1] else slotB)
    ensures Flat(blocksA + blocksB) == Flat(blocksA) + Flat(blocksB)
    ensures slotA == null || (slotA in a + b && SlotIndex(a + b, slotA) < |a + b|)
  {
    SlotOf(a, blocksA, slotA);
    FlatAppend(blocksA, blocksB);
    if a == [] {
      assert a + b == b && blocksA + blocksB == blocksB;
    } else {
      LinkedConcat(a, blocksA, slotA, b, blocksB, slotB);
      if slotA != null { SlotShift(a, b, slotA); }
    }
  }

  lemma {:induction false} SlotShift(a: seq<Chain>, b: seq<Chain>, owner: Chain)
    requires owner in a
    ensures owner in a + b && SlotIndex(a + b, owner) == SlotIndex(a, owner)
    decreases |a|
  {
    assert (a + b)[0] == a[0] && (a + b)[1..] == a[1..] + b;
    if a[0] != owner { SlotShift(a[1..], b, owner); }
  }

  /** Freeing the trailing empty chains leaves the data. */
  lemma KeptChains(cs: seq<Chain>, blocks: seq<seq<Byte>>, slot: Chain?, k: nat, others: seq<Chain>)
    requires Linked(cs, blocks, slot) && Apart(cs, others)
    requires k == if |cs| == 1 && cs[0].off == 0 then 0 else |cs|
    ensures |cs| == |blocks| && Linked(cs[..k], blocks[..k], slot) && Apart(cs[..k], others)
    ensures Flat(blocks[..k]) == Flat(blocks) && (cs[..k] != [] ==> Flat(blocks) != [])
  {
    if k == 0 {
      HoldsLengths(cs, blocks);
      FlatEmpty(blocks);
      FlatEmpty(blocks[..k]);
    } else {
      assert cs[..k] == cs && blocks[..k] == blocks;
      HoldsLengths(cs, blocks);
      FlatHead(blocks);
    }
  }

  class EvBuffer {
    /** the list of chains, from first to last */
    var chains: seq<Chain>
    /** last_with_datap, a pointer to a next field: the chain that field belongs to, or null when
        it is &buf->first */
    var lastWithDatap: Chain?
    var totalLen: int
    var freezeStart: bool
    var freezeEnd: bool
    ghost var blocks: seq<seq<Byte>>

    ghost predicate Valid()
      reads this, chains, set c | c in chains :: c.buffer
    {
      && Linked(chains, blocks, lastWithDatap)
      && totalLen == |Contents()| <= EV_SIZE_MAX
    }

    /** The bytes that the buffer holds. */
    ghost function Contents(): (s: seq<Byte>)
      reads this
    {
      Flat(blocks)
    }

    constructor ()
      ensures Valid() && Contents() == [] && !freezeStart && !freezeEnd && chains == []
    {
      chains, lastWithDatap, totalLen := [], null, 0;
      freezeStart, freezeEnd := false, false;
      blocks := [];
    }

    /** What evbuffer-internal.h promises about last_with_datap: it points at the last chain with data, at
        the first chain if all are empty, at NULL if there are none. */
    lemma LastWithDataIsDocumented()
      requires Valid()
      ensures lastWithDatap == null || lastWithDatap in chains
      ensures var i := SlotIndex(chains, lastWithDatap);
              if i == |chains| then chains == []
              else (forall j :: 0 <= j < |chains| && chains[j].off > 0 ==> j <= i && chains[i].off > 0) &&
                   (chains[i].off == 0 ==> i == 0)
    {
      var i := SlotIndex(chains, lastWithDatap);
      if i < |chains| { assert |chains[i].Data()| == chains[i].off; }
    }

    lemma SlotIsLast()
      requires Valid()
      ensures lastWithDatap == null || lastWithDatap in chains
      ensures SlotIndex(chains, lastWithDatap) == if chains == [] then 0 else |chains| - 1
    {
    }

    /** The search of evbuffer_free_trailing_empty_chains and evbuffer_chain_insert: from last_with_datap on,
        the first chain without data; the index behind the list if there is none. */
    method FirstVictim() returns (i: nat)
      requires Valid()
      ensures i == if |chains| == 1 && chains[0].off == 0 then 0 else |chains|
    {
      hide Flat;
      HoldsLengths(chains, blocks);
      SlotIsLast();
      i := SlotIndex(chains, lastWithDatap);
      while i < |chains| && chains[i].off != 0
        invariant SlotIndex(chains, lastWithDatap) <= i <= |chains|
        invariant forall k :: SlotIndex(chains, lastWithDatap) <= k < i ==> chains[k].off != 0
      {
        i := i + 1;
      }
    }

    /** evbuffer_chain_insert, for a chain that holds data or is the first. */
    method ChainInsert(c: Chain)
      requires Valid() && Apart([c], chains)
      requires c.Fits() && (c.off > 0 || chains == []) && totalLen + c.off <= EV_SIZE_MAX
      modifies this`chains, this`lastWithDatap, this`totalLen, this`blocks
      ensures Valid() && Contents() == old(Contents()) + c.Data()
      ensures chains == (if |old(chains)| == 1 && old(chains[0].off) == 0 then [c] else old(chains) + [c])
    {
      hide Flat, Linked, Apart;
      FlatAppend(blocks, [c.Data()]);
      FlatOne(c.Data());
      LinkedBehind(chains, blocks, lastWithDatap, c);
      var i := FirstVictim();
      if i == |chains| {
        // there is no victim: append
        if c.off != 0 && chains != [] { lastWithDatap := chains[|chains| - 1]; }
        chains, blocks := chains + [c], blocks + [c.Data()];
      } else {
        // replace all victim chains with this chain
        chains, blocks := chains[..i] + [c], blocks[..i] + [c.Data()];
        assert chains == [c] && blocks == [c.Data()];
        assert old(Contents()) + c.Data() == c.Data();
      }
      totalLen := totalLen + c.off;
    }

    /** Every chain of the list was there before or is new. */
    twostate predicate OnlyNewChains()
      reads this
    {
      forall c :: c in chains ==> c in old(chains) || (fresh(c) && fresh(c.buffer))
    }

    /** The two buffers share no memory. */
    ghost predicate ApartFrom(other: EvBuffer)
      reads this, other
    {
      this != other && Apart(chains, other.chains)
    }

    /** The memory of the chains. */
    ghost function Footprint(): set<object>
      reads this
    {
      MemoryOf(chains)
    }

    /** Copy data into the space of the last chain. */
    method WriteBehindLast(data: seq<Byte>)
      requires Valid() && chains != [] && |data| <= chains[|chains| - 1].Space()
      requires totalLen + |data| <= EV_SIZE_MAX
      modifies this`totalLen, this`blocks, chains[|chains| - 1], chains[|chains| - 1].buffer
      ensures Valid() && Contents() == old(Contents()) + data
      ensures chains[|chains| - 1].off == old(chains[|chains| - 1].off) + |data|
    {
      hide Flat, Linked, LinkedBut;
      var k := |chains| - 1;
      LinkedAt(chains, blocks, lastWithDatap, k);
      FlatGrow(blocks, data);
      chains[k].WriteBehind(data);
      LinkedUpdated(chains, blocks, lastWithDatap, k);
      blocks := blocks[k := chains[k].Data()];
      totalLen := totalLen + |data|;
    }

    /** evbuffer_chain_align on the last chain. */
    method RealignLast()
      requires Valid() && chains != []
      modifies this`blocks, chains[|chains| - 1], chains[|chains| - 1].buffer
      ensures Valid() && Contents() == old(Contents())
      ensures chains[|chains| - 1].misalign == 0 && chains[|chains| - 1].off == old(chains[|chains| - 1].off)
    {
      hide Flat, Linked, LinkedBut;
      var k := |chains| - 1;
      LinkedAt(chains, blocks, lastWithDatap, k);
      chains[k].Align();
      LinkedUpdated(chains, blocks, lastWithDatap, k);
      assert blocks[k := chains[k].Data()] == blocks;
    }

    /** Copy what fits into the last chain. */
    method FillLast(data: seq<Byte>, remain: nat)
      requires Valid() && |data| <= EV_SIZE_MAX - totalLen
      requires chains != [] && remain == chains[|chains| - 1].Space() < |data|
      modifies this`totalLen, this`blocks, chains[|chains| - 1], chains[|chains| - 1].buffer
      ensures Valid() && Contents() == old(Contents()) + data[..remain]
      ensures chains[|chains| - 1].off == old(chains[|chains| - 1].off) + remain
    {
      if remain != 0 {
        WriteBehindLast(data[..remain]);
      }
    }

    /** The end of evbuffer_add: fill the last chain, and add another one for the rest. */
    method AddChain(data: seq<Byte>, remain: nat) returns (r: int)
      requires Valid() && |data| <= EV_SIZE_MAX - totalLen
      requires chains != [] && remain == chains[|chains| - 1].Space() < |data|
      modifies this`chains, this`lastWithDatap, this`totalLen, this`blocks
      modifies chains[|chains| - 1], chains[|chains| - 1].buffer
      ensures Valid() && OnlyNewChains()
      ensures r == if |data| > MAX_BLOCK then -1 else 0
      ensures Contents() == if r == 0 then old(Contents()) + data else old(Contents())
    {
      hide Flat, Linked, LinkedBut, Chain.Data, Chain.Space, Chain.Fits;
      LinkedAt(chains, blocks, lastWithDatap, |chains| - 1);
      SplitAt(old(Contents()), data, remain);
      var toAlloc := chains[|chains| - 1].buffer.Length;
      if toAlloc <= EVBUFFER_CHAIN_MAX_AUTO_SIZE / 2 { toAlloc := 2 * toAlloc; }
      if |data| > toAlloc { toAlloc := |data|; }
      var tmp := ChainWith(toAlloc, data[remain..]);
      if tmp == null { return -1; }
      FillLast(data, remain);
      ChainInsert(tmp);
      r := 0;
    }

    /** evbuffer_add */
    method Add(data: seq<Byte>) returns (r: int)
      requires Valid()
      modifies this, chains, set c | c in chains :: c.buffer
      ensures Valid() && OnlyNewChains()
      ensures r == if freezeEnd || |data| > EV_SIZE_MAX - old(totalLen) || |data| > MAX_BLOCK then -1 else 0
      ensures Contents() == if r == 0 then old(Contents()) + data else old(Contents())
      ensures freezeStart == old(freezeStart) && freezeEnd == old(freezeEnd)
    {
      hide Flat, Linked, LinkedBut, Chain.Data;
      if freezeEnd { return -1; }
      if |data| > EV_SIZE_MAX - totalLen { return -1; }
      if chains == [] {
        // no chains allocated: allocate one big enough to hold all the data
        var c := ChainNew(|data|);
        if c == null { return -1; }
        ChainInsert(c);
      }
      r := AddToLast(data);
    }

    /** The rest of Add, once there is a last chain. */
    method AddToLast(data: seq<Byte>) returns (r: int)
      requires Valid() && |data| <= EV_SIZE_MAX - totalLen && chains != []
      modifies this`chains, this`lastWithDatap, this`totalLen, this`blocks
      modifies chains[|chains| - 1], chains[|chains| - 1].buffer
      ensures Valid() && OnlyNewChains()
      ensures r == 0 || (r == -1 && |data| > MAX_BLOCK && |data| > old(chains[|chains| - 1].Space()))
      ensures |data| > MAX_BLOCK ==> r == -1
      ensures Contents() == if r == 0 then old(Contents()) + data else old(Contents())
    {
      hide Flat, Linked, LinkedBut, Chain.Data;
      var chain := chains[|chains| - 1];
      LinkedAt(chains, blocks, lastWithDatap, |chains| - 1);
      var remain := chain.Space();
      if remain >= |data| {
        // enough space in the current last chain
        WriteBehindLast(data);
        return 0;
      } else if chain.ShouldRealign(|data|) {
        // the data fits into the misalignment
        RealignLast();
        WriteBehindLast(data);
        return 0;
      }
      r := AddChain(data, remain);
    }

    /** The room in front of the data: all of the first chain if it is empty. */
    function FrontRoom(): int
      reads this, chains
    {
      if chains == [] then 0 else if chains[0].off == 0 then chains[0].buffer.Length else chains[0].misalign
    }

    /** Treat an empty first chain as empty at the beginning rather than empty at the end. */
    method ResetFirst()
      requires Valid() && chains != []
      modifies this`blocks, chains[0]
      ensures Valid() && Contents() == old(Contents())
      ensures chains[0].misalign == FrontRoom() == old(FrontRoom())
    {
      hide Flat, Linked, LinkedBut;
      LinkedAt(chains, blocks, lastWithDatap, 0);
      if chains[0].off == 0 {
        chains[0].misalign := chains[0].buffer.Length;
        assert chains[0].Data() == [];
      }
      LinkedUpdated(chains, blocks, lastWithDatap, 0);
      assert blocks[0 := chains[0].Data()] == blocks;
    }

    /** Copy data into the misalignment of the first chain. */
    method WriteBeforeFirst(data: seq<Byte>)
      requires Valid() && chains != [] && |data| <= chains[0].misalign
      requires totalLen + |data| <= EV_SIZE_MAX
      modifies this`totalLen, this`blocks, chains[0], chains[0].buffer
      ensures Valid() && Contents() == data + old(Contents())
      ensures chains[0].off == old(chains[0].off) + |data|
    {
      hide Flat, Linked, LinkedBut;
      LinkedAt(chains, blocks, lastWithDatap, 0);
      FlatGrowFront(blocks, data);
      chains[0].WriteBefore(data);
      LinkedUpdated(chains, blocks, lastWithDatap, 0);
      blocks := blocks[0 := chains[0].Data()];
      totalLen := totalLen + |data|;
    }

    /** The end of evbuffer_prepend: another chain in front, with the data at its end. */
    method PrependChain(data: seq<Byte>) returns (r: int)
      requires Valid() && 0 < |data| <= EV_SIZE_MAX - totalLen
      requires chains != [] && chains[0].off > 0
      modifies this`chains, this`lastWithDatap, this`totalLen, this`blocks
      ensures Valid() && OnlyNewChains()
      ensures r == if |data| > MAX_BLOCK then -1 else 0
      ensures Contents() == if r == 0 then data + old(Contents()) else old(Contents())
    {
      hide Flat, Linked, LinkedBut, Chain.Data, Chain.Fits;
      var tmp := ChainEndingWith(data);
      if tmp == null { return -1; }
      LinkedBefore(chains, blocks, lastWithDatap, tmp);
      FlatFront(blocks, data);
      if lastWithDatap == null { lastWithDatap := tmp; }
      chains, blocks := [tmp] + chains, [data] + blocks;
      totalLen := totalLen + |data|;
      r := 0;
    }

    /** Fill the misalignment of the first chain, and add another one for the rest. */
    method PrependSplit(data: seq<Byte>, room: nat) returns (r: int)
      requires Valid() && |data| <= EV_SIZE_MAX - totalLen
      requires chains != [] && chains[0].misalign == room < |data| && (chains[0].off > 0 || room > 0)
      modifies this`chains, this`lastWithDatap, this`totalLen, this`blocks, chains[0], chains[0].buffer
      ensures Valid() && OnlyNewChains()
      ensures r == if |data| - room > MAX_BLOCK then -1 else 0
      ensures Contents() == (if r == 0 then data else data[|data| - room..]) + old(Contents())
    {
      hide Flat, Linked, LinkedBut;
      LinkedAt(chains, blocks, lastWithDatap, 0);
      var k := |data| - room;
      if room != 0 {
        WriteBeforeFirst(data[k..]);
      }
      assert Contents() == data[k..] + old(Contents());
      assert data[..k] + (data[k..] + old(Contents())) == data + old(Contents());
      hide Chain.Data, Chain.Fits;
      r := PrependChain(data[..k]);
    }

    /** evbuffer_prepend.  When no block can be had for the rest of the data, its end is left in front of
        the buffer. */
    method Prepend(data: seq<Byte>) returns (r: int)
      requires Valid()
      modifies this, chains, set c | c in chains :: c.buffer
      ensures Valid() && OnlyNewChains()
      ensures r == if freezeStart || |data| > EV_SIZE_MAX - old(totalLen) || |data| - old(FrontRoom()) > MAX_BLOCK
                   then -1 else 0
      ensures r == 0 ==> Contents() == data + old(Contents())
      ensures r != 0 ==> Contents() == if freezeStart || |data| > EV_SIZE_MAX - old(totalLen) then old(Contents())
                                       else data[|data| - old(FrontRoom())..] + old(Contents())
      ensures freezeStart == old(freezeStart) && freezeEnd == old(freezeEnd)
    {
      hide Flat, Linked, LinkedBut, Apart, Chain.Data, Chain.Fits;
      if freezeStart { return -1; }
      if |data| > EV_SIZE_MAX - totalLen { return -1; }
      if chains == [] {
        var ok := StartEmpty(|data|);
        if !ok {
          Whole(data, Contents());
          return -1;
        }
      }
      assert chains[0] in chains;
      r := PrependToFirst(data);
    }

    /** The first chain of an empty buffer */
    method StartEmpty(n: nat) returns (ok: bool)
      requires Valid() && chains == []
      modifies this`chains, this`lastWithDatap, this`totalLen, this`blocks
      ensures Valid() && OnlyNewChains() && Contents() == old(Contents()) == [] && totalLen == old(totalLen)
      ensures ok <==> n <= MAX_BLOCK
      ensures if ok then chains != [] && FrontRoom() >= n else chains == []
    {
      EmptyFlat();
      var c := ChainNew(n);
      ok := c != null;
      if ok { ChainInsert(c); }
    }

    /** The end of evbuffer_prepend, with a first chain */
    method PrependToFirst(data: seq<Byte>) returns (r: int)
      requires Valid() && chains != [] && |data| <= EV_SIZE_MAX - totalLen
      modifies this`chains, this`lastWithDatap, this`totalLen, this`blocks, chains[0], chains[0].buffer
      ensures Valid() && OnlyNewChains()
      ensures r == if |data| - old(FrontRoom()) > MAX_BLOCK then -1 else 0
      ensures r != 0 ==> 0 <= old(FrontRoom()) <= |data|
      ensures Contents() == (if r == 0 then data else data[|data| - old(FrontRoom())..]) + old(Contents())
    {
      hide Flat, Linked, LinkedBut, Chain.Data;
      ResetFirst();
      LinkedAt(chains, blocks, lastWithDatap, 0);
      var room := chains[0].misalign;
      if room >= |data| {
        // enough space to fit everything
        WriteBeforeFirst(data);
        return 0;
      }
      r := PrependSplit(data, room);
    }

    /** Give up the first n bytes of the first chain, which holds more.  slot is the last_with_datap that
        fits the list. */
    method TrimFirst(n: nat, ghost slot: Chain?)
      requires Linked(chains, blocks, slot) && chains != [] && n < chains[0].off
      modifies this`blocks, chains[0]
      ensures Linked(chains, blocks, slot) && blocks != [] && |old(blocks)| == |blocks| && n < |old(blocks[0])|
      ensures blocks == old(blocks)[0 := old(blocks[0])[n..]] && chains[0].off == old(chains[0].off) - n
      ensures Flat(blocks) == old(Flat(blocks))[n..]
    {
      hide Linked, LinkedBut, Flat;
      LinkedAt(chains, blocks, slot, 0);
      FlatTrim(blocks, n);
      chains[0].DropFront(n);
      LinkedUpdated(chains, blocks, slot, 0);
      blocks := blocks[0 := chains[0].Data()];
    }

    /** evbuffer_drain */
    method Drain(len: nat) returns (r: int)
      requires Valid()
      modifies this, set c: Chain | c in chains
      ensures Valid() && forall c :: c in chains ==> c in old(chains)
      ensures r == if old(totalLen) != 0 && freezeStart then -1 else 0
      ensures Contents() == if r != 0 then old(Contents())
                            else if len >= |old(Contents())| then [] else old(Contents())[len..]
      ensures freezeStart == old(freezeStart) && freezeEnd == old(freezeEnd)
    {
      if totalLen == 0 { return 0; }
      if freezeStart { return -1; }
      if len >= totalLen {
        chains, lastWithDatap, totalLen, blocks := [], null, 0, [];
      } else {
        DrainPart(len);
      }
      r := 0;
    }

    /** evbuffer_drain for a buffer that holds more than len bytes. */
    method DrainPart(len: nat)
      requires Valid() && len < totalLen
      modifies this`chains, this`lastWithDatap, this`totalLen, this`blocks, chains
      ensures Valid() && (forall c :: c in chains ==> c in old(chains)) && Contents() == old(Contents())[len..]
    {
      hide Flat, Linked, LinkedBut;
      var i, remaining := FreeDrained(len);
      totalLen := totalLen - len;
      LinkedAt(chains, blocks, old(lastWithDatap), i);
      LinkedDrop(chains, blocks, old(lastWithDatap), i);
      chains, blocks := chains[i..], blocks[i..];
      assert chains[0] == old(chains)[i];
      TrimFirst(remaining, lastWithDatap);
    }

    /** The loop of evbuffer_drain: the chains before chain i are freed, and remaining bytes of chain i are
        still to go. */
    method FreeDrained(len: nat) returns (i: nat, remaining: nat)
      requires Valid() && len < totalLen
      modifies this`lastWithDatap
      ensures i < |chains| && remaining < chains[i].off && |blocks| == |chains|
      ensures len <= |Flat(blocks)| && remaining <= |Flat(blocks[i..])|
      ensures Flat(blocks)[len..] == Flat(blocks[i..])[remaining..]
      ensures lastWithDatap == if i + 1 == |chains| then null else old(lastWithDatap)
    {
      hide Flat, Linked, LinkedBut;
      ghost var slot := lastWithDatap;
      SlotOf(chains, blocks, slot);
      FlatFrom(blocks);
      FlatNone(blocks);
      remaining, i := len, 0;
      while remaining >= chains[i].off
        invariant 0 <= i < |chains|
        invariant remaining < |Flat(blocks[i..])|
        invariant Flat(blocks)[len..] == Flat(blocks[i..])[remaining..]
        invariant lastWithDatap == if i + 1 == |chains| then null else slot
        decreases |chains| - i
      {
        LinkedAt(chains, blocks, slot, i);
        FlatSkip(blocks, i, len, remaining);
        remaining := remaining - chains[i].off;
        // last_with_datap points at the chain to be freed, or is a field of it
        lastWithDatap := if i == SlotIndex(chains, lastWithDatap) || chains[i] == lastWithDatap then null
                         else lastWithDatap;
        i := i + 1;
      }
    }

    /** evbuffer_copyout: out receives the first bytes of the buffer. */
    method CopyOut(out: array<Byte>, datlen: nat) returns (r: int)
      requires Valid() && (forall c :: c in chains ==> c.buffer != out)
      requires Min(datlen, totalLen) <= out.Length
      modifies out
      ensures Valid() && Contents() == old(Contents())
      ensures var n := Min(datlen, totalLen);
              if n != 0 && freezeStart then r == -1 && out[..] == old(out[..])
              else r == Signed(n, SSIZE_MODULUS) && out[..] == Filled(old(out[..]), Contents()[..n])
    {
      var n := if datlen >= totalLen then totalLen else datlen;
      if n == 0 { return 0; }
      if freezeStart { return -1; }
      CopyPrefix(out, n);
      r := Signed(n, SSIZE_MODULUS);
    }

    /** Copy the first n bytes of chain i to the place where the copies of the chains before it end. */
    method CopyPiece(out: array<Byte>, i: nat, at: nat, n: nat, ghost orig: seq<Byte>)
      requires Valid() && (forall c :: c in chains ==> c.buffer != out)
      requires i < |chains| == |blocks| && n <= chains[i].off && at + n <= |orig|
      requires at == |Flat(blocks[..i])| <= |Contents()|
      requires out[..] == Filled(orig, Contents()[..at])
      modifies out
      ensures Valid() && Contents() == old(Contents())
      ensures at + n <= |Contents()| && |Flat(blocks[..i + 1])| == at + |blocks[i]| && chains[i].off == |blocks[i]|
      ensures out[..] == Filled(orig, Contents()[..at + n])
    {
      hide Flat, Linked, LinkedBut, Filled, Chain.Data;
      LinkedAt(chains, blocks, lastWithDatap, i);
      FlatPrefix(blocks, i, n);
      FilledStep(orig, Contents()[..at], blocks[i][..n]);
      assert chains[i] in chains;
      chains[i].CopyTo(out, at, n);
    }

    /** The loop of evbuffer_copyout. */
    method CopyPrefix(out: array<Byte>, n: nat)
      requires Valid() && (forall c :: c in chains ==> c.buffer != out)
      requires 0 < n <= totalLen && n <= out.Length
      modifies out
      ensures Valid() && Contents() == old(Contents())
      ensures out[..] == Filled(old(out[..]), Contents()[..n])
    {
      hide Flat, Linked, Filled, Chain.Data;
      var left, i, at := n, 0, 0;
      SlotOf(chains, blocks, lastWithDatap);
      FlatEnd(blocks[..0], 0);
      assert blocks[..0][0..] == [] && blocks[..0][..0] == [];
      FilledNone(out[..]);
      FlatNone(blocks);
      while left != 0 && left >= chains[i].off
        invariant 0 <= i <= |chains| == |blocks| && at + left == n && 0 <= at == |Flat(blocks[..i])| && 0 <= left
        invariant left != 0 ==> i < |chains|
        invariant Valid() && Contents() == old(Contents())
        invariant out[..] == Filled(old(out[..]), Contents()[..at])
        decreases |chains| - i
      {
        LinkedAt(chains, blocks, lastWithDatap, i);
        var off := chains[i].off;
        CopyPiece(out, i, at, off, old(out[..]));
        at := at + off;
        left := left - off;
        i := i + 1;
        if i == |chains| { FlatEnd(blocks, i); }
      }
      if left != 0 {
        CopyPiece(out, i, at, left, old(out[..]));
      }
    }

    /** evbuffer_remove */
    method Remove(out: array<Byte>, datlen: nat) returns (r: int)
      requires Valid() && (forall c :: c in chains ==> c.buffer != out)
      requires Min(datlen, totalLen) <= out.Length && out.Length < SSIZE_MODULUS / 2
      modifies this, out, set c: Chain | c in chains
      ensures Valid() && forall c :: c in chains ==> c in old(chains)
      ensures var n := Min(datlen, old(totalLen));
              if n != 0 && freezeStart then r == -1 && out[..] == old(out[..]) && Contents() == old(Contents())
              else r == Signed(n, INT_MODULUS) && out[..] == Filled(old(out[..]), old(Contents())[..n]) &&
                   Contents() == old(Contents())[n..]
      ensures freezeStart == old(freezeStart) && freezeEnd == old(freezeEnd)
    {
      hide Filled, Linked, Flat;
      var n := CopyOut(out, datlen);
      if n > 0 {
        var d := Drain(n);
        if d < 0 { n := -1; }
      }
      r := if n < 0 then n else Signed(n, INT_MODULUS);
    }

    /** evbuffer_add_buffer: move the contents of inbuf behind those of this buffer. */
    method AddBuffer(inbuf: EvBuffer) returns (r: int)
      requires Valid() && inbuf.Valid()
      requires inbuf != this ==> ApartFrom(inbuf) && totalLen + inbuf.totalLen <= EV_SIZE_MAX
      modifies this, inbuf
      ensures Valid() && inbuf.Valid()
      ensures freezeStart == old(freezeStart) && freezeEnd == old(freezeEnd)
      ensures inbuf.freezeStart == old(inbuf.freezeStart) && inbuf.freezeEnd == old(inbuf.freezeEnd)
      ensures var noop := old(inbuf.totalLen) == 0 || inbuf == this;
              r == if !noop && (freezeEnd || inbuf.freezeStart) then -1 else 0
      ensures if r == 0 && inbuf != this
              then Contents() == old(Contents()) + old(inbuf.Contents()) && inbuf.Contents() == []
              else Contents() == old(Contents()) && inbuf.Contents() == old(inbuf.Contents())
      ensures forall c :: c in chains + inbuf.chains ==> c in old(chains + inbuf.chains)
      ensures inbuf != this ==> ApartFrom(inbuf)
    {
      hide Flat, Linked;
      if inbuf.totalLen == 0 || this == inbuf { return 0; }
      if freezeEnd || inbuf.freezeStart { return -1; }
      if totalLen == 0 {
        // an empty chain at the start of this buffer is freed
        CopyChain(inbuf);
      } else {
        AppendChain(inbuf);
      }
      inbuf.ZeroChain();
      r := 0;
    }

    /** ZERO_CHAIN */
    method ZeroChain()
      modifies this`chains, this`lastWithDatap, this`totalLen, this`blocks
      ensures Valid() && Contents() == [] && chains == []
    {
      chains, lastWithDatap, totalLen, blocks := [], null, 0, [];
    }

    /** COPY_CHAIN */
    method CopyChain(src: EvBuffer)
      requires src != this && src.Valid()
      modifies this`chains, this`lastWithDatap, this`totalLen, this`blocks
      ensures Valid() && Contents() == src.Contents() && chains == src.chains
    {
      chains, lastWithDatap, totalLen, blocks := src.chains, src.lastWithDatap, src.totalLen, src.blocks;
    }

    /** APPEND_CHAIN */
    method AppendChain(src: EvBuffer)
      requires src != this && Valid() && src.Valid() && ApartFrom(src)
      requires 0 < totalLen && 0 < src.totalLen && totalLen + src.totalLen <= EV_SIZE_MAX
      modifies this`chains, this`lastWithDatap, this`totalLen, this`blocks
      ensures Valid() && Contents() == old(Contents()) + src.Contents() && chains == old(chains) + src.chains
    {
      hide Flat, Linked;
      LinkedConcat(chains, blocks, lastWithDatap, src.chains, src.blocks, src.lastWithDatap);
      lastWithDatap := if src.lastWithDatap == null then chains[|chains| - 1] else src.lastWithDatap;
      chains, blocks := chains + src.chains, blocks + src.blocks;
      totalLen := totalLen + src.totalLen;
    }

    /** PREPEND_CHAIN */
    method PrependChains(src: EvBuffer)
      requires src != this && Valid() && src.Valid() && ApartFrom(src)
      requires 0 < totalLen && 0 < src.totalLen && totalLen + src.totalLen <= EV_SIZE_MAX
      modifies this`chains, this`lastWithDatap, this`totalLen, this`blocks
      ensures Valid() && Contents() == src.Contents() + old(Contents()) && chains == src.chains + old(chains)
    {
      hide Flat, Linked;
      SlotOf(chains, blocks, lastWithDatap);
      LinkedConcat(src.chains, src.blocks, src.lastWithDatap, chains, blocks, lastWithDatap);
      var srcSlot, srcLast := src.lastWithDatap, src.chains[|src.chains| - 1];
      // first case: *last_with_datap == NULL
      lastWithDatap := if SlotIndex(chains, lastWithDatap) == |chains| then srcSlot
                       else if lastWithDatap == null then srcLast
                       else lastWithDatap;
      chains, blocks := src.chains + chains, src.blocks + blocks;
      totalLen := totalLen + src.totalLen;
    }

    /** evbuffer_prepend_buffer: move the contents of inbuf in front of those of this buffer. */
    method PrependBuffer(inbuf: EvBuffer) returns (r: int)
      requires Valid() && inbuf.Valid()
      requires inbuf != this ==> ApartFrom(inbuf) && totalLen + inbuf.totalLen <= EV_SIZE_MAX
      modifies this, inbuf
      ensures Valid() && inbuf.Valid()
      ensures freezeStart == old(freezeStart) && freezeEnd == old(freezeEnd)
      ensures inbuf.freezeStart == old(inbuf.freezeStart) && inbuf.freezeEnd == old(inbuf.freezeEnd)
      ensures var noop := old(inbuf.totalLen) == 0 || inbuf == this;
              r == if !noop && (freezeStart || inbuf.freezeStart) then -1 else 0
      ensures if r == 0 && inbuf != this
              then Contents() == old(inbuf.Contents()) + old(Contents()) && inbuf.Contents() == []
              else Contents() == old(Contents()) && inbuf.Contents() == old(inbuf.Contents())
      ensures forall c :: c in chains + inbuf.chains ==> c in old(chains + inbuf.chains)
      ensures inbuf != this ==> ApartFrom(inbuf)
    {
      hide Flat, Linked;
      if inbuf.totalLen == 0 || this == inbuf { return 0; }
      if freezeStart || inbuf.freezeStart { return -1; }
      if totalLen == 0 {
        CopyChain(inbuf);
      } else {
        PrependChains(inbuf);
      }
      inbuf.ZeroChain();
      r := 0;
    }

    /** evbuffer_pullup: make the first size bytes contiguous, all bytes if size is negative.  The result
        is a pointer to the first byte, or NULL. */
    method Pullup(size: int) returns (buffer: array?<Byte>, at: int)
      requires Valid()
      modifies this, chains, set c | c in chains :: c.buffer
      ensures Valid() && OnlyNewChains() && Contents() == old(Contents())
      ensures freezeStart == old(freezeStart) && freezeEnd == old(freezeEnd)
      ensures var n := if size < 0 then old(totalLen) else size;
              && (buffer != null <==> 0 < n <= old(totalLen) && n <= MAX_BLOCK)
              && (buffer != null ==> 0 <= at <= at + n <= buffer.Length && buffer[at..at + n] == Contents()[..n])
    {
      hide Flat, Linked, LinkedBut, Chain.Data, Apart;
      var n := if size < 0 then totalLen else size;
      if n == 0 || n > totalLen { return null, 0; }
      FlatNone(blocks);
      SlotOf(chains, blocks, lastWithDatap);
      LinkedAt(chains, blocks, lastWithDatap, 0);
      if chains[0].off >= n {
        // the first n bytes are already here
        buffer, at := Head(n);
        return;
      }
      var ok := PullIntoFirst(n);
      if !ok { return null, 0; }
      buffer, at := Head(n);
    }

    /** Gather the first n bytes in one chain, in the first one if it has the room. */
    method PullIntoFirst(n: nat) returns (ok: bool)
      requires Valid() && chains != [] && chains[0].off < n <= totalLen
      modifies this`chains, this`lastWithDatap, this`blocks, chains, set c | c in chains :: c.buffer
      ensures Valid() && OnlyNewChains() && Contents() == old(Contents())
      ensures ok == (n <= MAX_BLOCK) && (ok ==> chains != [] && chains[0].off >= n)
    {
      hide Flat, Linked, LinkedBut, Chain.Data, Apart;
      FlatNone(blocks);
      SlotOf(chains, blocks, lastWithDatap);
      LinkedAt(chains, blocks, lastWithDatap, 0);
      FlatHead(blocks);
      var tmp: Chain? := chains[0];
      if chains[0].buffer.Length - chains[0].misalign >= n {
        // enough space in the first chain
        FirstApart(chains, blocks, lastWithDatap);
        Gather(chains[0], 1, n);
      } else {
        tmp := ChainNew(n);
        if tmp == null { return false; }
        NewApart(tmp, chains);
        Gather(tmp, 0, n);
      }
      ok := true;
    }

    /** The first n bytes, which are all in the first chain. */
    method Head(n: nat) returns (buffer: array<Byte>, at: nat)
      requires Valid() && chains != [] && n <= chains[0].off
      ensures at + n <= buffer.Length && n <= |Contents()| && buffer[at..at + n] == Contents()[..n]
      ensures n <= MAX_BLOCK
    {
      hide Flat, Linked, LinkedBut;
      LinkedAt(chains, blocks, lastWithDatap, 0);
      FlatHead(blocks);
      buffer, at := chains[0].buffer, chains[0].misalign;
      assert Contents()[..n] == Contents()[..chains[0].off][..n] == chains[0].Data()[..n];
      assert chains[0].Data()[..n] == buffer[at..at + n];
    }

    /** The last_with_datap of the chains from k on. */
    ghost function SlotFrom(k: nat): Chain?
      reads this
    {
      if |chains| <= k + 1 then null else lastWithDatap
    }

    /** The loop of evbuffer_pullup: chains from start on are copied behind tmp, which holds what lies before
        them, and freed, up to chain i.  left is what tmp still has to get of the n bytes. */
    method PullWhole(tmp: Chain, start: nat, n: nat)
      returns (i: nat, left: nat, removedLast: bool, removedSlot: bool)
      requires Valid() && start <= 1 < |chains| == |blocks|
      requires tmp.Fits() && Apart([tmp], chains[start..]) && tmp.Data() == Flat(blocks[..start])
      requires tmp.off < n <= |Contents()| && n - tmp.off <= tmp.Space()
      modifies tmp, tmp.buffer
      ensures start <= i <= |chains| && Linked(chains[start..], blocks[start..], SlotFrom(start))
      ensures tmp.Fits() && tmp.Data() == Flat(blocks[..i]) && tmp.off + left == n && left <= tmp.Space()
      ensures if i < |chains| then left < chains[i].off else left == 0
      ensures removedLast == (i == |chains|)
      ensures removedSlot == (start <= |chains| - 2 < i)
    {
      hide Flat, Linked, LinkedBut, Chain.Data, Chain.Space, Apart;
      SlotOf(chains, blocks, lastWithDatap);
      LinkedDrop(chains, blocks, lastWithDatap, start);
      ghost var slot := if |chains| <= start + 1 then null else lastWithDatap;
      var last := SlotIndex(chains, lastWithDatap);
      i, left, removedLast, removedSlot := start, n - tmp.off, false, false;
      while i < |chains| && left >= chains[i].off
        invariant start <= i <= |chains| && Linked(chains[start..], blocks[start..], slot)
        invariant tmp.Fits() && tmp.Data() == Flat(blocks[..i]) && tmp.off + left == n && left <= tmp.Space()
        invariant removedLast == (i == |chains|) && removedSlot == (start <= |chains| - 2 < i)
      {
        left := PullOne(tmp, start, i, left, slot);
        removedLast := removedLast || i == last;
        removedSlot := removedSlot || chains[i] == lastWithDatap;
        i := i + 1;
      }
      if i == |chains| { FlatEnd(blocks, i); }
    }

    /** Copy chain i to tmp. */
    method PullOne(tmp: Chain, start: nat, i: nat, left: nat, ghost slot: Chain?) returns (l: nat)
      requires start <= i < |chains| == |blocks| && Linked(chains[start..], blocks[start..], slot)
      requires Apart([tmp], chains[start..]) && tmp.Fits() && tmp.Data() == Flat(blocks[..i])
      requires chains[i].off <= left <= tmp.Space()
      modifies tmp, tmp.buffer
      ensures Linked(chains[start..], blocks[start..], slot)
      ensures tmp.Fits() && tmp.Data() == Flat(blocks[..i + 1])
      ensures l + tmp.off == left + old(tmp.off) && l <= tmp.Space()
    {
      hide Flat, Linked, LinkedBut, Chain.Data, Chain.Space;
      var c := chains[start..][i - start];
      LinkedAt(chains[start..], blocks[start..], slot, i - start);
      FlatAt(blocks, i);
      assert [tmp][0] != c && blocks[i][..|blocks[i]|] == blocks[i];
      l := left - c.off;
      tmp.TakeFrom(c, c.off);
    }

    /** The first left bytes of the first chain go to tmp. */
    method TakePart(tmp: Chain, left: nat, ghost slot: Chain?)
      requires Linked(chains, blocks, slot) && chains != [] && Apart([tmp], chains) && tmp.Fits()
      requires left < chains[0].off && left <= tmp.Space()
      modifies this`blocks, tmp, tmp.buffer, chains[0]
      ensures Linked(chains, blocks, slot) && chains[0].off > 0
      ensures tmp.Fits() && tmp.off == old(tmp.off) + left
      ensures left <= |old(Flat(blocks))| && Flat(blocks) == old(Flat(blocks))[left..]
      ensures tmp.Data() == old(tmp.Data()) + old(Flat(blocks))[..left]
    {
      hide Flat, Linked, LinkedBut, Chain.Data, Chain.Space;
      LinkedAt(chains, blocks, slot, 0);
      FlatHead(blocks);
      assert [tmp][0] != chains[0] && Flat(blocks)[..left] == blocks[0][..left];
      tmp.TakeFrom(chains[0], left);
      TrimFirst(left, slot);
    }

    /** The chains before chain i are gone, and the first left bytes of chain i go to tmp. */
    method CutTail(tmp: Chain, start: nat, i: nat, left: nat)
      requires start <= i <= |chains| == |blocks| && Linked(chains[start..], blocks[start..], SlotFrom(start))
      requires Apart([tmp], chains[start..]) && tmp.Fits() && tmp.Data() == Flat(blocks[..i]) && left <= tmp.Space()
      requires if i < |chains| then left < chains[i].off else left == 0
      modifies this`chains, this`blocks, tmp, tmp.buffer, chains
      ensures chains == old(chains[i..]) && Linked(chains, blocks, old(SlotFrom(i)))
      ensures chains == [] || chains[0].off > 0
      ensures Apart([tmp], chains) && tmp.Fits() && tmp.off == old(tmp.off) + left
      ensures tmp.Data() + Flat(blocks) == old(Flat(blocks))
    {
      hide Flat, Linked, LinkedBut, Chain.Data, Chain.Space, Apart;
      ghost var slot := SlotFrom(i);
      TailLinked(chains, blocks, start, i, SlotFrom(start), tmp);
      FlatSplit(blocks, i);
      if i == |chains| { FlatEnd(blocks, i); }
      ghost var front, back := Flat(blocks[..i]), Flat(blocks[i..]);
      chains, blocks := chains[i..], blocks[i..];
      if chains != [] {
        TakePart(tmp, left, slot);
        Associate(front, back[..left], back[left..]);
        assert back[..left] + back[left..] == back;
      }
    }

    /** Pull the chains from start on into tmp, which holds what lies before them, until it holds n bytes. */
    method Gather(tmp: Chain, start: nat, n: nat)
      requires Valid() && start <= 1 < |chains| == |blocks| && (start == 1 ==> tmp == chains[0])
      requires tmp.Fits() && Apart([tmp], chains[start..]) && tmp.Data() == Flat(blocks[..start])
      requires tmp.off < n <= |Contents()| && n - tmp.off <= tmp.Space()
      modifies this`chains, this`lastWithDatap, this`blocks, tmp, tmp.buffer, chains
      ensures Valid() && Contents() == old(Contents())
      ensures chains != [] && chains[0] == tmp && chains[0].off >= n
      ensures forall c :: c in chains ==> c == tmp || c in old(chains)
    {
      hide Flat, Linked, LinkedBut, Chain.Data, Chain.Space, Apart;
      SlotOf(chains, blocks, lastWithDatap);
      var i, left, removedLast, removedSlot := PullWhole(tmp, start, n);
      ghost var slot := SlotFrom(i);
      CutTail(tmp, start, i, left);
      LinkedBefore(chains, blocks, slot, tmp);
      FlatFront(blocks, tmp.Data());
      chains, blocks := [tmp] + chains, [tmp.Data()] + blocks;
      lastWithDatap := if removedLast then null
                       else if !removedSlot then lastWithDatap
                       else if |chains| > 1 && chains[1].off != 0 then chains[0]
                       else null;
    }

    /** advance_last_with_data: follow the list to its last chain with data.  slot is the last_with_datap
        that fits the list. */
    method AdvanceLastWithData(ghost slot: Chain?)
      requires Linked(chains, blocks, slot)
      requires lastWithDatap == null || (lastWithDatap in chains && SlotIndex(chains, lastWithDatap) < |chains|)
      modifies this`lastWithDatap
      ensures lastWithDatap == slot
    {
      HoldsLengths(chains, blocks);
      var k := SlotIndex(chains, lastWithDatap);
      if k < |chains| {
        while k + 1 < |chains| && chains[k + 1].off != 0
          invariant k < |chains| && lastWithDatap == if k == 0 then null else chains[k - 1]
        {
          lastWithDatap := chains[k];
          k := k + 1;
        }
      }
    }

    /** The middle of evbuffer_remove_buffer, on the receiving side: moved chains replace trailing empty
        ones. */
    method TakeChains(moved: seq<Chain>, nread: nat, ghost movedBlocks: seq<seq<Byte>>, ghost slot: Chain?)
      requires Valid() && Linked(moved, movedBlocks, slot) && Apart(chains, moved)
      requires nread == |Flat(movedBlocks)| > 0 && totalLen + nread <= EV_SIZE_MAX
      modifies this`chains, this`lastWithDatap, this`totalLen, this`blocks
      ensures Valid() && Contents() == old(Contents()) + Flat(movedBlocks)
      ensures forall c :: c in chains ==> c in old(chains) || c in moved
    {
      hide Flat, Linked, Apart;
      var i := FirstVictim();
      KeptChains(chains, blocks, lastWithDatap, i, moved);
      AppendChains(chains[..i], blocks[..i], lastWithDatap, moved, movedBlocks, slot);
      // the trailing empty chains are freed
      chains, blocks := chains[..i] + moved, blocks[..i] + movedBlocks;
      AdvanceLastWithData(if i == 0 then slot else if slot == null then chains[i - 1] else slot);
      totalLen := totalLen + nread;
    }

    /** The loop of evbuffer_remove_buffer: the chains before chain i, nread bytes in all, can be moved as
        they are, and left bytes of chain i are still to go. */
    method SkipWhole(datlen: nat) returns (i: nat, nread: nat, left: nat)
      requires Valid() && datlen < totalLen
      modifies this`lastWithDatap
      ensures i < |chains| == |blocks| && left < chains[i].off && nread + left == datlen
      ensures nread == |Flat(blocks[..i])| && (nread == 0 ==> i == 0)
      ensures lastWithDatap == (if |chains| <= i + 1 then null else old(lastWithDatap))
      ensures nread == 0 ==> lastWithDatap == old(lastWithDatap)
    {
      hide Flat, Linked;
      ghost var slot := lastWithDatap;
      SlotOf(chains, blocks, slot);
      FlatNone(blocks);
      FlatHead(blocks);
      i, nread, left := 0, 0, datlen;
      while chains[i].off <= left
        invariant i < |chains| && nread + left == datlen && nread == |Flat(blocks[..i])|
        invariant nread == 0 ==> i == 0
        invariant lastWithDatap == if i + 1 == |chains| then null else slot
        decreases |chains| - i
      {
        // the last chain with data stays, else all of the buffer would have been moved
        LinkedAt(chains, blocks, slot, i);
        FlatPrefix(blocks, i, |blocks[i]|);
        if i + 1 == |chains| { FlatEnd(blocks, i + 1); }
        assert i != SlotIndex(chains, lastWithDatap);
        nread := nread + chains[i].off;
        left := left - chains[i].off;
        lastWithDatap := if lastWithDatap == chains[i] then null else lastWithDatap;
        i := i + 1;
      }
    }

    /** evbuffer_remove_buffer: move datlen bytes behind the contents of dst. */
    method RemoveBuffer(dst: EvBuffer, datlen: nat) returns (r: int)
      requires Valid() && dst.Valid()
      requires dst != this ==> dst.ApartFrom(this) && dst.totalLen + totalLen <= EV_SIZE_MAX
      modifies this, dst, Footprint(), dst.Footprint()
      ensures Valid() && dst.Valid()
      ensures freezeStart == old(freezeStart) && freezeEnd == old(freezeEnd)
      ensures dst.freezeStart == old(dst.freezeStart) && dst.freezeEnd == old(dst.freezeEnd)
      ensures var n := Min(datlen, old(totalLen));
              if datlen == 0 || dst == this then
                r == 0 && Contents() == old(Contents()) && dst.Contents() == old(dst.Contents())
              else if dst.freezeEnd || freezeStart then
                r == -1 && Contents() == old(Contents()) && dst.Contents() == old(dst.Contents())
              else
                r == Signed(n, INT_MODULUS) && Contents() == old(Contents())[n..] &&
                dst.Contents() == old(dst.Contents()) + old(Contents())[..n]
      ensures forall c :: c in chains + dst.chains ==> c in old(chains + dst.chains) || (fresh(c) && fresh(c.buffer))
      ensures dst != this ==> dst.ApartFrom(this)
    {
      hide Flat, Linked;
      if datlen == 0 || dst == this { return 0; }
      if dst.freezeEnd || freezeStart { return -1; }
      if datlen >= totalLen {
        r := Signed(totalLen, INT_MODULUS);
        var n := totalLen;
        assert Contents()[..n] == Contents() && Contents()[n..] == [];
        var e := dst.AddBuffer(this);
        assert forall c :: c in chains + dst.chains ==> c in dst.chains + chains;
        return;
      }
      RemovePart(dst, datlen);
      r := Signed(datlen, INT_MODULUS);
    }

    /** The chains before chain i, which hold nread bytes, become chains of dst. */
    method MoveWhole(dst: EvBuffer, i: nat, nread: nat, ghost slot: Chain?)
      requires dst.Valid() && dst.ApartFrom(this) && 0 < nread && dst.totalLen + nread <= EV_SIZE_MAX
      requires i < |chains| == |blocks| && Linked(chains, blocks, slot) && nread == |Flat(blocks[..i])|
      modifies this`chains, this`blocks, dst`chains, dst`lastWithDatap, dst`totalLen, dst`blocks
      ensures chains == old(chains[i..]) && blocks == old(blocks[i..])
      ensures Linked(chains, blocks, if |chains| <= 1 then null else slot)
      ensures dst.Valid() && dst.ApartFrom(this)
      ensures dst.Contents() == old(dst.Contents()) + old(Flat(blocks[..i]))
      ensures forall c :: c in dst.chains ==> c in old(chains + dst.chains)
    {
      hide Flat, Linked;
      LinkedTake(chains, blocks, slot, i);
      LinkedDrop(chains, blocks, slot, i);
      LinkedSplit(chains, blocks, slot, i);
      dst.TakeChains(chains[..i], nread, blocks[..i], if i <= 1 then null else chains[i - 2]);
      chains, blocks := chains[i..], blocks[i..];
      StillApart(dst.chains, old(dst.chains), old(chains[..i]), chains);
    }

    /** The first left bytes of the first chain are copied to dst. */
    method MovePiece(dst: EvBuffer, left: nat)
      requires dst.Valid() && dst.ApartFrom(this) && !dst.freezeEnd && dst.totalLen + left <= EV_SIZE_MAX
      requires Linked(chains, blocks, lastWithDatap) && chains != [] && left < chains[0].off
      modifies this`blocks, chains[0], dst, dst.Footprint()
      ensures Linked(chains, blocks, lastWithDatap) && dst.Valid() && dst.ApartFrom(this)
      ensures forall c :: c in dst.chains ==> c in old(dst.chains) || (fresh(c) && fresh(c.buffer))
      ensures Flat(blocks) == old(Flat(blocks))[left..]
      ensures left <= |old(Flat(blocks))| && dst.Contents() == old(dst.Contents()) + old(Flat(blocks))[..left]
      ensures dst.freezeStart == old(dst.freezeStart) && dst.freezeEnd == old(dst.freezeEnd)
    {
      hide Flat, Linked;
      LinkedAt(chains, blocks, lastWithDatap, 0);
      FlatHead(blocks);
      var data := chains[0].buffer[chains[0].misalign..chains[0].misalign + left];
      assert data == chains[0].Data()[..left] == Flat(blocks)[..left];
      assert forall c: Chain :: c in dst.chains ==> c in dst.Footprint() && c.buffer in dst.Footprint();
      var e := dst.Add(data);
      TrimFirst(left, lastWithDatap);
    }

    /** All chains that can be moved as they are; left bytes of the next one are still to go. */
    method MoveChains(dst: EvBuffer, datlen: nat) returns (left: nat)
      requires Valid() && dst.Valid() && dst.ApartFrom(this) && dst.totalLen + totalLen <= EV_SIZE_MAX
      requires datlen < totalLen
      modifies this`chains, this`lastWithDatap, this`blocks, dst`chains, dst`lastWithDatap, dst`totalLen, dst`blocks
      ensures chains != [] && left < chains[0].off && left <= datlen <= |old(Contents())|
      ensures Linked(chains, blocks, lastWithDatap) && dst.Valid() && dst.ApartFrom(this)
      ensures forall c :: c in chains + dst.chains ==> c in old(chains + dst.chains)
      ensures Footprint() + dst.Footprint() <= old(Footprint() + dst.Footprint())
      ensures chains[0] in old(Footprint() + dst.Footprint())
      ensures Flat(blocks) == old(Contents())[datlen - left..]
      ensures dst.Contents() == old(dst.Contents()) + old(Contents())[..datlen - left]
    {
      hide Flat, Linked, Apart;
      var i, nread, l := SkipWhole(datlen);
      left := l;
      FlatAt(blocks, i);
      FlatFrom(blocks);
      if nread != 0 {
        MoveWhole(dst, i, nread, old(lastWithDatap));
      }
      assert dst.Contents() == old(dst.Contents()) + old(Flat(blocks[..i])) by {
        if nread == 0 { assert old(dst.Contents()) + [] == old(dst.Contents()); FlatNothing(old(blocks)); }
      }
      WithinFootprint(dst.chains, old(chains), old(dst.chains));
      WithinFootprint(chains, old(chains), old(dst.chains));
      InFootprint(chains, 0);
    }

    method RemovePart(dst: EvBuffer, datlen: nat)
      requires Valid() && dst.Valid() && dst.ApartFrom(this) && dst.totalLen + totalLen <= EV_SIZE_MAX
      requires datlen < totalLen && !dst.freezeEnd
      modifies this, dst, Footprint(), dst.Footprint()
      ensures Valid() && dst.Valid() && dst.ApartFrom(this)
      ensures freezeStart == old(freezeStart) && freezeEnd == old(freezeEnd)
      ensures dst.freezeStart == old(dst.freezeStart) && dst.freezeEnd == old(dst.freezeEnd)
      ensures forall c :: c in chains + dst.chains ==> c in old(chains + dst.chains) || (fresh(c) && fresh(c.buffer))
      ensures Contents() == old(Contents())[datlen..]
      ensures dst.Contents() == old(dst.Contents()) + old(Contents())[..datlen]
    {
      hide Flat, Linked, Apart;
      var left := MoveChains(dst, datlen);
      TwoParts(old(Contents()), datlen - left, left);
      Associate(old(dst.Contents()), old(Contents())[..datlen - left], old(Contents())[datlen - left..][..left]);
      MovePiece(dst, left);
      totalLen := totalLen - datlen;
    }
  }

  lemma FlatNothing(blocks: seq<seq<Byte>>)
    ensures Flat(blocks[..0]) == []
  {
  }

  lemma TwoParts(s: seq<Byte>, a: nat, b: nat)
    requires a + b <= |s|
    ensures s[..a] + s[a..][..b] == s[..a + b] && s[a..][b..] == s[a + b..]
  {
  }

  /** What is left of a list from chain i on, and a chain that has nothing to do with it */
  lemma TailLinked(cs: seq<Chain>, blocks: seq<seq<Byte>>, start: nat, i: nat, slot: Chain?, tmp: Chain)
    requires start <= i <= |cs| == |blocks| && Linked(cs[start..], blocks[start..], slot) && Apart([tmp], cs[start..])
    ensures Linked(cs[i..], blocks[i..], if |cs| <= i + 1 then null else slot) && Apart([tmp], cs[i..])
  {
    LinkedDrop(cs[start..], blocks[start..], slot, i - start);
    assert cs[start..][i - start..] == cs[i..] && blocks[start..][i - start..] == blocks[i..];
    hide Linked;
    forall j | 0 <= j < |cs[i..]| ensures cs[i..][j] == cs[start..][i - start + j] { }
  }

  lemma FlatSplit(blocks: seq<seq<Byte>>, i: nat)
    requires i <= |blocks|
    ensures Flat(blocks) == Flat(blocks[..i]) + Flat(blocks[i..])
  {
    FlatAppend(blocks[..i], blocks[i..]);
    assert blocks[..i] + blocks[i..] == blocks;
  }

  lemma EmptyFlat()
    ensures Flat([]) == []
  {
  }

  lemma Whole(data: seq<Byte>, s: seq<Byte>)
    ensures s == [] ==> data[|data|..] + s == s
  {
  }

  /** A prepend that fails, for want of a block, leaves nothing exactly if the first chain has no room in front. */
  method PrependAndFail(buf: EvBuffer, data: seq<Byte>) returns (r: int)
    requires buf.Valid() && !buf.freezeStart && MAX_BLOCK < |data| - buf.FrontRoom() && |data| <= EV_SIZE_MAX - buf.totalLen
    modifies buf, buf.chains, set c | c in buf.chains :: c.buffer
    ensures buf.Valid() && r == -1
    ensures buf.Contents() == old(buf.Contents()) <==> old(buf.FrontRoom()) == 0
  {
    r := buf.Prepend(data);
  }

  /** A buffer of one byte, with room for four in front of it */
  method WithFrontRoom() returns (buf: EvBuffer)
    ensures fresh(buf) && fresh(buf.Footprint()) && buf.Valid() && !buf.freezeStart
    ensures buf.Contents() == [1] && buf.FrontRoom() == 4
  {
    buf := new EvBuffer();
    var chain := new Chain(8);
    chain.misalign, chain.off, chain.buffer[4] := 4, 1, 1;
    assert chain.Data() == [1];
    buf.ChainInsert(chain);
  }

  /** A prepend that fails and leaves the last four of its bytes in front of the one that was there. */
  method PrependLeavesPart() returns (r: int, ghost data: seq<Byte>, ghost before: seq<Byte>, ghost after: seq<Byte>)
    ensures r == -1 && before == [1] && |data| == MAX_BLOCK + 5 && after == data[|data| - 4..] + before
  {
    var buf := WithFrontRoom();
    var bytes := seq(MAX_BLOCK + 5, _ => 2);
    data, before := bytes, buf.Contents();
    r := PrependPart(buf, bytes);
    after := buf.Contents();
  }

  method PrependPart(buf: EvBuffer, data: seq<Byte>) returns (r: int)
    requires buf.Valid() && !buf.freezeStart && buf.FrontRoom() == 4 && |buf.Contents()| == 1 && |data| == MAX_BLOCK + 5
    modifies buf, buf.Footprint()
    ensures r == -1 && buf.Contents() == data[|data| - 4..] + old(buf.Contents())
  {
    assert forall c: Chain :: c in buf.chains ==> c in buf.Footprint() && c.buffer in buf.Footprint();
    r := buf.Prepend(data);
  }
}
