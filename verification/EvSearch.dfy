/** Searching an evbuffer: positions, line ends, and evbuffer_readln. */
module EvSearch {
  import opened Bytes
  import opened EvBuffer

  const CR: Byte := 13
  const LF: Byte := 10
  const CHUNK_SZ := 128
  const EV_SSIZE_MAX: int := 0x7fff_ffff_ffff_ffff

  datatype Option<T> = None | Some(value: T)

  /** struct evbuffer_ptr.  The chain is given by its index in the list; the index behind the list stands
      for NULL. */
  datatype Ptr = Ptr(pos: int, chain: nat, posInChain: nat)

  // ----- finding bytes in one chain -----

  /** k is the first index from i on at which d has one of the given bytes; negative if there is none. */
  ghost predicate FirstOf(d: seq<Byte>, bytes: set<Byte>, i: nat, k: int) {
    if k < 0 then forall j :: i <= j < |d| ==> d[j] !in bytes
    else i <= k < |d| && d[k] in bytes && forall j :: i <= j < k ==> d[j] !in bytes
  }

  /** memchr: the offset of the first byte equal to b among the n bytes at mem + at, or -1 for NULL. */
  method MemChr(mem: array<Byte>, at: nat, b: Byte, n: nat) returns (k: int)
    requires at + n <= mem.Length
    ensures k < 0 || k < n
    ensures FirstOf(mem[at..at + n], {b}, 0, k)
  {
    k := 0;
    ghost var d := mem[at..at + n];
    while k < n
      invariant 0 <= k <= n && forall j :: 0 <= j < k ==> d[j] != b
    {
      assert d[k] == mem[at + k];
      if mem[at + k] == b { return; }
      k := k + 1;
    }
    k := -1;
  }

  /** The earlier of the first CR and the first LF of a block that follows bytes without either. */
  lemma ChunkOf(d: seq<Byte>, block: seq<Byte>, s: nat, cr: int, lf: int)
    requires s + |block| <= |d| && block == d[s..s + |block|]
    requires FirstOf(block, {CR}, 0, cr) && FirstOf(block, {LF}, 0, lf)
    requires forall j :: 0 <= j < s ==> d[j] !in {CR, LF}
    ensures cr < 0 && lf < 0 ==> forall j :: 0 <= j < s + |block| ==> d[j] !in {CR, LF}
    ensures cr >= 0 || lf >= 0 ==>
              FirstOf(d, {CR, LF}, 0, s + if lf >= 0 && (cr < 0 || lf < cr) then lf else cr)
  {
    forall j | s <= j < s + |block| ensures d[j] == block[j - s] { }
  }

  /** find_eol_char: the first CR or LF, searched in blocks of 128 bytes. */
  method FindEolChar(mem: array<Byte>, at: nat, len: nat) returns (k: int)
    requires at + len <= mem.Length
    ensures FirstOf(mem[at..at + len], {CR, LF}, 0, k)
  {
    ghost var d := mem[at..at + len];
    var s := 0;
    while s < len
      invariant 0 <= s && forall j :: 0 <= j < s && j < len ==> d[j] !in {CR, LF}
    {
      var chunk := if s + CHUNK_SZ < len then CHUNK_SZ else len - s;
      var cr := MemChr(mem, at + s, CR, chunk);
      var lf := MemChr(mem, at + s, LF, chunk);
      ChunkOf(mem[at..at + len], mem[at + s..at + s + chunk], s, cr, lf);
      if cr >= 0 {
        if lf >= 0 && lf < cr { return s + lf; }
        return s + cr;
      } else if lf >= 0 {
        return s + lf;
      }
      s := s + CHUNK_SZ;
    }
    k := -1;
  }

  /** What a scan of the chains looks for: one byte, by memchr, or the first CR or LF, by find_eol_char. */
  datatype Target = Chr(b: Byte) | Eol {
    ghost function Set(): set<Byte> {
      match this
      case Chr(b) => {b}
      case Eol => {CR, LF}
    }
  }

  method FindInChain(c: Chain, i: nat, target: Target) returns (k: int)
    requires c.Fits() && i <= c.off
    ensures FirstOf(c.Data(), target.Set(), i, k)
  {
    ghost var d := c.Data();
    assert d[i..] == c.buffer[c.misalign + i..c.misalign + c.off];
    match target {
      case Chr(b) => k := MemChr(c.buffer, c.misalign + i, b, c.off - i);
      case Eol => k := FindEolChar(c.buffer, c.misalign + i, c.off - i);
    }
    assert FirstOf(d[i..], target.Set(), 0, k);
    assert forall j :: i <= j < |d| ==> d[j] == d[i..][j - i];
    if k >= 0 { k := i + k; }
  }

  // ----- positions -----

  /** p is a position in the blocks, the end of a block included. */
  ghost predicate At(blocks: seq<seq<Byte>>, p: Ptr) {
    if p.chain < |blocks| then
      p.posInChain <= |blocks[p.chain]| && p.pos == |Flat(blocks[..p.chain])| + p.posInChain
    else
      p.chain == |blocks| && p.posInChain == 0 && p.pos == |Flat(blocks)|
  }

  /** p is the position of a byte. */
  ghost predicate AtByte(blocks: seq<seq<Byte>>, p: Ptr) {
    At(blocks, p) && p.chain < |blocks| && p.posInChain < |blocks[p.chain]|
  }

  /** The bytes of a block, in the whole. */
  lemma BlockIn(blocks: seq<seq<Byte>>, k: nat)
    requires k < |blocks|
    ensures var base := |Flat(blocks[..k])|;
            && base + |blocks[k]| <= |Flat(blocks)|
            && (forall j :: base <= j < base + |blocks[k]| ==> Flat(blocks)[j] == blocks[k][j - base])
    ensures |Flat(blocks[..k + 1])| == |Flat(blocks[..k])| + |blocks[k]|
  {
    FlatAt(blocks, k);
  }

  /** The position of the byte p in the whole. */
  lemma ByteAt(blocks: seq<seq<Byte>>, p: Ptr)
    requires AtByte(blocks, p)
    ensures 0 <= p.pos < |Flat(blocks)| && Flat(blocks)[p.pos] == blocks[p.chain][p.posInChain]
  {
    BlockIn(blocks, p.chain);
  }

  /** The start of the chain behind chain k. */
  lemma NextChain(blocks: seq<seq<Byte>>, k: nat)
    requires k < |blocks|
    ensures At(blocks, Ptr(|Flat(blocks[..k])| + |blocks[k]|, k + 1, 0))
  {
    BlockIn(blocks, k);
    if k + 1 == |blocks| { FlatEnd(blocks, k + 1); }
  }

  /** None of the bytes from a up to b is one of the given bytes. */
  ghost predicate NoneIn(d: seq<Byte>, bytes: set<Byte>, a: int, b: int) {
    0 <= a <= b <= |d| && forall j :: a <= j < b ==> d[j] !in bytes
  }

  /** A scan of block k from i on carries a scan of the whole forward. */
  lemma ScanBlock(blocks: seq<seq<Byte>>, p: Ptr, bytes: set<Byte>, start: nat, k: int)
    requires At(blocks, p) && p.chain < |blocks| && NoneIn(Flat(blocks), bytes, start, p.pos)
    requires FirstOf(blocks[p.chain], bytes, p.posInChain, k)
    ensures k >= 0 ==> AtByte(blocks, Ptr(p.pos + k - p.posInChain, p.chain, k)) &&
                       FirstOf(Flat(blocks), bytes, start, p.pos + k - p.posInChain)
    ensures k < 0 ==> var next := Ptr(p.pos + |blocks[p.chain]| - p.posInChain, p.chain + 1, 0);
                      At(blocks, next) && NoneIn(Flat(blocks), bytes, start, next.pos)
  {
    BlockIn(blocks, p.chain);
    NextChain(blocks, p.chain);
  }

  lemma NoneYet(blocks: seq<seq<Byte>>, bytes: set<Byte>, p: Ptr)
    requires At(blocks, p)
    ensures NoneIn(Flat(blocks), bytes, p.pos, p.pos)
  {
    if p.chain < |blocks| { BlockIn(blocks, p.chain); }
  }

  lemma NoneFound(d: seq<Byte>, bytes: set<Byte>, start: nat)
    requires NoneIn(d, bytes, start, |d|)
    ensures FirstOf(d, bytes, start, -1)
  {
  }

  /** evbuffer_strchr and evbuffer_find_eol_char: move on to the first byte looked for. */
  method FindFrom(buf: EvBuffer, it: Ptr, target: Target) returns (found: bool, r: Ptr)
    requires buf.Valid() && At(buf.blocks, it)
    ensures found ==> AtByte(buf.blocks, r)
    ensures FirstOf(buf.Contents(), target.Set(), it.pos, if found then r.pos else -1)
  {
    hide Flat, Linked, FirstOf, NoneIn, Chain.Data;
    SlotOf(buf.chains, buf.blocks, buf.lastWithDatap);
    NoneYet(buf.blocks, target.Set(), it);
    r := it;
    while r.chain < |buf.chains|
      invariant At(buf.blocks, r) && NoneIn(Flat(buf.blocks), target.Set(), it.pos, r.pos)
      decreases |buf.chains| - r.chain
    {
      var c := buf.chains[r.chain];
      LinkedAt(buf.chains, buf.blocks, buf.lastWithDatap, r.chain);
      var k := FindInChain(c, r.posInChain, target);
      ScanBlock(buf.blocks, r, target.Set(), it.pos, k);
      if k >= 0 {
        return true, Ptr(r.pos + k - r.posInChain, r.chain, k);
      }
      r := Ptr(r.pos + c.off - r.posInChain, r.chain + 1, 0);
    }
    found := false;
    NoneFound(buf.Contents(), target.Set(), it.pos);
  }

  // ----- moving and comparing -----

  datatype How = Set | Add

  /** evbuffer_ptr_set: 0 with the position moved, or -1 with an unusable one. */
  method PtrSet(buf: EvBuffer, p: Ptr, position: nat, how: How) returns (r: int, q: Ptr)
    requires buf.Valid() && position <= EV_SIZE_MAX
    requires how.Add? && p.pos >= 0 ==> At(buf.blocks, p)
    ensures var goal := if how.Set? then position else p.pos + position;
            r == if (how.Set? || 0 <= p.pos) && goal < |buf.Contents()| then 0 else -1
    ensures r == 0 ==> AtByte(buf.blocks, q) && q.pos == if how.Set? then position else p.pos + position
    ensures r != 0 ==> if how.Add? && (p.pos < 0 || EV_SIZE_MAX - position < p.pos) then q == p
                       else q.pos == -1 && q.chain == |buf.chains|
  {
    hide Flat, Linked, Chain.Data;
    SlotOf(buf.chains, buf.blocks, buf.lastWithDatap);
    FlatEnd(buf.blocks[..0], 0);
    var left, at, k := position, 0, 0;
    if how.Add? {
      if p.pos < 0 || EV_SIZE_MAX - position < p.pos { return -1, p; }
      at, k := p.posInChain, p.chain;
    }
    var goal := if how.Set? then position else p.pos + position;
    StartsAt(buf.blocks, k, at);
    assert EV_SIZE_MAX - left >= at;
    while k < |buf.chains| && at + left >= buf.chains[k].off
      invariant k <= |buf.chains| && 0 <= at && 0 <= left && |Flat(buf.blocks[..k])| + at + left == goal
      invariant if k < |buf.chains| then at <= |buf.blocks[k]| else at == 0
    {
      LinkedAt(buf.chains, buf.blocks, buf.lastWithDatap, k);
      BlockIn(buf.blocks, k);
      left := left - (buf.chains[k].off - at);
      k := k + 1;
      at := 0;
    }
    if k < |buf.chains| {
      LinkedAt(buf.chains, buf.blocks, buf.lastWithDatap, k);
      BlockIn(buf.blocks, k);
      r, q := 0, Ptr(goal, k, at + left);
    } else {
      FlatEnd(buf.blocks, k);
      r, q := -1, Ptr(-1, k, p.posInChain);
    }
  }

  lemma StartsAt(blocks: seq<seq<Byte>>, k: nat, at: nat)
    requires k <= |blocks| && (if k < |blocks| then at <= |blocks[k]| else at == 0)
    ensures |Flat(blocks[..k])| + at <= |Flat(blocks)|
    ensures k == |blocks| ==> |Flat(blocks[..k])| == |Flat(blocks)|
  {
    if k < |blocks| { BlockIn(blocks, k); } else { FlatEnd(blocks, k); }
  }

  /** memcmp, of bytes of a chain from i on with mem from j on. */
  method MemCmp(c: Chain, i: nat, mem: seq<Byte>, j: nat, n: nat) returns (r: int)
    requires c.Fits() && i + n <= c.off && j + n <= |mem|
    ensures r == 0 <==> c.Data()[i..i + n] == mem[j..j + n]
  {
    ghost var d := c.Data();
    var m := 0;
    while m < n
      invariant 0 <= m <= n && d[i..i + m] == mem[j..j + m]
    {
      assert d[i + m] == c.buffer[c.misalign + i + m];
      if c.buffer[c.misalign + i + m] != mem[j + m] {
        assert d[i..i + n][m] != mem[j..j + n][m];
        return (c.buffer[c.misalign + i + m] as int) - (mem[j + m] as int);
      }
      assert d[i..i + m + 1] == d[i..i + m] + [d[i + m]] && mem[j..j + m + 1] == mem[j..j + m] + [mem[j + m]];
      m := m + 1;
    }
    r := 0;
  }

  ghost predicate MatchAt(s: seq<Byte>, what: seq<Byte>, p: int) {
    0 <= p <= p + |what| <= |s| && s[p..p + |what|] == what
  }

  /** The first n bytes of what stand at p. */
  ghost predicate PrefixAt(s: seq<Byte>, what: seq<Byte>, p: int, n: int) {
    0 <= n <= |what| && 0 <= p <= p + n <= |s| && s[p..p + n] == what[..n]
  }

  /** Comparing block k with the next bytes of what. */
  lemma MatchBlock(blocks: seq<seq<Byte>>, k: nat, at: nat, what: seq<Byte>, p: nat, done: nat, n: nat)
    requires k < |blocks| && at + n <= |blocks[k]| && done + n <= |what| && p + |what| <= |Flat(blocks)|
    requires |Flat(blocks[..k])| + at == p + done && PrefixAt(Flat(blocks), what, p, done)
    ensures if blocks[k][at..at + n] == what[done..done + n] then PrefixAt(Flat(blocks), what, p, done + n)
            else !MatchAt(Flat(blocks), what, p)
  {
    var s := Flat(blocks);
    BlockIn(blocks, k);
    assert s[p + done..p + done + n] == blocks[k][at..at + n];
    assert s[p..p + done + n] == s[p..p + done] + s[p + done..p + done + n];
    assert what[..done + n] == what[..done] + what[done..done + n];
    if s[p..p + |what|] == what {
      assert s[p..p + |what|][done..done + n] == s[p + done..p + done + n];
    }
  }

  /** Compare as much of the rest of what as chain k can hold. */
  method CompareChain(buf: EvBuffer, k: nat, at: nat, what: seq<Byte>, ghost p: nat, done: nat) returns (n: nat, r: int)
    requires buf.Valid() && k < |buf.chains| == |buf.blocks| && at <= |buf.blocks[k]|
    requires done < |what| && p + |what| <= |buf.Contents()|
    requires |Flat(buf.blocks[..k])| + at == p + done && PrefixAt(buf.Contents(), what, p, done)
    ensures done + n <= |what| && |Flat(buf.blocks[..k + 1])| == |Flat(buf.blocks[..k])| + |buf.blocks[k]|
    ensures done + n < |what| ==> at + n == |buf.blocks[k]|
    ensures if r == 0 then PrefixAt(buf.Contents(), what, p, done + n) else !MatchAt(buf.Contents(), what, p)
  {
    hide Flat, Linked, Chain.Data, PrefixAt, MatchAt;
    LinkedAt(buf.chains, buf.blocks, buf.lastWithDatap, k);
    BlockIn(buf.blocks, k);
    n := if |what| - done + at > buf.chains[k].off then buf.chains[k].off - at else |what| - done;
    MatchBlock(buf.blocks, k, at, what, p, done, n);
    r := MemCmp(buf.chains[k], at, what, done, n);
  }

  /** evbuffer_ptr_memcmp: zero exactly if what stands at p. */
  method PtrMemcmp(buf: EvBuffer, p: Ptr, what: seq<Byte>) returns (r: int)
    requires buf.Valid() && (p.pos >= 0 ==> At(buf.blocks, p))
    ensures r == 0 <==> MatchAt(buf.Contents(), what, p.pos)
  {
    hide Flat, Linked, Chain.Data, PrefixAt, MatchAt;
    NoMatchOutside(buf.Contents(), what, p.pos);
    if p.pos < 0 || EV_SIZE_MAX - |what| < p.pos || p.pos + |what| > buf.totalLen { return -1; }
    SlotOf(buf.chains, buf.blocks, buf.lastWithDatap);
    StartsAt(buf.blocks, p.chain, p.posInChain);
    var len, done, k, at := |what|, 0, p.chain, p.posInChain;
    while len > 0 && k < |buf.chains|
      invariant 0 <= len && 0 <= done && done + len == |what| && k <= |buf.chains|
      invariant PrefixAt(buf.Contents(), what, p.pos, done)
      invariant len > 0 ==> |Flat(buf.blocks[..k])| + at == p.pos + done
      invariant if k < |buf.chains| then 0 <= at <= |buf.blocks[k]| else at == 0
      decreases |buf.chains| - k
    {
      var n;
      n, r := CompareChain(buf, k, at, what, p.pos, done);
      if r != 0 { return; }
      done := done + n;
      len := len - n;
      at := 0;
      k := k + 1;
    }
    if k == |buf.chains| { FlatEnd(buf.blocks, k); }
    WholeMatch(buf.Contents(), what, p.pos, done);
    r := 0;
  }

  lemma NoMatchOutside(s: seq<Byte>, what: seq<Byte>, p: int)
    ensures p < 0 || p + |what| > |s| ==> !MatchAt(s, what, p)
    ensures 0 <= p <= |s| ==> PrefixAt(s, what, p, 0)
  {
  }

  lemma WholeMatch(s: seq<Byte>, what: seq<Byte>, p: int, n: int)
    requires PrefixAt(s, what, p, n) && n >= |what|
    ensures MatchAt(s, what, p)
  {
  }

  // ----- evbuffer_search -----

  /** No match starts at any of the positions from a up to b. */
  ghost predicate NoMatch(s: seq<Byte>, what: seq<Byte>, a: int, b: int) {
    forall q :: a <= q < b ==> !MatchAt(s, what, q)
  }

  /** A match starts with the first byte of what. */
  lemma SkipToFirst(s: seq<Byte>, what: seq<Byte>, start: int, a: nat, b: nat)
    requires what != [] && NoMatch(s, what, start, a) && NoneIn(s, {what[0]}, a, b)
    ensures NoMatch(s, what, start, b)
  {
    forall q | start <= q < b ensures !MatchAt(s, what, q) {
      if q >= a && q + |what| <= |s| { assert s[q..q + |what|][0] == s[q]; }
    }
  }

  /** What FirstOf says about one block, for the whole. */
  lemma NoneInBlock(blocks: seq<seq<Byte>>, p: Ptr, bytes: set<Byte>, k: int)
    requires At(blocks, p) && p.chain < |blocks| && FirstOf(blocks[p.chain], bytes, p.posInChain, k)
    ensures NoneIn(Flat(blocks), bytes, p.pos, p.pos + (if k >= 0 then k else |blocks[p.chain]|) - p.posInChain)
    ensures k >= 0 ==> AtByte(blocks, Ptr(p.pos + k - p.posInChain, p.chain, k))
    ensures k < 0 ==> At(blocks, Ptr(p.pos + |blocks[p.chain]| - p.posInChain, p.chain + 1, 0))
    ensures p.pos <= |Flat(blocks)|
  {
    BlockIn(blocks, p.chain);
    NextChain(blocks, p.chain);
  }

  /** The position behind a byte, at the start of a chain rather than at the end of one. */
  lemma Behind(blocks: seq<seq<Byte>>, p: Ptr)
    requires AtByte(blocks, p)
    ensures 0 <= p.pos < |Flat(blocks)|
    ensures At(blocks, if p.posInChain + 1 == |blocks[p.chain]| then Ptr(p.pos + 1, p.chain + 1, 0)
                       else Ptr(p.pos + 1, p.chain, p.posInChain + 1))
  {
    BlockIn(blocks, p.chain);
    NextChain(blocks, p.chain);
  }

  /** No match ends within a chain that has no more first bytes, and none before. */
  lemma NoneBefore(blocks: seq<seq<Byte>>, what: seq<Byte>, start: int, p: Ptr, end: Ptr)
    requires At(blocks, p) && At(blocks, end) && p.chain == end.chain < |blocks| && what != []
    requires NoMatch(Flat(blocks), what, start, p.pos + |blocks[p.chain]| - p.posInChain)
    ensures forall q :: start <= q && MatchAt(Flat(blocks), what, q) ==> q + |what| > end.pos
  {
    BlockIn(blocks, p.chain);
  }

  /** evbuffer_search_range: the leftmost place from start on where what stands, if it ends by end. */
  method SearchRange(buf: EvBuffer, what: seq<Byte>, start: Option<Ptr>, end: Option<Ptr>) returns (r: Ptr)
    requires buf.Valid()
    requires (start.Some? ==> At(buf.blocks, start.value)) && (end.Some? ==> At(buf.blocks, end.value))
    ensures (what == [] || |what| > EV_SSIZE_MAX) ==> r == if start.Some? then start.value else Ptr(0, 0, 0)
    ensures 0 < |what| <= EV_SSIZE_MAX ==>
              var s := buf.Contents();
              var from := if start.Some? then start.value.pos else 0;
              var limit := if end.Some? then end.value.pos else |s|;
              if r.pos >= 0 then
                AtByte(buf.blocks, r) && from <= r.pos && r.pos + |what| <= limit &&
                MatchAt(s, what, r.pos) && NoMatch(s, what, from, r.pos)
              else
                forall q :: from <= q && MatchAt(s, what, q) ==> q + |what| > limit
  {
    hide Flat, Linked, Chain.Data, MatchAt, NoMatch, NoneIn, FirstOf;
    SlotOf(buf.chains, buf.blocks, buf.lastWithDatap);
    AtStart(buf.blocks);
    r := if start.Some? then start.value else Ptr(0, 0, 0);
    if |what| == 0 || |what| > EV_SSIZE_MAX { return; }
    r := SearchFrom(buf, what, r, end);
  }

  lemma AtStart(blocks: seq<seq<Byte>>)
    ensures At(blocks, Ptr(0, 0, 0))
  {
    FlatEnd(blocks[..0], 0);
    if blocks == [] { FlatEnd(blocks, 0); }
  }

  lemma AtWithin(blocks: seq<seq<Byte>>, p: Ptr)
    requires At(blocks, p)
    ensures 0 <= p.pos <= |Flat(blocks)|
  {
    if p.chain < |blocks| { BlockIn(blocks, p.chain); }
  }

  /** Look for the first byte of what in the rest of the chain of p. */
  method ToFirst(buf: EvBuffer, what: seq<Byte>, ghost start: int, p: Ptr) returns (found: bool, q: Ptr)
    requires buf.Valid() && what != [] && At(buf.blocks, p) && p.chain < |buf.chains|
    requires NoMatch(buf.Contents(), what, start, p.pos)
    ensures p.chain < |buf.blocks| && p.pos <= q.pos <= |buf.Contents()| && NoMatch(buf.Contents(), what, start, q.pos)
    ensures if found then AtByte(buf.blocks, q)
            else At(buf.blocks, q) && q.chain == p.chain + 1 && q.pos == p.pos + |buf.blocks[p.chain]| - p.posInChain
  {
    hide Flat, Linked, Chain.Data, NoMatch, NoneIn;
    LinkedAt(buf.chains, buf.blocks, buf.lastWithDatap, p.chain);
    var off := buf.chains[p.chain].off;
    var k := FindInChain(buf.chains[p.chain], p.posInChain, Chr(what[0]));
    NoneInBlock(buf.blocks, p, {what[0]}, k);
    found := k >= 0;
    q := if found then Ptr(p.pos + k - p.posInChain, p.chain, k)
         else Ptr(p.pos + off - p.posInChain, p.chain + 1, 0);
    SkipToFirst(buf.Contents(), what, start, p.pos, q.pos);
    AtWithin(buf.blocks, q);
  }

  /** The position behind p. */
  method Following(buf: EvBuffer, p: Ptr) returns (q: Ptr)
    requires buf.Valid() && AtByte(buf.blocks, p)
    ensures At(buf.blocks, q) && q.pos == p.pos + 1 && p.pos < |buf.Contents()|
  {
    SlotOf(buf.chains, buf.blocks, buf.lastWithDatap);
    LinkedAt(buf.chains, buf.blocks, buf.lastWithDatap, p.chain);
    Behind(buf.blocks, p);
    q := if p.posInChain + 1 == buf.chains[p.chain].off then Ptr(p.pos + 1, p.chain + 1, 0)
         else Ptr(p.pos + 1, p.chain, p.posInChain + 1);
  }

  /** The loop of evbuffer_search_range. */
  method SearchFrom(buf: EvBuffer, what: seq<Byte>, start: Ptr, end: Option<Ptr>) returns (r: Ptr)
    requires buf.Valid() && what != []
    requires At(buf.blocks, start) && (end.Some? ==> At(buf.blocks, end.value))
    ensures var s := buf.Contents();
            var limit := if end.Some? then end.value.pos else |s|;
            if r.pos >= 0 then
              AtByte(buf.blocks, r) && start.pos <= r.pos && r.pos + |what| <= limit &&
              MatchAt(s, what, r.pos) && NoMatch(s, what, start.pos, r.pos)
            else
              forall q :: start.pos <= q && MatchAt(s, what, q) ==> q + |what| > limit
  {
    hide Flat, Linked, Chain.Data, MatchAt, NoMatch, NoneIn, FirstOf;
    SlotOf(buf.chains, buf.blocks, buf.lastWithDatap);
    r := start;
    AtWithin(buf.blocks, start);
    NoMatchYet(buf.Contents(), what, start.pos);
    while r.chain < |buf.chains|
      invariant At(buf.blocks, r) && start.pos <= r.pos <= |buf.Contents()| && NoMatch(buf.Contents(), what, start.pos, r.pos)
      decreases |buf.Contents()| - r.pos, |buf.chains| - r.chain
    {
      var found, p := ToFirst(buf, what, start.pos, r);
      if found {
        var c := PtrMemcmp(buf, p, what);
        if c == 0 {
          LeftmostEnds(buf.Contents(), what, start.pos, p.pos);
          if end.Some? && p.pos + |what| > end.value.pos { return Ptr(-1, |buf.chains|, p.posInChain); }
          return p;
        }
        OneFurther(buf.Contents(), what, start.pos, p.pos);
        r := Following(buf, p);
      } else {
        if end.Some? && r.chain == end.value.chain {
          NoneBefore(buf.blocks, what, start.pos, r, end.value);
          return Ptr(-1, |buf.chains|, r.posInChain);
        }
        r := p;
      }
    }
    NoMatchAtAll(buf.Contents(), what, start.pos);
    r := Ptr(-1, |buf.chains|, 0);
  }

  lemma NoMatchYet(s: seq<Byte>, what: seq<Byte>, p: int)
    ensures NoMatch(s, what, p, p)
  {
  }

  lemma OneFurther(s: seq<Byte>, what: seq<Byte>, start: int, p: int)
    requires NoMatch(s, what, start, p) && !MatchAt(s, what, p)
    ensures NoMatch(s, what, start, p + 1)
  {
  }

  lemma LeftmostEnds(s: seq<Byte>, what: seq<Byte>, start: int, p: int)
    requires NoMatch(s, what, start, p) && MatchAt(s, what, p)
    ensures p + |what| <= |s|
    ensures forall q :: start <= q && MatchAt(s, what, q) ==> q >= p
  {
  }

  lemma NoMatchAtAll(s: seq<Byte>, what: seq<Byte>, start: int)
    requires what != [] && NoMatch(s, what, start, |s|)
    ensures forall q :: start <= q ==> !MatchAt(s, what, q)
  {
  }

  // ----- line ends -----

  /** evbuffer_strspn: how many bytes from p on are in chrset. */
  method StrSpn(buf: EvBuffer, p: Ptr, chrset: seq<Byte>) returns (count: int)
    requires buf.Valid() && At(buf.blocks, p)
    ensures if p.chain == |buf.chains| then count == -1 else IsRun(buf.Contents(), chrset, p.pos, count)
  {
    hide Flat, Linked, Chain.Data;
    SlotOf(buf.chains, buf.blocks, buf.lastWithDatap);
    if p.chain == |buf.chains| { return -1; }
    AtWithin(buf.blocks, p);
    count := 0;
    var k, i := p.chain, p.posInChain;
    while true
      invariant 0 <= k < |buf.chains| && 0 <= i <= |buf.blocks[k]| && count >= 0
      invariant |Flat(buf.blocks[..k])| + i == p.pos + count
      invariant AllIn(buf.Contents(), chrset, p.pos, p.pos + count)
      decreases |buf.chains| - k
    {
      var n := SpanIn(buf, k, i, chrset);
      AllInBlock(buf.blocks, k, i, n, chrset, p.pos);
      count := count + n;
      i := i + n;
      if i < buf.chains[k].off || k + 1 == |buf.chains| { return; }
      k, i := k + 1, 0;
    }
  }

  ghost predicate AllIn(s: seq<Byte>, chrset: seq<Byte>, a: int, b: int) {
    0 <= a <= b <= |s| && forall j :: a <= j < b ==> s[j] in chrset
  }

  /** count bytes from p on are in chrset, and no more. */
  ghost predicate IsRun(s: seq<Byte>, chrset: seq<Byte>, p: int, count: int) {
    0 <= count && AllIn(s, chrset, p, p + count) && (p + count < |s| ==> s[p + count] !in chrset)
  }

  /** The run that starts at i in block k: where it ends in the block, the run of the whole goes on or ends. */
  lemma AllInBlock(blocks: seq<seq<Byte>>, k: nat, i: nat, n: nat, chrset: seq<Byte>, p: int)
    requires k < |blocks| && IsRun(blocks[k], chrset, i, n)
    requires AllIn(Flat(blocks), chrset, p, |Flat(blocks[..k])| + i)
    ensures AllIn(Flat(blocks), chrset, p, |Flat(blocks[..k])| + i + n)
    ensures i + n < |blocks[k]| || k + 1 == |blocks| ==>
              IsRun(Flat(blocks), chrset, p, |Flat(blocks[..k])| + i + n - p)
    ensures |Flat(blocks[..k + 1])| == |Flat(blocks[..k])| + |blocks[k]|
  {
    BlockIn(blocks, k);
    if k + 1 == |blocks| { FlatEnd(blocks, k + 1); }
  }

  /** The inner loop of evbuffer_strspn. */
  method SpanIn(buf: EvBuffer, k: nat, i: nat, chrset: seq<Byte>) returns (n: nat)
    requires buf.Valid() && k < |buf.chains| == |buf.blocks| && i <= |buf.blocks[k]|
    ensures IsRun(buf.blocks[k], chrset, i, n)
    ensures buf.chains[k].off == |buf.blocks[k]|
  {
    LinkedAt(buf.chains, buf.blocks, buf.lastWithDatap, k);
    hide Flat, Linked;
    var c := buf.chains[k];
    ghost var d := c.Data();
    n := 0;
    while i + n < c.off
      invariant i + n <= c.off && AllIn(d, chrset, i, i + n)
    {
      assert d[i + n] == c.buffer[c.misalign + i + n];
      if c.buffer[c.misalign + i + n] !in chrset { return; }
      n := n + 1;
    }
  }

  datatype EolStyle = Any | Crlf | CrlfStrict | JustLf

  const CRLF: seq<Byte> := [CR, LF]

  /** A terminator of the given style and of n bytes stands at p. */
  ghost predicate EolAt(style: EolStyle, s: seq<Byte>, p: int, n: int) {
    match style
    case Any => 0 < n && IsRun(s, CRLF, p, n)
    case Crlf => (n == 1 && 0 <= p < |s| && s[p] == LF) || (n == 2 && MatchAt(s, CRLF, p))
    case CrlfStrict => n == 2 && MatchAt(s, CRLF, p)
    case JustLf => n == 1 && 0 <= p < |s| && s[p] == LF
  }

  /** No terminator stands at any of the positions from a up to b. */
  ghost predicate NoEol(style: EolStyle, s: seq<Byte>, a: int, b: int) {
    forall q, n :: a <= q < b ==> !EolAt(style, s, q, n)
  }

  /** it is the first terminator from start on, or negative if there is none. */
  ghost predicate FoundEol(buf: EvBuffer, style: EolStyle, start: Ptr, it: Ptr, eolLen: nat)
    reads buf
  {
    var s := buf.Contents();
    if it.pos >= 0 then
      AtByte(buf.blocks, it) && start.pos <= it.pos && EolAt(style, s, it.pos, eolLen) &&
      NoEol(style, s, start.pos, it.pos)
    else
      NoEol(style, s, start.pos, |s|)
  }

  lemma NoAnyBefore(s: seq<Byte>, start: nat, k: int)
    requires FirstOf(s, {CR, LF}, start, k)
    ensures NoEol(Any, s, start, if k >= 0 then k else |s|)
  {
    forall q, n | start <= q < (if k >= 0 then k else |s|) ensures !EolAt(Any, s, q, n) {
      assert s[q] !in CRLF;
    }
  }

  lemma NoCrlfBefore(s: seq<Byte>, start: nat, a: nat, k: int)
    requires NoEol(Crlf, s, start, a) && FirstOf(s, {CR, LF}, a, k)
    ensures NoEol(Crlf, s, start, if k >= 0 then k else |s|)
  {
    forall q, n | start <= q < (if k >= 0 then k else |s|) ensures !EolAt(Crlf, s, q, n) {
      if q >= a && q + 2 <= |s| { assert s[q..q + 2][0] == s[q]; }
    }
  }

  /** evbuffer_search_eol: the first terminator from start on, and its length. */
  method SearchEol(buf: EvBuffer, start: Option<Ptr>, style: EolStyle) returns (it: Ptr, eolLen: nat)
    requires buf.Valid() && (start.Some? ==> At(buf.blocks, start.value))
    ensures FoundEol(buf, style, if start.Some? then start.value else Ptr(0, 0, 0), it, eolLen)
  {
    hide Flat, Linked, EolAt, NoEol;
    AtStart(buf.blocks);
    it := if start.Some? then start.value else Ptr(0, 0, 0);
    match style
    case Any => it, eolLen := SearchAny(buf, it);
    case CrlfStrict => it, eolLen := SearchStrict(buf, it);
    case Crlf => it, eolLen := SearchCrlf(buf, it);
    case JustLf => it, eolLen := SearchLf(buf, it);
  }

  method SearchAny(buf: EvBuffer, start: Ptr) returns (it: Ptr, eolLen: nat)
    requires buf.Valid() && At(buf.blocks, start)
    ensures FoundEol(buf, Any, start, it, eolLen)
  {
    hide Flat, Linked, NoEol;
    AtWithin(buf.blocks, start);
    var found;
    found, it := FindFrom(buf, start, Eol);
    NoAnyBefore(buf.Contents(), start.pos, if found then it.pos else -1);
    if !found { return it.(pos := -1), 0; }
    ByteAt(buf.blocks, it);
    SlotOf(buf.chains, buf.blocks, buf.lastWithDatap);
    eolLen := StrSpn(buf, it, CRLF);
  }

  method SearchStrict(buf: EvBuffer, start: Ptr) returns (it: Ptr, eolLen: nat)
    requires buf.Valid() && At(buf.blocks, start)
    ensures FoundEol(buf, CrlfStrict, start, it, eolLen)
  {
    hide Flat, Linked;
    it := SearchRange(buf, CRLF, Some(start), None);
    if it.pos < 0 { return it.(pos := -1), 0; }
    eolLen := 2;
  }

  method SearchLf(buf: EvBuffer, start: Ptr) returns (it: Ptr, eolLen: nat)
    requires buf.Valid() && At(buf.blocks, start)
    ensures FoundEol(buf, JustLf, start, it, eolLen)
  {
    hide Flat, Linked;
    var found;
    found, it := FindFrom(buf, start, Chr(LF));
    if !found { return it.(pos := -1), 0; }
    ByteAt(buf.blocks, it);
    eolLen := 1;
  }

  method SearchCrlf(buf: EvBuffer, start: Ptr) returns (it: Ptr, eolLen: nat)
    requires buf.Valid() && At(buf.blocks, start)
    ensures FoundEol(buf, Crlf, start, it, eolLen)
  {
    hide Flat, Linked;
    it := start;
    AtWithin(buf.blocks, it);
    while true
      invariant At(buf.blocks, it) && start.pos <= it.pos <= |buf.Contents()|
      invariant NoEol(Crlf, buf.Contents(), start.pos, it.pos)
      decreases |buf.Contents()| - it.pos
    {
      var found, p := FindFrom(buf, it, Eol);
      NoCrlfBefore(buf.Contents(), start.pos, it.pos, if found then p.pos else -1);
      if !found { return p.(pos := -1), 0; }
      ByteAt(buf.blocks, p);
      var c := GetChr(buf, p);
      if c == LF { return p, 1; }
      var m := PtrMemcmp(buf, p, CRLF);
      if m == 0 { return p, 2; }
      var r, q := PtrSet(buf, p, 1, Add);
      if r < 0 { return p.(pos := -1), 0; }
      it := q;
    }
  }

  /** evbuffer_getchr */
  method GetChr(buf: EvBuffer, p: Ptr) returns (b: Byte)
    requires buf.Valid() && AtByte(buf.blocks, p)
    ensures b == buf.blocks[p.chain][p.posInChain]
  {
    SlotOf(buf.chains, buf.blocks, buf.lastWithDatap);
    LinkedAt(buf.chains, buf.blocks, buf.lastWithDatap, p.chain);
    var c := buf.chains[p.chain];
    assert c.Data()[p.posInChain] == c.buffer[c.misalign + p.posInChain];
    b := c.buffer[c.misalign + p.posInChain];
  }

  /** A terminator ends within s. */
  lemma EolInside(style: EolStyle, s: seq<Byte>, p: int, n: int)
    requires EolAt(style, s, p, n)
    ensures 0 <= p && 0 < n && p + n <= |s|
  {
  }

  /** evbuffer_readln: take the first line and its terminator, of n bytes, from the buffer.  Positions are of
      type ssize_t, so the contents must not be longer than that can count. */
  method Readln(buf: EvBuffer, style: EolStyle) returns (line: Option<seq<Byte>>, ghost n: nat)
    requires buf.Valid() && buf.totalLen < EV_SSIZE_MAX
    modifies buf, set c: Chain | c in buf.chains
    ensures buf.Valid() && forall c :: c in buf.chains ==> c in old(buf.chains)
    ensures buf.freezeStart == old(buf.freezeStart) && buf.freezeEnd == old(buf.freezeEnd)
    ensures var s := old(buf.Contents());
            match line
            case None => buf.Contents() == s && (buf.freezeStart || NoEol(style, s, 0, |s|))
            case Some(l) => !buf.freezeStart && EolAt(style, s, |l|, n) && NoEol(style, s, 0, |l|) &&
                            |l| + n <= |s| && s == l + s[|l|..|l| + n] + buf.Contents()
  {
    hide Flat, Linked, EolAt, NoEol;
    if buf.freezeStart { return None, 0; }
    var it, eolLen := SearchEol(buf, None, style);
    if it.pos < 0 { return None, 0; }
    EolInside(style, buf.Contents(), it.pos, eolLen);
    var memory := new Byte[it.pos + 1](_ => 0);
    ghost var s, orig := buf.Contents(), memory[..];
    var r := buf.Remove(memory, it.pos);
    memory[it.pos] := 0;
    assert memory[..it.pos] == s[..it.pos];
    var d := buf.Drain(eolLen);
    assert buf.Contents() == s[it.pos..][eolLen..];
    line, n := Some(memory[..it.pos]), eolLen;
  }
}
