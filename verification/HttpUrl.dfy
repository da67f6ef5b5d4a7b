/** http_parser_parse_url: splitting a URL into fields. */
module HttpUrl {
  import opened Bytes
  import opened HttpTypes
  import opened HttpStep
  import opened HttpUrlText

  /** off and len of one entry of field_data, both uint16_t. */
  datatype Run = Run(off: int, len: int)

  const UINT16: int := 0x1_0000

  // ----- what http_parser_parse_url must deliver -----

  /** The bytes of the authority among the first n. */
  function Authority(isConnect: bool, buf: seq<Byte>, n: nat): (a: seq<Byte>)
    requires n <= |buf|
    ensures |a| <= n
  {
    if n == 0 then []
    else Authority(isConnect, buf, n - 1) +
         (if Part(isConnect, buf, n - 1) == Some(Host) then [buf[n - 1]] else [])
  }

  predicate FoundAt(isConnect: bool, buf: seq<Byte>, n: nat)
    requires n <= |buf|
  {
    n > 0 && (UrlAfter(isConnect, buf, n) == Uri(ReqServerWithAt) || FoundAt(isConnect, buf, n - 1))
  }

  /** The outer fields of the first n bytes. */
  function Parts(isConnect: bool, buf: seq<Byte>, n: nat): (l: seq<Option<Field>>)
    requires n <= |buf|
    ensures |l| == n && forall i :: 0 <= i < n ==> l[i] == Part(isConnect, buf, i)
  {
    if n == 0 then [] else Parts(isConnect, buf, n - 1) + [Part(isConnect, buf, n - 1)]
  }

  /** The fields inside the first n bytes of an authority. */
  function HostParts(foundAt: bool, auth: seq<Byte>, n: nat): (l: seq<Option<Field>>)
    requires n <= |auth|
    ensures |l| == n && forall i :: 0 <= i < n ==> l[i] == HostPart(foundAt, auth, i)
  {
    if n == 0 then [] else HostParts(foundAt, auth, n - 1) + [HostPart(foundAt, auth, n - 1)]
  }

  /** What the labels say about field f: either no byte has it, or its bytes are the run r. */
  ghost predicate FieldIs(labels: seq<Option<Field>>, f: Field, has: bool, r: Run) {
    if has
    then 0 <= r.off && 1 <= r.len && r.off + r.len <= |labels| &&
         forall i :: 0 <= i < |labels| ==> (labels[i] == Some(f) <==> r.off <= i < r.off + r.len)
    else Some(f) !in labels
  }

  lemma FieldGrows(labels: seq<Option<Field>>, f: Field, has: bool, r: Run, next: Option<Field>)
    requires FieldIs(labels, f, has, r)
    ensures next != Some(f) ==> FieldIs(labels + [next], f, has, r)
    ensures next == Some(f) && !has ==> FieldIs(labels + [next], f, true, Run(|labels|, 1))
    ensures next == Some(f) && has && r.off + r.len == |labels| ==>
              FieldIs(labels + [next], f, true, Run(r.off, r.len + 1))
  {
    var l := labels + [next];
    forall i | 0 <= i < |labels| ensures l[i] == labels[i] { }
    if !has {
      forall i | 0 <= i < |labels| ensures labels[i] != Some(f) { assert labels[i] in labels; }
    }
  }

  /** A field that was left behind does not come back, and the current one has not been left. */
  lemma NoReturn(isConnect: bool, buf: seq<Byte>, i: nat, n: nat)
    requires i < n < |buf| && Part(isConnect, buf, i).Some? && Part(isConnect, buf, n).Some?
    ensures FieldRank(Part(isConnect, buf, i).value) <= FieldRank(Part(isConnect, buf, n).value)
    ensures Part(isConnect, buf, i) == Part(isConnect, buf, n) ==> Part(isConnect, buf, n - 1) == Part(isConnect, buf, n)
  {
    UrlRises(isConnect, buf, i + 1, n);
    UrlRises(isConnect, buf, n, n + 1);
    PartRank(UrlAfter(isConnect, buf, i + 1));
    PartRank(UrlAfter(isConnect, buf, n));
    PartRank(UrlAfter(isConnect, buf, n + 1));
  }

  lemma {:induction false} DeadStays(isConnect: bool, buf: seq<Byte>, m: nat, n: nat)
    requires m <= n <= |buf| && UrlAfter(isConnect, buf, m) == Res(Dead)
    ensures UrlAfter(isConnect, buf, n) == Res(Dead)
  {
    UrlRises(isConnect, buf, m, n);
  }

  lemma {:induction false} HostDeadStays(foundAt: bool, auth: seq<Byte>, m: nat, n: nat)
    requires m <= n <= |auth| && HostAfter(foundAt, auth, m).HostDead?
    ensures HostAfter(foundAt, auth, n).HostDead?
  {
    HostRises(foundAt, auth, m, n);
  }

  ghost predicate Total(data: map<Field, Run>) { forall f: Field :: f in data }

  function EmptyData(): (d: map<Field, Run>)
    ensures forall f: Field :: f.Schema? || f.Host? || f.Port? || f.Path? || f.Query? || f.Fragment? || f.Userinfo? ==> f in d
  {
    var r := Run(0, 0);
    map[Schema := r, Host := r, Port := r, Path := r, Query := r, Fragment := r, Userinfo := r]
  }

  ghost predicate AllAre(labels: seq<Option<Field>>, present: set<Field>, data: map<Field, Run>) {
    Total(data) && forall f: Field {:trigger f in present} :: FieldIs(labels, f, f in present, data[f])
  }

  /** The outer loop at byte p, in front of a byte of field uf: uf is being continued exactly if
      it was the last field, and otherwise it is new. */
  lemma FieldTurn(isConnect: bool, buf: seq<Byte>, p: nat, present: set<Field>, data: map<Field, Run>,
                  last: Option<Field>, uf: Field)
    requires p < |buf| && AllAre(Parts(isConnect, buf, p), present, data)
    requires Part(isConnect, buf, p) == Some(uf)
    requires LastIs(isConnect, buf, p, present, last)
    ensures last == Some(uf) ==> data[uf].off + data[uf].len == p && uf in present
    ensures last != Some(uf) ==> uf !in present
    ensures last.Some? ==> FieldRank(last.value) <= FieldRank(uf)
  {
    hide Part, UrlAfter, AllAre, FieldIs, Parts;
    if last.Some? { FieldSeen(isConnect, buf, p, present, data, last.value, uf); }
    if uf in present { FieldSeen(isConnect, buf, p, present, data, uf, uf); }
  }

  lemma FieldSeen(isConnect: bool, buf: seq<Byte>, p: nat, present: set<Field>, data: map<Field, Run>,
                  f: Field, uf: Field)
    requires p < |buf| && AllAre(Parts(isConnect, buf, p), present, data)
    requires Part(isConnect, buf, p) == Some(uf) && f in present
    ensures Total(data) && 0 <= data[f].off < p && Part(isConnect, buf, data[f].off) == Some(f)
    ensures FieldRank(f) <= FieldRank(uf)
    ensures f == uf ==> data[f].off + data[f].len == p
  {
    hide UrlAfter;
    var labels := Parts(isConnect, buf, p);
    assert FieldIs(labels, f, true, data[f]);
    assert labels[data[f].off] == Some(f);
    NoReturn(isConnect, buf, data[f].off, p);
    if f == uf { assert labels[p - 1] == Some(f); }
  }

  lemma SkipGrows(labels: seq<Option<Field>>, present: set<Field>, data: map<Field, Run>)
    requires AllAre(labels, present, data)
    ensures AllAre(labels + [None], present, data)
  {
    forall f: Field ensures FieldIs(labels + [None], f, f in present, data[f]) {
      FieldGrows(labels, f, f in present, data[f], None);
    }
  }

  /** A byte of field uf extends its run or starts one. */
  lemma RunGrows(labels: seq<Option<Field>>, present: set<Field>, data: map<Field, Run>, uf: Field, r: Run)
    requires AllAre(labels, present, data)
    requires if uf in present then data[uf].off + data[uf].len == |labels| && r == Run(data[uf].off, data[uf].len + 1)
             else r == Run(|labels|, 1)
    ensures AllAre(labels + [Some(uf)], present + {uf}, data[uf := r])
  {
    forall f: Field ensures FieldIs(labels + [Some(uf)], f, f in present + {uf}, data[uf := r][f]) {
      FieldGrows(labels, f, f in present, data[f], Some(uf));
    }
  }

  /** The authority read so far is the run of the Host field. */
  ghost predicate HostText(auth: seq<Byte>, buf: seq<Byte>, p: nat, present: set<Field>, data: map<Field, Run>)
    requires p <= |buf|
  {
    if Host in present
    then Host in data && 0 <= data[Host].off && 1 <= data[Host].len && data[Host].off + data[Host].len <= p &&
         auth == buf[data[Host].off..data[Host].off + data[Host].len]
    else auth == []
  }

  /** The highest-ranked field so far is the last one. */
  ghost predicate LastIs(isConnect: bool, buf: seq<Byte>, p: nat, present: set<Field>, last: Option<Field>)
    requires p <= |buf|
  {
    && (last.Some? ==> last.value in present)
    && forall i :: 0 <= i < p && Part(isConnect, buf, i).Some? ==>
         last.Some? && FieldRank(Part(isConnect, buf, i).value) <= FieldRank(last.value)
  }

  lemma RunFits(labels: seq<Option<Field>>, present: set<Field>, data: map<Field, Run>, f: Field)
    requires AllAre(labels, present, data) && f in present
    ensures 0 <= data[f].off && 1 <= data[f].len && data[f].off + data[f].len <= |labels|
  {
    assert FieldIs(labels, f, true, data[f]);
  }

  lemma RecordText(isConnect: bool, buf: seq<Byte>, p: nat, present: set<Field>, data: map<Field, Run>, uf: Field, r: Run)
    requires p < |buf| && Part(isConnect, buf, p) == Some(uf)
    requires HostText(Authority(isConnect, buf, p), buf, p, present, data)
    requires if uf in present then uf in data && data[uf].off + data[uf].len == p && r == Run(data[uf].off, data[uf].len + 1)
             else r == Run(p, 1)
    ensures HostText(Authority(isConnect, buf, p + 1), buf, p + 1, present + {uf}, data[uf := r])
  {
    TextGrows(Authority(isConnect, buf, p), buf, p, present, data, uf, r);
    if uf != Host { assert Authority(isConnect, buf, p) + [] == Authority(isConnect, buf, p); }
  }

  lemma TextGrows(a: seq<Byte>, buf: seq<Byte>, p: nat, present: set<Field>, data: map<Field, Run>, uf: Field, r: Run)
    requires p < |buf| && HostText(a, buf, p, present, data)
    requires if uf in present then uf in data && data[uf].off + data[uf].len == p && r == Run(data[uf].off, data[uf].len + 1)
             else r == Run(p, 1)
    ensures HostText(if uf == Host then a + [buf[p]] else a, buf, p + 1, present + {uf}, data[uf := r])
  {
    if uf == Host {
      if Host in present {
        assert buf[data[Host].off..p] + [buf[p]] == buf[data[Host].off..p + 1];
      } else {
        assert [] + [buf[p]] == buf[p..p + 1];
      }
    }
  }

  lemma RecordAll(isConnect: bool, buf: seq<Byte>, p: nat, present: set<Field>, data: map<Field, Run>,
                  last: Option<Field>, uf: Field, r: Run)
    requires p < |buf| && Part(isConnect, buf, p) == Some(uf)
    requires AllAre(Parts(isConnect, buf, p), present, data) && LastIs(isConnect, buf, p, present, last)
    requires HostText(Authority(isConnect, buf, p), buf, p, present, data)
    requires last.Some? ==> FieldRank(last.value) <= FieldRank(uf)
    requires Total(data)
    requires if uf in present then data[uf].off + data[uf].len == p && r == Run(data[uf].off, data[uf].len + 1)
             else r == Run(p, 1)
    ensures AllAre(Parts(isConnect, buf, p + 1), present + {uf}, data[uf := r])
    ensures LastIs(isConnect, buf, p + 1, present + {uf}, Some(uf))
    ensures HostText(Authority(isConnect, buf, p + 1), buf, p + 1, present + {uf}, data[uf := r])
  {
    hide Part, UrlAfter, AllAre, HostText;
    RunGrows(Parts(isConnect, buf, p), present, data, uf, r);
    RecordText(isConnect, buf, p, present, data, uf, r);
  }

  // ----- the whole result -----

  /** The field that byte i of a URL belongs to. */
  function FinalPart(isConnect: bool, buf: seq<Byte>, i: nat): Option<Field>
    requires i < |buf|
  {
    var auth := Authority(isConnect, buf, |buf|);
    var k := |Authority(isConnect, buf, i)|;
    if Part(isConnect, buf, i) == Some(Host) && k < |auth|
    then HostPart(FoundAt(isConnect, buf, |buf|), auth, k)
    else Part(isConnect, buf, i)
  }

  function Fields(isConnect: bool, buf: seq<Byte>, n: nat): (l: seq<Option<Field>>)
    requires n <= |buf|
    ensures |l| == n && forall i :: 0 <= i < n ==> l[i] == FinalPart(isConnect, buf, i)
  {
    if n == 0 then [] else Fields(isConnect, buf, n - 1) + [FinalPart(isConnect, buf, n - 1)]
  }

  /** The bytes labelled f. */
  function Text(labels: seq<Option<Field>>, buf: seq<Byte>, f: Field): seq<Byte>
    requires |labels| <= |buf|
    decreases |labels|
  {
    if labels == [] then []
    else
      var n := |labels| - 1;
      Text(labels[..n], buf, f) + (if labels[n] == Some(f) then [buf[n]] else [])
  }

  function Decimal(s: seq<Byte>): int
    decreases |s|
  {
    if s == [] then 0 else Decimal(s[..|s| - 1]) * 10 + (s[|s| - 1] as int) - 48
  }

  /** The URLs that are accepted if their port is not too large. */
  ghost predicate UrlShape(isConnect: bool, buf: seq<Byte>) {
    var parts, fields := Parts(isConnect, buf, |buf|), Fields(isConnect, buf, |buf|);
    var auth := Authority(isConnect, buf, |buf|);
    && UrlAfter(isConnect, buf, |buf|) != Res(Dead)
    && (Some(Schema) in parts ==> Some(Host) in parts)
    && (Some(Host) in parts ==> HostEnds(HostAfter(FoundAt(isConnect, buf, |buf|), auth, |auth|)))
    && (isConnect ==> forall f: Field :: Some(f) in fields <==> f == Host || f == Port)
  }

  /** The port field */
  ghost function PortText(isConnect: bool, buf: seq<Byte>): seq<Byte> {
    Text(Fields(isConnect, buf, |buf|), buf, Port)
  }

  ghost predicate HasPort(isConnect: bool, buf: seq<Byte>) {
    Some(Port) in Fields(isConnect, buf, |buf|)
  }

  /** The URLs that should be accepted: the port, if there is one, fits 16 bits. */
  ghost predicate UrlOk(isConnect: bool, buf: seq<Byte>) {
    UrlShape(isConnect, buf) && (HasPort(isConnect, buf) ==> Decimal(PortText(isConnect, buf)) <= 0xffff)
  }

  /** The digits from p on */
  function DigitRun(mem: seq<Byte>, p: nat): (n: nat)
    requires p <= |mem|
    ensures p + n <= |mem| && (forall i :: p <= i < p + n ==> IsNum(mem[i])) && (p + n == |mem| || !IsNum(mem[p + n]))
    decreases |mem| - p
  {
    if p == |mem| || !IsNum(mem[p]) then 0 else 1 + DigitRun(mem, p + 1)
  }

  /** What strtoul reads for the port of a URL that is the first n bytes of mem: it does not stop at n. */
  ghost function PortRead(isConnect: bool, mem: seq<Byte>, n: nat): seq<Byte>
    requires n <= |mem|
  {
    PortText(isConnect, mem[..n]) +
    (if n > 0 && FinalPart(isConnect, mem[..n], n - 1) == Some(Port) then mem[n..n + DigitRun(mem, n)] else [])
  }

  lemma {:induction false} TextOfRun(labels: seq<Option<Field>>, buf: seq<Byte>, f: Field, has: bool, r: Run, n: nat)
    requires n <= |labels| <= |buf| && FieldIs(labels, f, has, r)
    ensures Text(labels[..n], buf, f) ==
            if !has || n < r.off then [] else if n <= r.off + r.len then buf[r.off..n] else buf[r.off..r.off + r.len]
    decreases n
  {
    if n > 0 {
      TextOfRun(labels, buf, f, has, r, n - 1);
      assert labels[..n][..n - 1] == labels[..n - 1] && labels[..n][n - 1] == labels[n - 1];
      var before := Text(labels[..n - 1], buf, f);
      assert Text(labels[..n], buf, f) == before + (if labels[n - 1] == Some(f) then [buf[n - 1]] else []);
      if !has {
        assert labels[n - 1] in labels;
      } else if r.off <= n - 1 < r.off + r.len {
        assert buf[r.off..n - 1] + [buf[n - 1]] == buf[r.off..n];
      } else {
        assert before + [] == before;
      }
    }
  }

  lemma HasIff(labels: seq<Option<Field>>, f: Field, has: bool, r: Run)
    requires FieldIs(labels, f, has, r)
    ensures has <==> Some(f) in labels
  {
    if has { assert labels[r.off] == Some(f); }
  }

  /** The authority before byte i, given the run of the authority. */
  lemma {:induction false} AuthorityAt(isConnect: bool, buf: seq<Byte>, r: Run, i: nat)
    requires i <= |buf| && FieldIs(Parts(isConnect, buf, |buf|), Host, true, r)
    ensures |Authority(isConnect, buf, i)| == if i < r.off then 0 else if i <= r.off + r.len then i - r.off else r.len
    decreases i
  {
    hide Part;
    if i > 0 {
      AuthorityAt(isConnect, buf, r, i - 1);
      assert Parts(isConnect, buf, |buf|)[i - 1] == Part(isConnect, buf, i - 1);
    }
  }

  // ----- the loop over the authority -----

  /** The byte after the first k continues the field of the byte before it, or starts its field. */
  lemma HostTurn(foundAt: bool, auth: seq<Byte>, i: nat, k: nat)
    requires i < k < |auth| && HostPart(foundAt, auth, k).Some?
    requires HostPart(foundAt, auth, i) == HostPart(foundAt, auth, k)
    ensures HostFieldOf(HostAfter(foundAt, auth, k)) == HostPart(foundAt, auth, k)
  {
    HostRises(foundAt, auth, i + 1, k);
    HostRises(foundAt, auth, k, k + 1);
    hide ParseHostChar;
  }

  function Shifted(r: Run, base: int): Run { Run(r.off - base, r.len) }

  /** The parts of the authority at h, as far as labels says. */
  ghost predicate HostRuns(labels: seq<Option<Field>>, h: int, present: set<Field>, data: map<Field, Run>) {
    && Total(data)
    && FieldIs(labels, Host, data[Host].len != 0, Shifted(data[Host], h))
    && FieldIs(labels, Port, Port in present, Shifted(data[Port], h))
    && FieldIs(labels, Userinfo, Userinfo in present, Shifted(data[Userinfo], h))
  }

  /** Adding the byte after the first k: its field, if any, gets the run r. */
  lemma HostGrows(foundAt: bool, auth: seq<Byte>, k: nat, h: int, present: set<Field>, data: map<Field, Run>, r: Run)
    requires k < |auth| && HostRuns(HostParts(foundAt, auth, k), h, present, data)
    requires var next := HostPart(foundAt, auth, k);
             next.Some? ==> r == if HostFieldOf(HostAfter(foundAt, auth, k)) == next
                                 then Run(data[next.value].off, data[next.value].len + 1) else Run(h + k, 1)
    ensures var next := HostPart(foundAt, auth, k);
            match next
            case None => HostRuns(HostParts(foundAt, auth, k + 1), h, present, data)
            case Some(f) => HostRuns(HostParts(foundAt, auth, k + 1), h,
                                     if f == Host then present else present + {f}, data[f := r])
  {
    hide HostAfter, HostFieldOf, FieldIs;
    var labels, next := HostParts(foundAt, auth, k), HostPart(foundAt, auth, k);
    if next.Some? { HostField(foundAt, auth, k, h, present, data, next.value); }
    FieldGrows(labels, Host, data[Host].len != 0, Shifted(data[Host], h), next);
    FieldGrows(labels, Port, Port in present, Shifted(data[Port], h), next);
    FieldGrows(labels, Userinfo, Userinfo in present, Shifted(data[Userinfo], h), next);
  }

  /** The run of the field of the byte after the first k ends there, if that field has begun. */
  lemma RunEnds(foundAt: bool, auth: seq<Byte>, k: nat, f: Field, r: Run)
    requires k < |auth| && FieldIs(HostParts(foundAt, auth, k), f, true, r)
    requires HostPart(foundAt, auth, k) == Some(f)
    ensures HostFieldOf(HostAfter(foundAt, auth, k)) == Some(f) && r.off + r.len == k
  {
    hide HostAfter, HostFieldOf;
    var labels := HostParts(foundAt, auth, k);
    assert labels[r.off] == Some(f);
    HostTurn(foundAt, auth, r.off, k);
    assert labels[k - 1] == Some(f);
  }

  lemma NotBegun(foundAt: bool, auth: seq<Byte>, k: nat, f: Field)
    requires k < |auth| && Some(f) !in HostParts(foundAt, auth, k)
    ensures HostFieldOf(HostAfter(foundAt, auth, k)) != Some(f)
  {
    if k > 0 {
      assert HostParts(foundAt, auth, k)[k - 1] in HostParts(foundAt, auth, k);
    }
  }

  lemma HostKinds(s: HostState)
    ensures HostFieldOf(s) == None || HostFieldOf(s) == Some(Host) || HostFieldOf(s) == Some(Port) ||
            HostFieldOf(s) == Some(Userinfo)
  {
  }

  lemma HostField(foundAt: bool, auth: seq<Byte>, k: nat, h: int, present: set<Field>, data: map<Field, Run>, f: Field)
    requires k < |auth| && HostRuns(HostParts(foundAt, auth, k), h, present, data)
    requires HostPart(foundAt, auth, k) == Some(f)
    ensures f == Host || f == Port || f == Userinfo
    ensures var has := if f == Host then data[f].len != 0 else f in present;
            && (has <==> HostFieldOf(HostAfter(foundAt, auth, k)) == Some(f))
            && (has ==> data[f].off - h + data[f].len == k && 1 <= data[f].len <= k)
  {
    HostKinds(HostAfter(foundAt, auth, k + 1));
    hide HostAfter, HostFieldOf;
    if (if f == Host then data[f].len != 0 else f in present) {
      assert FieldIs(HostParts(foundAt, auth, k), f, true, Shifted(data[f], h));
      RunEnds(foundAt, auth, k, f, Shifted(data[f], h));
    } else {
      NotBegun(foundAt, auth, k, f);
    }
  }

  // ----- the fields from the text of the URL -----

  /** The digits in memory from where the port stands */
  function PortDigits(isConnect: bool, mem: seq<Byte>, n: nat): seq<Byte>
    requires n <= |mem|
  {
    PlaceFits(isConnect, mem[..n], Port);
    var off := Place(isConnect, mem[..n], Port).off;
    mem[off..off + DigitRun(mem, off)]
  }

  lemma {:induction false} DigitRunIs(mem: seq<Byte>, p: nat, end: nat)
    requires p <= end <= |mem| && (forall i :: p <= i < end ==> IsNum(mem[i])) && (end == |mem| || !IsNum(mem[end]))
    ensures DigitRun(mem, p) == end - p
    decreases end - p
  {
    if p < end { DigitRunIs(mem, p + 1, end); }
  }

  lemma PortDigitsIs(isConnect: bool, mem: seq<Byte>, n: nat, present: set<Field>, data: map<Field, Run>)
    requires n <= |mem| && AllAre(Fields(isConnect, mem[..n], n), present, data) && InPlace(isConnect, mem[..n], present, data)
    ensures Port in present <==> Place(isConnect, mem[..n], Port).len > 0
    ensures Port in present ==> PortDigits(isConnect, mem, n) == PortRead(isConnect, mem, n)
  {
    hide AllAre, Fields, PortRead, Place, IsNum;
    if Port in present {
      var end := PortReadIs(isConnect, mem, n, present, data);
      DigitRunIs(mem, data[Port].off, end);
    }
  }

  /** The authority of a URL, by its text */
  function AuthorityText(isConnect: bool, buf: seq<Byte>): seq<Byte> {
    var l := LayoutOf(isConnect, buf);
    buf[l.host..l.path]
  }

  function InsideText(isConnect: bool, buf: seq<Byte>): (l: Inside)
    ensures l.info <= l.host <= l.zone <= l.end <= l.colon <= l.port <= |AuthorityText(isConnect, buf)|
  {
    var auth := AuthorityText(isConnect, buf);
    InsideOf('@' as int in auth, auth)
  }

  /** Where field f stands in a URL */
  function Place(isConnect: bool, buf: seq<Byte>, f: Field): Run {
    RunOf(LayoutOf(isConnect, buf), InsideText(isConnect, buf), |buf|, f)
  }

  function RunOf(l: Layout, a: Inside, n: nat, f: Field): Run {
    match f
    case Schema => Run(0, l.schema)
    case Userinfo => Run(l.host, a.info)
    case Host => Run(l.host + a.host, a.end - a.host)
    case Port => Run(l.host + a.port, l.path - l.host - a.port)
    case Path => Run(l.path, l.query - l.path)
    case Query => Run(Least(l.query + 1, l.mark), l.mark - Least(l.query + 1, l.mark))
    case Fragment => Run(l.fragment, n - l.fragment)
  }

  /** The URLs of the right shape: every byte can stand where it stands, a schema comes with an authority, the authority
      is complete, and a CONNECT has a host and a port and nothing else. */
  ghost predicate GoodUrl(isConnect: bool, buf: seq<Byte>) {
    var l, auth := LayoutOf(isConnect, buf), AuthorityText(isConnect, buf);
    && OuterAllOk(isConnect, buf, |buf|)
    && (l.schema > 0 ==> auth != [])
    && (auth != [] ==> InnerAllOk('@' as int in auth, auth, |auth|) && Complete('@' as int in auth, auth))
    && (isConnect ==> forall f: Field :: Place(isConnect, buf, f).len > 0 <==> f == Host || f == Port)
  }

  /** Every field is recorded where it stands, and no other. */
  ghost predicate InPlace(isConnect: bool, buf: seq<Byte>, present: set<Field>, data: map<Field, Run>) {
    Total(data) && forall f: Field {:trigger f in present} ::
      (f in present <==> Place(isConnect, buf, f).len > 0) && (f in present ==> data[f] == Place(isConnect, buf, f))
  }

  lemma OuterPrefix(isConnect: bool, buf: seq<Byte>, i: nat)
    requires i < |buf| && OuterAllOk(isConnect, buf, |buf|)
    ensures Part(isConnect, buf, i) == OuterLabel(LayoutOf(isConnect, buf), i)
    ensures UrlAfter(isConnect, buf, i + 1) == OuterState(isConnect, buf, LayoutOf(isConnect, buf), i + 1)
  {
    hide LayoutOf, OuterOk, OuterState, UrlAfter, OuterLabel;
    OuterByText(isConnect, buf);
    StatesFollowText(isConnect, buf, i + 1);
  }

  /** The parser sees the authority where it stands. */
  lemma {:induction false} AuthorityByText(isConnect: bool, buf: seq<Byte>, n: nat)
    requires n <= |buf| && OuterAllOk(isConnect, buf, |buf|)
    ensures var l := LayoutOf(isConnect, buf);
            Authority(isConnect, buf, n) == buf[l.host..if n < l.host then l.host else if n < l.path then n else l.path]
  {
    hide LayoutOf, OuterAllOk, UrlAfter, Part;
    if n > 0 {
      AuthorityByText(isConnect, buf, n - 1);
      OuterPrefix(isConnect, buf, n - 1);
      var l := LayoutOf(isConnect, buf);
      if l.host <= n - 1 < l.path { assert buf[l.host..n - 1] + [buf[n - 1]] == buf[l.host..n]; }
    }
  }

  /** It has found an '@' exactly if the authority has one. */
  lemma {:induction false} FoundByText(isConnect: bool, buf: seq<Byte>, n: nat)
    requires n <= |buf| && OuterAllOk(isConnect, buf, |buf|)
    ensures var l := LayoutOf(isConnect, buf);
            FoundAt(isConnect, buf, n) <==> exists i :: l.host <= i < l.path && i < n && buf[i] == '@' as int
  {
    hide LayoutOf, OuterAllOk, UrlAfter;
    if n > 0 {
      FoundByText(isConnect, buf, n - 1);
      OuterPrefix(isConnect, buf, n - 1);
    }
  }

  lemma FoundInText(isConnect: bool, buf: seq<Byte>)
    requires OuterAllOk(isConnect, buf, |buf|)
    ensures FoundAt(isConnect, buf, |buf|) <==> '@' as int in AuthorityText(isConnect, buf)
  {
    hide LayoutOf, OuterAllOk, FoundAt;
    FoundByText(isConnect, buf, |buf|);
    var l, auth := LayoutOf(isConnect, buf), AuthorityText(isConnect, buf);
    if i :| l.host <= i < l.path && buf[i] == '@' as int { assert auth[i - l.host] == '@' as int; }
  }

  /** The parser's authority, and whether it has an '@', are those of the text. */
  lemma SameAuthority(isConnect: bool, buf: seq<Byte>)
    requires OuterAllOk(isConnect, buf, |buf|)
    ensures Authority(isConnect, buf, |buf|) == AuthorityText(isConnect, buf)
    ensures FoundAt(isConnect, buf, |buf|) == ('@' as int in AuthorityText(isConnect, buf))
  {
    hide LayoutOf, OuterAllOk, FoundAt, Authority;
    AuthorityByText(isConnect, buf, |buf|);
    FoundInText(isConnect, buf);
  }

  /** The field of byte i, by the text */
  lemma LabelByText(isConnect: bool, buf: seq<Byte>, i: nat)
    requires i < |buf| && OuterAllOk(isConnect, buf, |buf|)
    requires var auth := AuthorityText(isConnect, buf); auth != [] ==> InnerAllOk('@' as int in auth, auth, |auth|)
    ensures var l := LayoutOf(isConnect, buf);
            FinalPart(isConnect, buf, i) ==
            if l.host <= i < l.path then InnerLabel(InsideText(isConnect, buf), i - l.host) else OuterLabel(l, i)
  {
    hide LayoutOf, OuterAllOk, InnerAllOk, FoundAt, Authority, UrlAfter, HostPart, InsideOf, InnerLabel;
    OuterPrefix(isConnect, buf, i);
    SameAuthority(isConnect, buf);
    AuthorityByText(isConnect, buf, i);
    InnerByText('@' as int in AuthorityText(isConnect, buf), AuthorityText(isConnect, buf));
  }

  /** The bytes of field f are those in its place. */
  lemma PlaceByText(isConnect: bool, buf: seq<Byte>, i: nat, f: Field)
    requires i < |buf| && OuterAllOk(isConnect, buf, |buf|)
    requires var auth := AuthorityText(isConnect, buf); auth != [] ==> InnerAllOk('@' as int in auth, auth, |auth|)
    ensures var r := Place(isConnect, buf, f);
            FinalPart(isConnect, buf, i) == Some(f) <==> r.off <= i < r.off + r.len
  {
    hide *;
    LabelByText(isConnect, buf, i);
    PlaceIn(isConnect, buf, f);
    LabelInPlace(LayoutOf(isConnect, buf), InsideText(isConnect, buf), |buf|, i, f);
  }

  lemma PlaceIn(isConnect: bool, buf: seq<Byte>, f: Field)
    ensures Place(isConnect, buf, f) == RunOf(LayoutOf(isConnect, buf), InsideText(isConnect, buf), |buf|, f)
    ensures InsideText(isConnect, buf).port <= LayoutOf(isConnect, buf).path - LayoutOf(isConnect, buf).host
  {
    hide LayoutOf, InsideOf;
  }

  lemma LabelInPlace(l: Layout, a: Inside, n: nat, i: nat, f: Field)
    requires l.schema <= l.host <= l.path <= l.query <= l.mark <= l.fragment <= n && i < n
    requires a.info <= a.host <= a.zone <= a.end <= a.colon <= a.port <= l.path - l.host
    ensures var r := RunOf(l, a, n, f);
            (if l.host <= i < l.path then InnerLabel(a, i - l.host) else OuterLabel(l, i)) == Some(f) <==> r.off <= i < r.off + r.len
  {
  }

  lemma PlaceFits(isConnect: bool, buf: seq<Byte>, f: Field)
    ensures var r := Place(isConnect, buf, f); 0 <= r.off && 0 <= r.len && r.off + r.len <= |buf|
  {
    hide LayoutOf, InsideOf;
  }

  lemma FieldInPlace(isConnect: bool, buf: seq<Byte>, f: Field)
    requires OuterAllOk(isConnect, buf, |buf|)
    requires var auth := AuthorityText(isConnect, buf); auth != [] ==> InnerAllOk('@' as int in auth, auth, |auth|)
    ensures var r := Place(isConnect, buf, f); FieldIs(Fields(isConnect, buf, |buf|), f, r.len > 0, r)
    ensures Some(f) in Fields(isConnect, buf, |buf|) <==> Place(isConnect, buf, f).len > 0
  {
    hide OuterAllOk, InnerAllOk, FinalPart, Place;
    var fields, r := Fields(isConnect, buf, |buf|), Place(isConnect, buf, f);
    PlaceFits(isConnect, buf, f);
    forall i | 0 <= i < |buf| ensures fields[i] == Some(f) <==> r.off <= i < r.off + r.len {
      PlaceByText(isConnect, buf, i, f);
    }
    if r.len > 0 { assert fields[r.off] == Some(f); }
  }

  /** One field has one run. */
  lemma OneRun(labels: seq<Option<Field>>, f: Field, r: Run, q: Run)
    requires FieldIs(labels, f, true, r) && FieldIs(labels, f, true, q)
    ensures r == q
  {
    assert labels[r.off] == Some(f) && labels[q.off] == Some(f);
    assert labels[r.off + r.len - 1] == Some(f) && labels[q.off + q.len - 1] == Some(f);
  }

  /** What is recorded is recorded in its place. */
  lemma RecordedInPlace(isConnect: bool, buf: seq<Byte>, present: set<Field>, data: map<Field, Run>)
    requires GoodUrl(isConnect, buf) && AllAre(Fields(isConnect, buf, |buf|), present, data)
    ensures InPlace(isConnect, buf, present, data)
  {
    hide LayoutOf, OuterAllOk, InnerAllOk, Complete, Fields, FieldIs, AuthorityText, Place;
    forall f: Field
      ensures (f in present <==> Place(isConnect, buf, f).len > 0) && f in data && (f in present ==> data[f] == Place(isConnect, buf, f))
    {
      FieldInPlace(isConnect, buf, f);
      PresentIff(Fields(isConnect, buf, |buf|), present, data, f);
      if f in present {
        assert FieldIs(Fields(isConnect, buf, |buf|), f, true, data[f]);
        OneRun(Fields(isConnect, buf, |buf|), f, data[f], Place(isConnect, buf, f));
      }
    }
  }

  /** The URLs that the parser takes for well formed are those whose text is. */
  lemma ShapeByText(isConnect: bool, buf: seq<Byte>)
    ensures UrlShape(isConnect, buf) <==> GoodUrl(isConnect, buf)
  {
    hide LayoutOf, OuterAllOk, InnerAllOk, Complete, Fields, AuthorityText, Place, FoundAt, Authority, HostAfter, HostEnds, UrlAfter, Part;
    OuterByText(isConnect, buf);
    if OuterAllOk(isConnect, buf, |buf|) {
      var auth := AuthorityText(isConnect, buf);
      SameAuthority(isConnect, buf);
      OuterPresent(isConnect, buf);
      InnerByText('@' as int in auth, auth);
      if auth != [] ==> InnerAllOk('@' as int in auth, auth, |auth|) {
        forall f: Field ensures Some(f) in Fields(isConnect, buf, |buf|) <==> Place(isConnect, buf, f).len > 0 {
          FieldInPlace(isConnect, buf, f);
        }
      }
    }
  }

  lemma OuterPresent(isConnect: bool, buf: seq<Byte>)
    requires OuterAllOk(isConnect, buf, |buf|)
    ensures Some(Schema) in Parts(isConnect, buf, |buf|) <==> LayoutOf(isConnect, buf).schema > 0
    ensures Some(Host) in Parts(isConnect, buf, |buf|) <==> AuthorityText(isConnect, buf) != []
  {
    hide LayoutOf, OuterAllOk, Part;
    var parts, l := Parts(isConnect, buf, |buf|), LayoutOf(isConnect, buf);
    forall i | 0 <= i < |buf| ensures parts[i] == OuterLabel(l, i) {
      OuterPrefix(isConnect, buf, i);
    }
    if l.schema > 0 { assert parts[0] == Some(Schema); }
    if l.host < l.path { assert parts[l.host] == Some(Host); }
  }

  class ParsedUrl {
    var fieldSet: set<Field>
    var port: int
    var fieldData: map<Field, Run>

    constructor ()
      ensures Total(fieldData)
    {
      fieldSet, port := {}, 0;
      fieldData := EmptyData();
    }

    /** One byte of field uf at p: continue its run or start it. */
    method Record(ghost isConnect: bool, buf: seq<Byte>, p: nat, uf: Field, oldUf: Option<Field>)
      requires p < |buf| < UINT16 && Part(isConnect, buf, p) == Some(uf)
      requires AllAre(Parts(isConnect, buf, p), fieldSet, fieldData)
      requires LastIs(isConnect, buf, p, fieldSet, oldUf)
      requires HostText(Authority(isConnect, buf, p), buf, p, fieldSet, fieldData)
      modifies this`fieldSet, this`fieldData
      ensures AllAre(Parts(isConnect, buf, p + 1), fieldSet, fieldData)
      ensures LastIs(isConnect, buf, p + 1, fieldSet, Some(uf))
      ensures HostText(Authority(isConnect, buf, p + 1), buf, p + 1, fieldSet, fieldData)
    {
      hide Part, UrlAfter, AllAre, HostText, LastIs;
      FieldTurn(isConnect, buf, p, fieldSet, fieldData, oldUf, uf);
      TotalData(Parts(isConnect, buf, p), fieldSet, fieldData);
      ghost var r := if oldUf == Some(uf) then Run(fieldData[uf].off, fieldData[uf].len + 1) else Run(p, 1);
      RecordAll(isConnect, buf, p, fieldSet, fieldData, oldUf, uf, r);
      if oldUf == Some(uf) {
        RunFits(Parts(isConnect, buf, p), fieldSet, fieldData, uf);
        fieldData := fieldData[uf := Run(fieldData[uf].off, (fieldData[uf].len + 1) % UINT16)];
        assert fieldSet + {uf} == fieldSet;
      } else {
        fieldData := fieldData[uf := Run(p, 1)];
        fieldSet := fieldSet + {uf};
      }
    }

    /** The loop over the whole URL: every field but the parts of the authority. */
    method SplitOuter(buf: seq<Byte>, isConnect: bool) returns (ok: bool, foundAt: bool)
      requires |buf| < UINT16 && Total(fieldData)
      modifies this
      ensures Total(fieldData)
      ensures ok <==> UrlAfter(isConnect, buf, |buf|) != Res(Dead)
      ensures ok ==> AllAre(Parts(isConnect, buf, |buf|), fieldSet, fieldData)
      ensures ok ==> foundAt == FoundAt(isConnect, buf, |buf|) && port == 0
      ensures ok ==> HostText(Authority(isConnect, buf, |buf|), buf, |buf|, fieldSet, fieldData)
    {
      hide AllAre, HostText, LastIs, ParseUrlChar;
      port, fieldSet := 0, {};
      var s := UrlStart(isConnect);
      var oldUf: Option<Field> := None;
      foundAt := false;
      var p := 0;
      Nothing(isConnect, buf, fieldData);
      while p < |buf|
        invariant 0 <= p <= |buf| && port == 0 && Total(fieldData)
        invariant s == UrlAfter(isConnect, buf, p) && s != Res(Dead)
        invariant AllAre(Parts(isConnect, buf, p), fieldSet, fieldData)
        invariant LastIs(isConnect, buf, p, fieldSet, oldUf)
        invariant HostText(Authority(isConnect, buf, p), buf, p, fieldSet, fieldData)
        invariant foundAt == FoundAt(isConnect, buf, p)
      {
        s := ParseUrlChar(s, buf[p]);
        if s == Res(Dead) {
          DeadStays(isConnect, buf, p + 1, |buf|);
          return false, foundAt;
        }
        if s == Uri(ReqServerWithAt) { foundAt := true; }
        if FieldOf(s).None? {
          Skipped(isConnect, buf, p, fieldSet, fieldData, oldUf);
        } else {
          Record(isConnect, buf, p, FieldOf(s).value, oldUf);
          oldUf := FieldOf(s);
          TotalData(Parts(isConnect, buf, p + 1), fieldSet, fieldData);
        }
        p := p + 1;
      }
      ok := true;
    }

    /** The bookkeeping for the byte at p that takes the host state from s to t. */
    method HostByte(s: HostState, t: HostState, p: nat)
      requires Total(fieldData) && Host in fieldSet && p < UINT16
      requires exists ch :: t == ParseHostChar(s, ch)
      requires HostFieldOf(t).Some? ==>
                 var f := HostFieldOf(t).value;
                 if HostFieldOf(s) == Some(f) then f in fieldSet && 0 <= fieldData[f].len < UINT16 - 1
                 else f == Host ==> fieldData[f].len == 0
      modifies this`fieldSet, this`fieldData
      ensures HostFieldOf(t).None? ==> fieldSet == old(fieldSet) && fieldData == old(fieldData)
      ensures HostFieldOf(t).Some? ==>
                var f := HostFieldOf(t).value;
                && fieldSet == old(fieldSet) + {f}
                && fieldData == old(fieldData)[f := if HostFieldOf(s) == Some(f)
                                                    then Run(old(fieldData[f].off), old(fieldData[f].len) + 1) else Run(p, 1)]
    {
      hide ParseHostChar;
      ghost var ch :| t == ParseHostChar(s, ch);
      HostSteps(s, ch);
      match t {
      case HostChars =>
        var host := fieldData[Host];
        if s != HostChars { host := Run(p, host.len); }
        fieldData := fieldData[Host := Run(host.off, (host.len + 1) % UINT16)];
      case HostV6 =>
        var host := fieldData[Host];
        if s != HostV6 { host := Run(p, host.len); }
        fieldData := fieldData[Host := Run(host.off, (host.len + 1) % UINT16)];
      case HostV6ZoneStart =>
        fieldData := fieldData[Host := Run(fieldData[Host].off, (fieldData[Host].len + 1) % UINT16)];
      case HostV6Zone =>
        fieldData := fieldData[Host := Run(fieldData[Host].off, (fieldData[Host].len + 1) % UINT16)];
      case HostPort =>
        var port := fieldData[Port];
        if s != HostPort {
          port := Run(p, 0);
          fieldSet := fieldSet + {Port};
        }
        fieldData := fieldData[Port := Run(port.off, (port.len + 1) % UINT16)];
      case UserinfoChars =>
        var info := fieldData[Userinfo];
        if s != UserinfoChars {
          info := Run(p, 0);
          fieldSet := fieldSet + {Userinfo};
        }
        fieldData := fieldData[Userinfo := Run(info.off, (info.len + 1) % UINT16)];
      case _ =>
      }
    }

    /** http_parse_host: split the authority, which is the run of the Host field. */
    method ParseHost(buf: seq<Byte>, foundAt: bool, ghost auth: seq<Byte>) returns (r: int)
      requires |buf| < UINT16 && Total(fieldData)
      requires Host in fieldSet && Port !in fieldSet && Userinfo !in fieldSet
      requires HostText(auth, buf, |buf|, fieldSet, fieldData)
      modifies this`fieldSet, this`fieldData
      ensures r == 0 <==> HostEnds(HostAfter(foundAt, auth, |auth|))
      ensures r == 0 ==> HostRuns(HostParts(foundAt, auth, |auth|), old(fieldData[Host].off), fieldSet, fieldData)
      ensures Total(fieldData) && forall f: Field :: f != Host && f != Port && f != Userinfo ==>
                (f in fieldSet <==> f in old(fieldSet)) && fieldData[f] == old(fieldData[f])
      ensures Host in fieldSet
    {
      hide HostRuns, ParseHostChar, FieldIs;
      var h := fieldData[Host].off;
      var buflen := h + fieldData[Host].len;
      fieldData := fieldData[Host := Run(h, 0)];
      var s := AuthorityStart(foundAt);
      var p := h;
      NoHostYet(foundAt, auth, h, fieldSet, fieldData);
      while p < buflen
        invariant h <= p <= buflen
        invariant s == HostAfter(foundAt, auth, p - h) && !s.HostDead?
        invariant HostRuns(HostParts(foundAt, auth, p - h), h, fieldSet, fieldData) && Total(fieldData)
        invariant Host in fieldSet
        invariant forall f: Field :: f != Host && f != Port && f != Userinfo ==>
                    (f in fieldSet <==> f in old(fieldSet)) && fieldData[f] == old(fieldData[f])
        decreases buflen - p
      {
        assert auth[p - h] == buf[p];
        var t := ParseHostChar(s, buf[p]);
        if t.HostDead? {
          HostDeadStays(foundAt, auth, p - h + 1, |auth|);
          return 1;
        }
        ghost var k, data, present, next := p - h, fieldData, fieldSet, HostFieldOf(t);
        assert HostPart(foundAt, auth, k) == next;
        ghost var run := if next.None? then Run(0, 0)
                         else if HostFieldOf(s) == next then Run(data[next.value].off, data[next.value].len + 1) else Run(p, 1);
        HostGrows(foundAt, auth, k, h, present, data, run);
        if next.Some? { HostField(foundAt, auth, k, h, present, data, next.value); }
        HostByte(s, t, p);
        assert present + {Host} == present;
        s := t;
        p := p + 1;
      }
      // make sure we don't end somewhere unexpected
      r := if HostEnds(s) then 0 else 1;
    }

    /** strtoul, base 10, on memory with something that is not a digit behind it: the digits from off on, clipped to
        ULONG_MAX. */
    method StrToUl(mem: seq<Byte>, off: nat, ghost end: nat) returns (v: int)
      requires off <= end <= |mem| && (forall i :: off <= i < end ==> IsNum(mem[i]))
      requires end == |mem| || !IsNum(mem[end])
      ensures v == if Decimal(mem[off..end]) < ULONG_MAX then Decimal(mem[off..end]) else ULONG_MAX
    {
      v := 0;
      var p := off;
      while p < |mem| && IsNum(mem[p])
        invariant off <= p <= end && v == Decimal(mem[off..p])
      {
        assert mem[off..p + 1][..p - off] == mem[off..p];
        v := v * 10 + (mem[p] as int - 48);
        p := p + 1;
      }
      if v > ULONG_MAX { v := ULONG_MAX; }
    }

    /** The port field, and the digits behind the URL if it ends there, as a number, if it fits 16 bits. */
    method ReadPort(mem: seq<Byte>, ghost n: nat, ghost isConnect: bool) returns (r: int)
      requires n <= |mem| && AllAre(Fields(isConnect, mem[..n], n), fieldSet, fieldData) && port == 0
      modifies this`port
      ensures r == 0 <==> (Port in fieldSet ==> Decimal(PortRead(isConnect, mem, n)) <= 0xffff)
      ensures r == 0 ==> port == if Port in fieldSet then Decimal(PortRead(isConnect, mem, n)) else 0
    {
      hide AllAre, Fields, PortRead;
      if Port in fieldSet {
        ghost var end := PortReadIs(isConnect, mem, n, fieldSet, fieldData);
        var v := StrToUl(mem, fieldData[Port].off, end);
        if v > 0xffff { return 1; }
        port := v;
      }
      r := 0;
    }

    /** http_parser_parse_url, for the first n bytes of mem: succeeds exactly on the URLs of the right shape whose
        port, as it is read, fits 16 bits; then every field is recorded as the run of exactly its bytes. */
    method ParseUrl(mem: seq<Byte>, n: nat, isConnect: bool) returns (r: int)
      requires n <= |mem| && n < UINT16 && Total(fieldData)
      modifies this
      ensures r == 0 <==> UrlShape(isConnect, mem[..n]) &&
                          (HasPort(isConnect, mem[..n]) ==> Decimal(PortRead(isConnect, mem, n)) <= 0xffff)
      ensures r == 0 ==> AllAre(Fields(isConnect, mem[..n], n), fieldSet, fieldData)
      ensures r == 0 ==> (Port in fieldSet <==> HasPort(isConnect, mem[..n]))
      ensures r == 0 ==> port == if Port in fieldSet then Decimal(PortRead(isConnect, mem, n)) else 0
      ensures r == 0 <==> GoodUrl(isConnect, mem[..n]) &&
                          (Place(isConnect, mem[..n], Port).len > 0 ==> Decimal(PortDigits(isConnect, mem, n)) <= 0xffff)
      ensures r == 0 ==> InPlace(isConnect, mem[..n], fieldSet, fieldData)
      ensures r == 0 ==> port == if Port in fieldSet then Decimal(PortDigits(isConnect, mem, n)) else 0
    {
      hide AllAre, HostRuns, HostText, UrlAfter, Part, HostAfter, HostEnds, Text, FinalPart, PortRead, GoodUrl, InPlace,
           PortDigits, Place;
      ShapeByText(isConnect, mem[..n]);
      var buf := mem[..n];
      var ok, foundAt := SplitOuter(buf, isConnect);
      if !ok { return 1; }
      ghost var parts, auth := Parts(isConnect, buf, |buf|), Authority(isConnect, buf, |buf|);
      ghost var outer := fieldSet;
      PresentIff(parts, fieldSet, fieldData, Schema);
      PresentIff(parts, fieldSet, fieldData, Host);
      if Schema in fieldSet && Host !in fieldSet { return 1; }
      if Host in fieldSet {
        ghost var data := fieldData;
        OuterOnly(isConnect, buf, fieldSet, fieldData);
        r := ParseHost(buf, foundAt, auth);
        if r != 0 { return 1; }
        Combined(isConnect, buf, outer, data, fieldSet, fieldData);
      } else {
        NoAuthority(isConnect, buf, fieldSet, fieldData);
      }
      ghost var fields := Fields(isConnect, buf, |buf|);
      forall f: Field ensures f in fieldSet <==> Some(f) in fields {
        PresentIff(fields, fieldSet, fieldData, f);
      }
      if isConnect && fieldSet != {Host, Port} { return 1; }
      assert isConnect ==> forall f: Field :: Some(f) in fields <==> f == Host || f == Port;
      RecordedInPlace(isConnect, buf, fieldSet, fieldData);
      PortDigitsIs(isConnect, mem, n, fieldSet, fieldData);
      r := ReadPort(mem, n, isConnect);
    }
  }

  /** What is read for the port is a run of digits in memory. */
  lemma PortReadIs(isConnect: bool, mem: seq<Byte>, n: nat, present: set<Field>, data: map<Field, Run>) returns (end: nat)
    requires n <= |mem| && AllAre(Fields(isConnect, mem[..n], n), present, data) && Port in present
    ensures Total(data) && 0 <= data[Port].off <= end <= |mem| && (forall i :: data[Port].off <= i < end ==> IsNum(mem[i]))
    ensures (end == |mem| || !IsNum(mem[end])) && PortRead(isConnect, mem, n) == mem[data[Port].off..end]
  {
    hide Text, FinalPart;
    var buf, off, last := mem[..n], data[Port].off, data[Port].off + data[Port].len;
    PortRun(isConnect, buf, present, data);
    PortLast(isConnect, buf, present, data);
    assert buf[off..last] == mem[off..last];
    assert forall i :: off <= i < last ==> IsNum(buf[i]) && mem[i] == buf[i];
    if last == n {
      end := n + DigitRun(mem, n);
      assert mem[off..n] + mem[n..end] == mem[off..end];
    } else {
      end := last;
      assert mem[last] == buf[last];
    }
  }

  lemma PortLast(isConnect: bool, buf: seq<Byte>, present: set<Field>, data: map<Field, Run>)
    requires AllAre(Fields(isConnect, buf, |buf|), present, data) && Port in present
    ensures Total(data) && 0 < data[Port].off + data[Port].len <= |buf|
    ensures FinalPart(isConnect, buf, |buf| - 1) == Some(Port) <==> data[Port].off + data[Port].len == |buf|
  {
    hide FinalPart;
    assert FieldIs(Fields(isConnect, buf, |buf|), Port, true, data[Port]);
  }

  // ----- when the port that is read is the port of the URL -----

  function Power10(k: nat): nat {
    if k == 0 then 1 else 10 * Power10(k - 1)
  }

  lemma TenTimes(x: int, p: int)
    ensures x * (10 * p) == x * p * 10
  {
  }

  lemma {:induction false} DecimalAppend(a: seq<Byte>, b: seq<Byte>)
    requires forall i :: 0 <= i < |b| ==> IsNum(b[i])
    ensures 0 <= Decimal(b) && Decimal(a + b) == Decimal(a) * Power10(|b|) + Decimal(b)
    decreases |b|
  {
    if b == [] {
      assert a + b == a;
    } else {
      var n := |b| - 1;
      DecimalAppend(a, b[..n]);
      assert (a + b)[..|a| + n] == a + b[..n];
      TenTimes(Decimal(a), Power10(n));
    }
  }

  lemma {:induction false} Power10Grows(k: nat)
    requires k > 0
    ensures Power10(k) >= 10
  {
    if k > 1 { Power10Grows(k - 1); }
  }

  /** With digits behind it a number means the same, up to a limit, only if it is too large, or if all is zero. */
  lemma StrayDigits(a: seq<Byte>, b: seq<Byte>, max: nat)
    requires (forall i :: 0 <= i < |a| ==> IsNum(a[i])) && forall i :: 0 <= i < |b| ==> IsNum(b[i])
    ensures var x, y := Decimal(a), Decimal(a + b);
            ((x <= max <==> y <= max) && (x <= max ==> x == y)) <==> b == [] || x > max || y == 0
  {
    hide Decimal, Power10;
    DecimalAppend([], a);
    DecimalAppend(a, b);
    if b == [] {
      assert a + b == a;
    } else {
      Power10Grows(|b|);
      Magnified(Decimal(a), Power10(|b|), Decimal(b));
    }
  }

  lemma Magnified(x: nat, k: nat, z: nat)
    requires k >= 10
    ensures x * k + z >= 10 * x
  {
    assert x * k == x * 10 + x * (k - 10);
  }

  /** The result and the port are those of the URL exactly when no digit stands behind it, or its port field does not
      end there, or is too large already, or is zero with all the digits behind it. */
  lemma PortIsOfUrl(isConnect: bool, mem: seq<Byte>, n: nat)
    requires n <= |mem| && UrlShape(isConnect, mem[..n]) && HasPort(isConnect, mem[..n])
    ensures var x, y := Decimal(PortText(isConnect, mem[..n])), Decimal(PortRead(isConnect, mem, n));
            ((y <= 0xffff <==> UrlOk(isConnect, mem[..n])) && (y <= 0xffff ==> y == x)) <==>
            n == |mem| || !IsNum(mem[n]) || FinalPart(isConnect, mem[..n], n - 1) != Some(Port) || x > 0xffff || y == 0
  {
    hide FinalPart, UrlShape, Text, Decimal;
    var buf := mem[..n];
    assert n > 0;
    PortTextDigits(isConnect, buf);
    var stray := if FinalPart(isConnect, buf, n - 1) == Some(Port) then mem[n..n + DigitRun(mem, n)] else [];
    forall i | 0 <= i < |stray| ensures IsNum(stray[i]) { assert stray[i] == mem[n + i]; }
    StrayDigits(PortText(isConnect, buf), stray, 0xffff);
    if stray == [] && FinalPart(isConnect, buf, n - 1) == Some(Port) { assert DigitRun(mem, n) == 0; }
  }

  /** So the port of the first three bytes of "a:80" is read as 80. */
  lemma StrayPort()
    ensures var mem: seq<Byte> := [97, 58, 56, 48];
            && UrlOk(true, mem[..3]) && HasPort(true, mem[..3])
            && Decimal(PortText(true, mem[..3])) == 8 && Decimal(PortRead(true, mem, 3)) == 80
  {
    hide UrlShape, HasPort, PortText, FinalPart;
    var mem: seq<Byte> := [97, 58, 56, 48];
    assert mem[..3] == [97, 58, 56];
    SmallShape(mem[..3]);
    SmallText(mem[..3]);
    assert DigitRun(mem, 4) == 0 && DigitRun(mem, 3) == 1;
    assert [56] + mem[3..4] == [56, 48];
    SmallNumbers();
  }

  lemma SmallNumbers()
    ensures Decimal([56]) == 8 && Decimal([56, 48]) == 80
  {
    assert [56][..0] == [] && [56, 48][..1] == [56];
  }

  lemma SmallShape(buf: seq<Byte>)
    requires buf == [97, 58, 56]
    ensures UrlShape(true, buf) && HasPort(true, buf) && FinalPart(true, buf, 2) == Some(Port)
  {
    SmallOuter(buf);
    SmallInner(buf);
    hide UrlAfter, Authority, FoundAt, Part, HostAfter, FinalPart;
    var fields := Fields(true, buf, 3);
    assert fields == [Some(Host), None, Some(Port)];
    assert Parts(true, buf, 3)[0] == Some(Host);
    assert fields[0] == Some(Host) && fields[2] == Some(Port);
  }

  lemma SmallText(buf: seq<Byte>)
    requires buf == [97, 58, 56]
    ensures PortText(true, buf) == [56]
  {
    SmallInner(buf);
    hide FinalPart;
    var fields := Fields(true, buf, 3);
    assert fields == [Some(Host), None, Some(Port)];
    assert fields[..2] == [Some(Host), None] && [Some(Host), None][..1] == [Some(Host)] && [Some(Host)][..0] == [];
    assert Text([Some(Host)], buf, Port) == [];
    assert Text([Some(Host), None], buf, Port) == [];
  }

  lemma SmallOuter(buf: seq<Byte>)
    requires buf == [97, 58, 56]
    ensures UrlAfter(true, buf, 3) == Uri(ReqServer) && Authority(true, buf, 3) == buf && !FoundAt(true, buf, 3)
    ensures Part(true, buf, 0) == Part(true, buf, 1) == Part(true, buf, 2) == Some(Host)
    ensures Authority(true, buf, 0) == [] && |Authority(true, buf, 1)| == 1 && |Authority(true, buf, 2)| == 2
  {
    assert UrlAfter(true, buf, 0) == Uri(ReqServerStart);
    assert UrlAfter(true, buf, 1) == Uri(ReqServer);
    assert UrlAfter(true, buf, 2) == Uri(ReqServer);
    assert UrlAfter(true, buf, 3) == Uri(ReqServer);
    assert Authority(true, buf, 1) == [97];
    assert Authority(true, buf, 2) == [97, 58];
    assert !FoundAt(true, buf, 0) && !FoundAt(true, buf, 1) && !FoundAt(true, buf, 2);
  }

  lemma SmallInner(buf: seq<Byte>)
    requires buf == [97, 58, 56]
    ensures FinalPart(true, buf, 0) == Some(Host) && FinalPart(true, buf, 1) == None && FinalPart(true, buf, 2) == Some(Port)
    ensures HostAfter(false, buf, 3) == HostPort
  {
    SmallOuter(buf);
    hide UrlAfter, Authority, FoundAt, Part;
    assert HostAfter(false, buf, 0) == HostStart;
    assert HostAfter(false, buf, 1) == HostChars;
    assert HostAfter(false, buf, 2) == HostPortStart;
    assert HostAfter(false, buf, 3) == HostPort;
  }

  predicate AllDigits(t: seq<Byte>) { forall i :: 0 <= i < |t| ==> IsNum(t[i]) }

  lemma PortTextDigits(isConnect: bool, buf: seq<Byte>)
    ensures AllDigits(PortText(isConnect, buf))
  {
    hide FinalPart, AllDigits;
    TextDigits(isConnect, buf, Fields(isConnect, buf, |buf|));
  }

  lemma {:induction false} TextDigits(isConnect: bool, buf: seq<Byte>, labels: seq<Option<Field>>)
    requires |labels| <= |buf| && forall i :: 0 <= i < |labels| ==> labels[i] == FinalPart(isConnect, buf, i)
    ensures AllDigits(Text(labels, buf, Port))
    decreases |labels|
  {
    hide FinalPart;
    if labels != [] {
      var n := |labels| - 1;
      TextDigits(isConnect, buf, labels[..n]);
      if labels[n] == Some(Port) { PortDigit(isConnect, buf, n); }
    }
  }

  /** Where the states that extend a run come from. */
  lemma HostSteps(s: HostState, ch: Byte)
    ensures var t := ParseHostChar(s, ch);
            && (t.HostChars? ==> s.HostChars? || s.HostStart?)
            && (t.HostV6? ==> s.HostV6? || s.HostV6Start?)
            && (t.HostV6ZoneStart? ==> s.HostV6?)
            && (t.HostV6Zone? ==> s.HostV6ZoneStart? || s.HostV6Zone?)
            && (t.HostPort? ==> s.HostPort? || s.HostPortStart?)
            && (t.UserinfoChars? ==> s.UserinfoChars? || s.UserinfoStart?)
            && !t.UserinfoStart?
  {
  }

  lemma NoHostYet(foundAt: bool, auth: seq<Byte>, h: int, present: set<Field>, data: map<Field, Run>)
    requires Total(data) && data[Host].len == 0 && Port !in present && Userinfo !in present
    ensures HostRuns(HostParts(foundAt, auth, 0), h, present, data)
  {
  }

  const ULONG_MAX: int := 0xffff_ffff_ffff_ffff

  lemma PresentIff(labels: seq<Option<Field>>, present: set<Field>, data: map<Field, Run>, f: Field)
    requires AllAre(labels, present, data)
    ensures Total(data) && f in data && (f in present <==> Some(f) in labels)
  {
    assert FieldIs(labels, f, f in present, data[f]);
    HasIff(labels, f, f in present, data[f]);
  }

  /** The outer loop gives no byte to the parts of the authority. */
  lemma OuterOnly(isConnect: bool, buf: seq<Byte>, present: set<Field>, data: map<Field, Run>)
    requires AllAre(Parts(isConnect, buf, |buf|), present, data)
    ensures Port !in present && Userinfo !in present
  {
    PresentIff(Parts(isConnect, buf, |buf|), present, data, Port);
    PresentIff(Parts(isConnect, buf, |buf|), present, data, Userinfo);
    hide UrlAfter;
  }

  lemma NoAuthority(isConnect: bool, buf: seq<Byte>, present: set<Field>, data: map<Field, Run>)
    requires AllAre(Parts(isConnect, buf, |buf|), present, data) && Host !in present
    ensures AllAre(Fields(isConnect, buf, |buf|), present, data)
  {
    PresentIff(Parts(isConnect, buf, |buf|), present, data, Host);
    hide Part, UrlAfter, AllAre;
    forall i | 0 <= i < |buf| ensures FinalPart(isConnect, buf, i) == Part(isConnect, buf, i) {
      assert Parts(isConnect, buf, |buf|)[i] != Some(Host);
    }
    assert Fields(isConnect, buf, |buf|) == Parts(isConnect, buf, |buf|);
  }

  /** The label of byte i inside and outside the run r of the authority. */
  lemma FinalInRun(isConnect: bool, buf: seq<Byte>, r: Run, i: nat)
    requires i < |buf| && FieldIs(Parts(isConnect, buf, |buf|), Host, true, r)
    requires |Authority(isConnect, buf, |buf|)| == r.len
    ensures FinalPart(isConnect, buf, i) ==
            if r.off <= i < r.off + r.len
            then HostPart(FoundAt(isConnect, buf, |buf|), Authority(isConnect, buf, |buf|), i - r.off)
            else Part(isConnect, buf, i)
    ensures r.off <= i < r.off + r.len <==> Part(isConnect, buf, i) == Some(Host)
  {
    hide Part, HostPart;
    AuthorityAt(isConnect, buf, r, i);
    assert Parts(isConnect, buf, |buf|)[i] == Part(isConnect, buf, i);
  }

  /** A field of the authority, as the run that the authority loop found. */
  lemma InnerField(isConnect: bool, buf: seq<Byte>, r: Run, f: Field, has: bool, d: Run)
    requires FieldIs(Parts(isConnect, buf, |buf|), Host, true, r)
    requires |Authority(isConnect, buf, |buf|)| == r.len
    requires f == Host || f == Port || f == Userinfo
    requires FieldIs(HostParts(FoundAt(isConnect, buf, |buf|), Authority(isConnect, buf, |buf|), r.len), f, has, Shifted(d, r.off))
    ensures FieldIs(Fields(isConnect, buf, |buf|), f, has, d)
  {
    var fields := Fields(isConnect, buf, |buf|);
    var inner := HostParts(FoundAt(isConnect, buf, |buf|), Authority(isConnect, buf, |buf|), r.len);
    forall i | 0 <= i < |buf|
      ensures fields[i] == Some(f) <==> r.off <= i < r.off + r.len && inner[i - r.off] == Some(f)
    {
      FinalInRun(isConnect, buf, r, i);
      PartOuter(isConnect, buf, i);
    }
    hide FinalPart, Part, HostPart, FoundAt, Authority;
    if !has {
      forall i | 0 <= i < |buf| ensures fields[i] != Some(f) {
        if r.off <= i < r.off + r.len { assert inner[i - r.off] in inner; }
      }
    }
  }

  lemma PartOuter(isConnect: bool, buf: seq<Byte>, i: nat)
    requires i < |buf|
    ensures Part(isConnect, buf, i) != Some(Port) && Part(isConnect, buf, i) != Some(Userinfo)
  {
    hide UrlAfter;
  }

  lemma OuterField(isConnect: bool, buf: seq<Byte>, r: Run, f: Field, has: bool, d: Run)
    requires FieldIs(Parts(isConnect, buf, |buf|), Host, true, r)
    requires |Authority(isConnect, buf, |buf|)| == r.len
    requires f != Host && f != Port && f != Userinfo
    requires FieldIs(Parts(isConnect, buf, |buf|), f, has, d)
    ensures FieldIs(Fields(isConnect, buf, |buf|), f, has, d)
  {
    var fields, parts := Fields(isConnect, buf, |buf|), Parts(isConnect, buf, |buf|);
    forall i | 0 <= i < |buf| ensures fields[i] == Some(f) <==> parts[i] == Some(f) {
      FinalInRun(isConnect, buf, r, i);
      if r.off <= i < r.off + r.len {
        HostKinds(HostAfter(FoundAt(isConnect, buf, |buf|), Authority(isConnect, buf, |buf|), i - r.off + 1));
      }
    }
    hide FinalPart, Part, HostPart, FoundAt, Authority;
    if !has {
      forall i | 0 <= i < |buf| ensures fields[i] != Some(f) { assert parts[i] in parts; }
    }
  }

  /** The two loops together label the whole URL. */
  lemma Combined(isConnect: bool, buf: seq<Byte>, outer: set<Field>, data0: map<Field, Run>,
                 present: set<Field>, data: map<Field, Run>)
    requires AllAre(Parts(isConnect, buf, |buf|), outer, data0) && Host in outer && Host in present
    requires var auth := Authority(isConnect, buf, |buf|);
             && HostText(auth, buf, |buf|, outer, data0)
             && HostEnds(HostAfter(FoundAt(isConnect, buf, |buf|), auth, |auth|))
             && HostRuns(HostParts(FoundAt(isConnect, buf, |buf|), auth, |auth|), data0[Host].off, present, data)
    requires forall f: Field :: f != Host && f != Port && f != Userinfo ==>
               (f in present <==> f in outer) && f in data && data[f] == data0[f]
    ensures AllAre(Fields(isConnect, buf, |buf|), present, data)
  {
    var auth, r := Authority(isConnect, buf, |buf|), data0[Host];
    var foundAt, parts := FoundAt(isConnect, buf, |buf|), Parts(isConnect, buf, |buf|);
    HostPresent(foundAt, auth, |auth|);
    assert data[Host].len != 0 by {
      var i :| 0 <= i < |auth| && HostPart(foundAt, auth, i) == Some(Host);
      assert HostParts(foundAt, auth, |auth|)[i] in HostParts(foundAt, auth, |auth|);
    }
    hide Authority, FoundAt, Part, HostAfter, HostPart, FinalPart, FieldIs;
    assert FieldIs(parts, Host, true, r);
    forall f: Field ensures FieldIs(Fields(isConnect, buf, |buf|), f, f in present, data[f]) {
      if f == Host || f == Port || f == Userinfo {
        InnerField(isConnect, buf, r, f, f in present, data[f]);
      } else {
        assert FieldIs(parts, f, f in outer, data0[f]);
        OuterField(isConnect, buf, r, f, f in present, data[f]);
      }
    }
  }

  lemma TotalData(labels: seq<Option<Field>>, present: set<Field>, data: map<Field, Run>)
    requires AllAre(labels, present, data)
    ensures Total(data)
  {
  }

  lemma Nothing(isConnect: bool, buf: seq<Byte>, data: map<Field, Run>)
    requires Total(data)
    ensures AllAre(Parts(isConnect, buf, 0), {}, data) && LastIs(isConnect, buf, 0, {}, None)
    ensures HostText(Authority(isConnect, buf, 0), buf, 0, {}, data)
  {
  }

  lemma Skipped(isConnect: bool, buf: seq<Byte>, p: nat, present: set<Field>, data: map<Field, Run>, last: Option<Field>)
    requires p < |buf| && Part(isConnect, buf, p) == None
    requires AllAre(Parts(isConnect, buf, p), present, data) && LastIs(isConnect, buf, p, present, last)
    requires HostText(Authority(isConnect, buf, p), buf, p, present, data)
    ensures AllAre(Parts(isConnect, buf, p + 1), present, data) && LastIs(isConnect, buf, p + 1, present, last)
    ensures HostText(Authority(isConnect, buf, p + 1), buf, p + 1, present, data)
  {
    hide Part;
    SkipGrows(Parts(isConnect, buf, p), present, data);
    assert Authority(isConnect, buf, p + 1) == Authority(isConnect, buf, p) + [];
  }

  // ----- the port -----

  lemma {:induction false} AuthorityPrefix(isConnect: bool, buf: seq<Byte>, m: nat, n: nat)
    requires m <= n <= |buf|
    ensures Authority(isConnect, buf, m) <= Authority(isConnect, buf, n)
    decreases n
  {
    hide Part;
    if m < n { AuthorityPrefix(isConnect, buf, m, n - 1); }
  }

  /** A byte of the authority, found again in the authority's text. */
  lemma AuthorityByte(isConnect: bool, buf: seq<Byte>, i: nat)
    requires i < |buf| && Part(isConnect, buf, i) == Some(Host)
    ensures var auth, k := Authority(isConnect, buf, |buf|), |Authority(isConnect, buf, i)|;
            k < |auth| && auth[k] == buf[i] && |Authority(isConnect, buf, i + 1)| == k + 1
    ensures FinalPart(isConnect, buf, i) ==
            HostPart(FoundAt(isConnect, buf, |buf|), Authority(isConnect, buf, |buf|), |Authority(isConnect, buf, i)|)
  {
    hide Part, HostPart, FoundAt;
    AuthorityPrefix(isConnect, buf, i + 1, |buf|);
    assert Authority(isConnect, buf, i + 1)[|Authority(isConnect, buf, i)|] == buf[i];
  }

  lemma PortDigit(isConnect: bool, buf: seq<Byte>, i: nat)
    requires i < |buf| && FinalPart(isConnect, buf, i) == Some(Port)
    ensures Part(isConnect, buf, i) == Some(Host) && IsNum(buf[i])
  {
    hide Part, UrlAfter, Authority, FoundAt, FinalPart;
    PortInHost(isConnect, buf, i);
    AuthorityByte(isConnect, buf, i);
  }

  lemma PortInHost(isConnect: bool, buf: seq<Byte>, i: nat)
    requires i < |buf| && FinalPart(isConnect, buf, i) == Some(Port)
    ensures Part(isConnect, buf, i) == Some(Host)
  {
    hide Part, UrlAfter, Authority, FoundAt, HostPart;
    PartOuter(isConnect, buf, i);
  }

  lemma PortGoesOn(isConnect: bool, buf: seq<Byte>, i: nat)
    requires i + 1 < |buf| && FinalPart(isConnect, buf, i) == Some(Port) && IsNum(buf[i + 1])
    ensures FinalPart(isConnect, buf, i + 1) == Some(Port)
  {
    PortDigit(isConnect, buf, i);
    ServerGoesOn(UrlAfter(isConnect, buf, i + 1), buf[i + 1]);
    assert Part(isConnect, buf, i + 1) == Some(Host);
    AuthorityByte(isConnect, buf, i);
    AuthorityByte(isConnect, buf, i + 1);
    hide Part, UrlAfter, Authority, FoundAt, FinalPart;
  }

  lemma ServerGoesOn(s: State, ch: Byte)
    requires FieldOf(s) == Some(Host) && IsNum(ch)
    ensures FieldOf(ParseUrlChar(s, ch)) == Some(Host)
  {
  }

  /** The port field is all digits, and the digits end where it ends. */
  lemma PortRun(isConnect: bool, buf: seq<Byte>, present: set<Field>, data: map<Field, Run>)
    requires AllAre(Fields(isConnect, buf, |buf|), present, data) && Port in present
    ensures Total(data)
    ensures var off, end := data[Port].off, data[Port].off + data[Port].len;
            && 0 <= off <= end <= |buf| && (forall i :: off <= i < end ==> IsNum(buf[i]))
            && (end == |buf| || !IsNum(buf[end]))
            && Text(Fields(isConnect, buf, |buf|), buf, Port) == buf[off..end]
  {
    hide Part, UrlAfter, Authority, FoundAt, FinalPart, Text;
    var fields, r := Fields(isConnect, buf, |buf|), data[Port];
    assert FieldIs(fields, Port, true, r);
    PortRunDigits(isConnect, buf, r);
    PortStops(isConnect, buf, r);
    TextOfRun(fields, buf, Port, true, r, |buf|);
    assert fields[..|buf|] == fields;
  }

  lemma PortRunDigits(isConnect: bool, buf: seq<Byte>, r: Run)
    requires FieldIs(Fields(isConnect, buf, |buf|), Port, true, r)
    ensures 0 <= r.off <= r.off + r.len <= |buf| && forall i :: r.off <= i < r.off + r.len ==> IsNum(buf[i])
  {
    hide FinalPart;
    forall i | r.off <= i < r.off + r.len ensures IsNum(buf[i]) {
      assert Fields(isConnect, buf, |buf|)[i] == Some(Port);
      PortDigit(isConnect, buf, i);
    }
  }

  lemma PortStops(isConnect: bool, buf: seq<Byte>, r: Run)
    requires FieldIs(Fields(isConnect, buf, |buf|), Port, true, r)
    ensures 0 < r.off + r.len <= |buf|
    ensures r.off + r.len == |buf| || !IsNum(buf[r.off + r.len])
  {
    hide FinalPart;
    var end := r.off + r.len;
    if end < |buf| && IsNum(buf[end]) {
      assert Fields(isConnect, buf, |buf|)[end - 1] == Some(Port);
      PortGoesOn(isConnect, buf, end - 1);
      assert false;
    }
  }

  // ----- consequences -----

  predicate IsDelimiter(c: Byte) {
    c == ':' as int || c == '/' as int || c == '?' as int || c == '#' as int ||
    c == '@' as int || c == '[' as int || c == ']' as int
  }

  lemma OuterDelimiter(isConnect: bool, buf: seq<Byte>, i: nat)
    requires i < |buf| && OuterOk(isConnect, buf, LayoutOf(isConnect, buf), i) && OuterLabel(LayoutOf(isConnect, buf), i) == None
    ensures IsDelimiter(buf[i])
  {
  }

  lemma InnerDelimiter(foundAt: bool, auth: seq<Byte>, i: nat)
    requires i < |auth| && InnerOk(foundAt, auth, InsideOf(foundAt, auth), i) && InnerLabel(InsideOf(foundAt, auth), i) == None
    ensures IsDelimiter(auth[i])
  {
  }

  /** Every byte of an accepted URL that is in no field is a delimiter. */
  lemma OutsideIsDelimiter(isConnect: bool, buf: seq<Byte>, i: nat)
    requires UrlOk(isConnect, buf) && i < |buf| && FinalPart(isConnect, buf, i) == None
    ensures IsDelimiter(buf[i])
  {
    hide UrlShape, HasPort, PortText, Decimal, FinalPart, LayoutOf, InsideOf, OuterOk, InnerOk, InnerLabel, OuterLabel, Complete, Place;
    ShapeByText(isConnect, buf);
    LabelByText(isConnect, buf, i);
    var l, auth := LayoutOf(isConnect, buf), AuthorityText(isConnect, buf);
    if l.host <= i < l.path {
      assert auth[i - l.host] == buf[i];
      InnerDelimiter('@' as int in auth, auth, i - l.host);
    } else {
      OuterDelimiter(isConnect, buf, i);
    }
  }

  /** An accepted URL with a schema has a host of at least one byte. */
  lemma SchemaNeedsHost(isConnect: bool, buf: seq<Byte>)
    requires UrlOk(isConnect, buf) && Some(Schema) in Fields(isConnect, buf, |buf|)
    ensures Some(Host) in Fields(isConnect, buf, |buf|)
  {
    hide LayoutOf, InsideOf, OuterAllOk, InnerAllOk, Fields, UrlShape, Decimal, HasPort, PortText;
    ShapeByText(isConnect, buf);
    FieldInPlace(isConnect, buf, Schema);
    FieldInPlace(isConnect, buf, Host);
  }
}
