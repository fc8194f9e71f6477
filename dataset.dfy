/** `load_dump` (kabysdoh.py:48-85) after the JSON document has been read:
    the exact-address sets, the four tries and the wire-format probe names. */
module Dataset {
  import opened Base
  import opened Bits
  import opened Matcher
  import opened Dname
  import opened Msg

  /** The decoded dump document: `ip`, `ipv6`, `ipSubnet`, `ipv6Subnet`,
      `cdnSubnet`, `cdnv6Subnet` and `cdnDomains`. */
  datatype Dump = Dump(
    ip: seq<nat>, ipv6: seq<nat>,
    ipSubnet: seq<(nat, nat)>, ipv6Subnet: seq<(nat, nat)>,
    cdnSubnet: seq<(nat, nat, CdnId)>, cdnv6Subnet: seq<(nat, nat, CdnId)>,
    cdnDomains: map<CdnId, seq<string>>)

  /** The lookup tables of one address family. */
  datatype Tables = Tables(exact: set<nat>, block: Trie<()>, cdn: Trie<CdnId>)

  /** The loaded dataset; `cdns` are the keys that the two stash maps are
      created with (kabysdoh.py:75-76). */
  datatype Data = Data(v4: Tables, v6: Tables, domains: map<CdnId, seq<seq<byte>>>, cdns: set<CdnId>)

  datatype LoadError = BadSubnet(BuildError) | BadDomain(DnameError)

  function TablesOf(data: Data, f: Family): Tables {
    match f
    case V4 => data.v4
    case V6 => data.v6
  }

  function BlockRanges(ps: seq<(nat, nat)>): (rs: seq<Range<()>>)
    ensures |rs| == |ps|
    ensures forall i :: 0 <= i < |ps| ==> rs[i] == Range(ps[i].0, ps[i].1, ())
  {
    seq(|ps|, i requires 0 <= i < |ps| => Range(ps[i].0, ps[i].1, ()))
  }

  function CdnRanges(ps: seq<(nat, nat, CdnId)>): (rs: seq<Range<CdnId>>)
    ensures |rs| == |ps|
    ensures forall i :: 0 <= i < |ps| ==> rs[i] == Range(ps[i].0, ps[i].1, ps[i].2)
  {
    seq(|ps|, i requires 0 <= i < |ps| => Range(ps[i].0, ps[i].1, ps[i].2))
  }

  function CdnIdsOf(ps: seq<(nat, nat, CdnId)>): set<CdnId> {
    set i | 0 <= i < |ps| :: ps[i].2
  }

  predicate Encodable(name: string) {
    IsAscii(name) && ShortPieces(Pieces(name))
  }

  /** The tables of one family answer as their range lists say. */
  ghost predicate TablesModel(t: Tables, exact: seq<nat>, block: seq<Range<()>>, cdn: seq<Range<CdnId>>, nbits: nat) {
    && t.exact == (set a | a in exact)
    && t.block.mask == CommonMask(nbits, block)
    && t.cdn.mask == CommonMask(nbits, cdn)
    && (forall ip: nat :: BlockHit(t.block, ip) <==> exists j :: 0 <= j < |block| && Contains(block[j], ip))
    && (forall ip: nat :: Lookup(t.cdn, ip) == Reference(cdn, t.cdn.mask, ip))
  }

  /** `enc` holds the wire form of every name of `ns`, in order. */
  ghost predicate Encoded(enc: seq<seq<byte>>, ns: seq<string>) {
    |enc| == |ns| &&
    forall i :: 0 <= i < |ns| ==>
      Encodable(ns[i]) && ValidLabels(TextLabels(ns[i])) && enc[i] == EncodeName(TextLabels(ns[i]))
  }

  ghost predicate DomainsModel(domains: map<CdnId, seq<seq<byte>>>, names: map<CdnId, seq<string>>) {
    domains.Keys == names.Keys && forall c :: c in names ==> Encoded(domains[c], names[c])
  }

  /** `data` is what `load_dump` makes of `d`. */
  ghost predicate Models(data: Data, d: Dump) {
    && TablesModel(data.v4, d.ip, BlockRanges(d.ipSubnet), CdnRanges(d.cdnSubnet), 32)
    && TablesModel(data.v6, d.ipv6, BlockRanges(d.ipv6Subnet), CdnRanges(d.cdnv6Subnet), 128)
    && data.cdns == CdnIdsOf(d.cdnSubnet) + CdnIdsOf(d.cdnv6Subnet)
    && DomainsModel(data.domains, d.cdnDomains)
  }

  /** The dump loads unless a candidate range follows a direct one under the
      same key in some list, or some probe name cannot be encoded. */
  ghost predicate Loadable(d: Dump) {
    && !Collides(BlockRanges(d.ipSubnet), CommonMask(32, BlockRanges(d.ipSubnet)))
    && !Collides(BlockRanges(d.ipv6Subnet), CommonMask(128, BlockRanges(d.ipv6Subnet)))
    && !Collides(CdnRanges(d.cdnSubnet), CommonMask(32, CdnRanges(d.cdnSubnet)))
    && !Collides(CdnRanges(d.cdnv6Subnet), CommonMask(128, CdnRanges(d.cdnv6Subnet)))
    && forall c, i :: c in d.cdnDomains && 0 <= i < |d.cdnDomains[c]| ==> Encodable(d.cdnDomains[c][i])
  }

  lemma EncodedSnoc(enc: seq<seq<byte>>, ns: seq<string>, e: seq<byte>, n: string)
    requires Encoded(enc, ns)
    requires Encodable(n) && ValidLabels(TextLabels(n)) && e == EncodeName(TextLabels(n))
    ensures Encoded(enc + [e], ns + [n])
  {
    assert forall i :: 0 <= i < |ns| ==> (ns + [n])[i] == ns[i] && (enc + [e])[i] == enc[i];
  }

  /** `[strAsDname(_) for _ in ns]` (kabysdoh.py:84): fails at the first
      name that cannot be encoded. */
  method EncodeNames(ns: seq<string>) returns (r: Result<seq<seq<byte>>, DnameError>)
    ensures r.Ok? <==> forall i :: 0 <= i < |ns| ==> Encodable(ns[i])
    ensures r.Ok? ==> Encoded(r.value, ns)
  {
    var enc: seq<seq<byte>> := [];
    var i := 0;
    while i < |ns|
      invariant 0 <= i <= |ns|
      invariant Encoded(enc, ns[..i])
    {
      var e := StrAsDname(ns[i]);
      if e.Err? {
        assert !Encodable(ns[i]);
        return Err(e.error);
      }
      assert ns[..i + 1] == ns[..i] + [ns[i]];
      EncodedSnoc(enc, ns[..i], e.value, ns[i]);
      enc := enc + [e.value];
      i := i + 1;
    }
    assert ns[..i] == ns;
    return Ok(enc);
  }

  /** Encodes the probe names of every CDN (kabysdoh.py:83-84). */
  method EncodeDomains(names: map<CdnId, seq<string>>) returns (r: Result<map<CdnId, seq<seq<byte>>>, DnameError>)
    ensures r.Ok? <==> forall c, i :: c in names && 0 <= i < |names[c]| ==> Encodable(names[c][i])
    ensures r.Ok? ==> DomainsModel(r.value, names)
  {
    var dom: map<CdnId, seq<seq<byte>>> := map[];
    var todo := names.Keys;
    while todo != {}
      invariant todo <= names.Keys
      invariant dom.Keys == names.Keys - todo
      invariant forall c :: c in dom ==> Encoded(dom[c], names[c])
      decreases todo
    {
      var c :| c in todo;
      var enc := EncodeNames(names[c]);
      if enc.Err? {
        return Err(enc.error);
      }
      dom := dom[c := enc.value];
      todo := todo - {c};
    }
    return Ok(dom);
  }

  /** `load_dump` on an already decoded document. */
  method LoadDump(d: Dump) returns (r: Result<Data, LoadError>)
    ensures r.Ok? <==> Loadable(d)
    ensures r.Ok? ==> Models(r.value, d)
  {
    var exact4 := set a | a in d.ip;
    var exact6 := set a | a in d.ipv6;
    var b4 := Build(32, BlockRanges(d.ipSubnet));
    if b4.Err? { return Err(BadSubnet(b4.error)); }
    var b6 := Build(128, BlockRanges(d.ipv6Subnet));
    if b6.Err? { return Err(BadSubnet(b6.error)); }
    var c4 := Build(32, CdnRanges(d.cdnSubnet));
    if c4.Err? { return Err(BadSubnet(c4.error)); }
    var c6 := Build(128, CdnRanges(d.cdnv6Subnet));
    if c6.Err? { return Err(BadSubnet(c6.error)); }
    var cdns := CdnIdsOf(d.cdnSubnet) + CdnIdsOf(d.cdnv6Subnet);
    var dom := EncodeDomains(d.cdnDomains);
    if dom.Err? { return Err(BadDomain(dom.error)); }
    r := Ok(Data(Tables(exact4, b4.value, c4.value), Tables(exact6, b6.value, c6.value), dom.value, cdns));
  }

  /** The address test of kabysdoh.py:140-145: an exact address of the
      family or a hit in its blocklist trie. */
  predicate IsBlocked(data: Data, f: Family, ip: nat) {
    ip in TablesOf(data, f).exact || BlockHit(TablesOf(data, f).block, ip)
  }

  /** `ip & netmask == netaddr` for some `(netaddr, netmask)` of the list. */
  predicate InSomeRange(ps: seq<(nat, nat)>, ip: nat) {
    exists j :: 0 <= j < |ps| && And(ip, ps[j].1) == ps[j].0
  }

  lemma LookupIsKnownCdnIn(t: Trie<CdnId>, ps: seq<(nat, nat, CdnId)>, ip: nat)
    requires forall a: nat :: Lookup(t, a) == Reference(CdnRanges(ps), t.mask, a)
    ensures Lookup(t, ip).Some? ==> Lookup(t, ip).value in CdnIdsOf(ps)
  {
    ReferenceSome(CdnRanges(ps), t.mask, ip);
    if Lookup(t, ip).Some? {
      var j :| 0 <= j < |ps| && Contains(CdnRanges(ps)[j], ip) && CdnRanges(ps)[j].payload == Lookup(t, ip).value;
      assert ps[j].2 in CdnIdsOf(ps);
    }
  }

  /** Every cdn id a CDN lookup can return has a stash list: the stash maps
      are created with every id of both CDN range lists. */
  lemma LookupIsKnownCdn(data: Data, d: Dump, f: Family, ip: nat)
    requires Models(data, d)
    ensures Lookup(TablesOf(data, f).cdn, ip).Some? ==> Lookup(TablesOf(data, f).cdn, ip).value in data.cdns
  {
    assert TablesModel(data.v4, d.ip, BlockRanges(d.ipSubnet), CdnRanges(d.cdnSubnet), 32);
    assert TablesModel(data.v6, d.ipv6, BlockRanges(d.ipv6Subnet), CdnRanges(d.cdnv6Subnet), 128);
    if f == V4 {
      LookupIsKnownCdnIn(data.v4.cdn, d.cdnSubnet, ip);
    } else {
      LookupIsKnownCdnIn(data.v6.cdn, d.cdnv6Subnet, ip);
    }
  }

  lemma BlockHitInRanges(t: Trie<()>, ps: seq<(nat, nat)>, ip: nat)
    requires forall a: nat :: BlockHit(t, a) <==> exists j :: 0 <= j < |BlockRanges(ps)| && Contains(BlockRanges(ps)[j], a)
    ensures BlockHit(t, ip) <==> InSomeRange(ps, ip)
  {
    if BlockHit(t, ip) {
      var j :| 0 <= j < |BlockRanges(ps)| && Contains(BlockRanges(ps)[j], ip);
      assert And(ip, ps[j].1) == ps[j].0;
    }
    if InSomeRange(ps, ip) {
      var j :| 0 <= j < |ps| && And(ip, ps[j].1) == ps[j].0;
      assert Contains(BlockRanges(ps)[j], ip);
    }
  }

  /** An address is refused exactly when it is one of the family's exact
      addresses or lies in one of its blocked ranges. */
  lemma BlockedIff(data: Data, d: Dump, f: Family, ip: nat)
    requires Models(data, d)
    ensures IsBlocked(data, f, ip) <==>
            if f == V4 then ip in d.ip || InSomeRange(d.ipSubnet, ip)
            else ip in d.ipv6 || InSomeRange(d.ipv6Subnet, ip)
  {
    assert TablesModel(data.v4, d.ip, BlockRanges(d.ipSubnet), CdnRanges(d.cdnSubnet), 32);
    assert TablesModel(data.v6, d.ipv6, BlockRanges(d.ipv6Subnet), CdnRanges(d.cdnv6Subnet), 128);
    if f == V4 {
      BlockHitInRanges(data.v4.block, d.ipSubnet, ip);
    } else {
      BlockHitInRanges(data.v6.block, d.ipv6Subnet, ip);
    }
  }
}
