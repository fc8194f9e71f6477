/** `parse_reply_info` (kabysdoh.py:107-171): every A and AAAA RR of class
    IN in the answer section is checked against the blocklist and the CDN
    tables; the outcome is the count of acceptable RRs, the RDATA blobs to
    drop, the CDNs seen and the acceptable RRs that can later stand in for
    dropped ones. */
module Classifier {
  import opened Base
  import opened Matcher
  import opened Text
  import opened Msg
  import opened Dataset

  /** One RR of an answer RR-set with the fields of its set that the
      classification reads. */
  datatype Item = Item(dnameText: string, rtype: nat, rclass: nat, rr: RData)

  /** A replacement RR kept for its CDN: expiry time, RFC 3597 text of the
      type, class and RDATA, packed length and the CDN (kabysdoh.py:163-168). */
  datatype Candidate = Candidate(exp: int, text: string, rrLen: nat, cdn: CdnId)

  /** `good, unwanted, rrcdn, goodcdn`. */
  datatype Info = Info(good: nat, unwanted: set<seq<byte>>, cdns: set<CdnId>, goodCdn: seq<Candidate>)

  /** The RuntimeError raised for an RR whose lengths disagree
      (kabysdoh.py:135-137); it carries the owner name. */
  datatype ParseError = Malformed(dname: string)

  function SetItems(s: RRSet): (r: seq<Item>)
    ensures |r| == |s.rrs|
    ensures forall i :: 0 <= i < |r| ==> r[i] == Item(s.dnameText, s.rtype, s.rclass, s.rrs[i])
  {
    seq(|s.rrs|, i requires 0 <= i < |s.rrs| => Item(s.dnameText, s.rtype, s.rclass, s.rrs[i]))
  }

  /** The RRs the loops of kabysdoh.py:126-133 visit, in order: those of the
      A and AAAA RR-sets of class IN. */
  function Items(rrsets: seq<RRSet>): seq<Item> {
    if rrsets == [] then []
    else
      var last := rrsets[|rrsets| - 1];
      Items(rrsets[..|rrsets| - 1]) + (if IsAddressSet(last) then SetItems(last) else [])
  }

  /** `rr_len == data.rr_len[rri] == len(blob) == blob[1] + 2 and blob[0] == 0`:
      the packed RDATA is two length octets (the first zero) followed by an
      address of the family's size. */
  predicate WellFormed(it: Item) {
    var n := PackedLength(FamilyOf(it.rtype));
    n == it.rr.len && it.rr.len == |it.rr.blob| && |it.rr.blob| == it.rr.blob[1] as int + 2 && it.rr.blob[0] == 0
  }

  /** `blob[2:]`: the RDATA after the two length octets, empty for a
      shorter blob as Python's slicing makes it. */
  function Rdata(blob: seq<byte>): seq<byte> {
    if |blob| >= 2 then blob[2..] else []
  }

  /** `int.from_bytes(blob[2:], 'big')`. */
  function Address(it: Item): nat {
    BigEndian(Rdata(it.rr.blob))
  }

  /** The address is an exact blocked address or lies in a blocked range
      of its family (kabysdoh.py:139-145). */
  predicate Blocked(data: Data, it: Item) {
    IsBlocked(data, FamilyOf(it.rtype), Address(it))
  }

  /** The CDN whose range holds the address (kabysdoh.py:152-161). */
  function CdnOf(data: Data, it: Item): Option<CdnId> {
    Lookup(TablesOf(data, FamilyOf(it.rtype)).cdn, Address(it))
  }

  /** An acceptable RR of a known CDN with a positive TTL is kept as a
      replacement (kabysdoh.py:162-163). */
  predicate Kept(data: Data, it: Item) {
    !Blocked(data, it) && it.rr.ttl > 0 && CdnOf(data, it).Some?
  }

  /** What the tables say about one RR. */
  datatype Verdict = Verdict(blocked: bool, cdn: Option<CdnId>)

  function Judge(data: Data, it: Item): Verdict {
    Verdict(Blocked(data, it), CdnOf(data, it))
  }

  function Verdicts(data: Data, items: seq<Item>): (vs: seq<Verdict>)
    ensures |vs| == |items|
    ensures forall i :: 0 <= i < |items| ==> vs[i] == Judge(data, items[i])
  {
    seq(|items|, i requires 0 <= i < |items| => Judge(data, items[i]))
  }

  predicate Keeps(it: Item, v: Verdict) {
    !v.blocked && it.rr.ttl > 0 && v.cdn.Some?
  }

  /** The replacement made of an RR: it expires TTL ticks after `now`, and
      its text is the RFC 3597 form of its class, type and RDATA. */
  function CandidateOf(now: int, it: Item, cdn: CdnId): Candidate
    requires WellFormed(it)
  {
    Candidate(now + it.rr.ttl, GenericRData(it.rclass, it.rtype, it.rr.blob[1] as int, it.rr.blob[2..]),
              PackedLength(FamilyOf(it.rtype)), cdn)
  }

  /** A well-formed RR is counted as good or its blob is dropped; its CDN
      is noted, and an acceptable CDN RR with a positive TTL is kept. */
  function Absorb(now: int, acc: Info, it: Item, v: Verdict): Info
    requires WellFormed(it)
  {
    Info(
      if v.blocked then acc.good else acc.good + 1,
      if v.blocked then acc.unwanted + {it.rr.blob} else acc.unwanted,
      if v.cdn.Some? then acc.cdns + {v.cdn.value} else acc.cdns,
      if Keeps(it, v) then acc.goodCdn + [CandidateOf(now, it, v.cdn.value)] else acc.goodCdn)
  }

  /** The effect of one RR with its verdict; a malformed RR aborts. */
  function Step(now: int, acc: Info, it: Item, v: Verdict): Result<Info, ParseError> {
    if !WellFormed(it) then Err(Malformed(it.dnameText)) else Ok(Absorb(now, acc, it, v))
  }

  /** The outcome of visiting `items`, with verdicts `vs`, in order. */
  function Fold(now: int, items: seq<Item>, vs: seq<Verdict>): Result<Info, ParseError>
    requires |vs| == |items|
  {
    if items == [] then Ok(Info(0, {}, {}, []))
    else
      var n := |items| - 1;
      match Fold(now, items[..n], vs[..n])
      case Err(e) => Err(e)
      case Ok(acc) => Step(now, acc, items[n], vs[n])
  }

  /** The outcome of `parse_reply_info` for the address RRs `items`. */
  function Classify(data: Data, now: int, items: seq<Item>): Result<Info, ParseError> {
    Fold(now, items, Verdicts(data, items))
  }

  lemma {:induction false} ItemsAppend(xs: seq<RRSet>, ys: seq<RRSet>)
    ensures Items(xs + ys) == Items(xs) + Items(ys)
  {
    if ys != [] {
      var n := |ys| - 1;
      assert (xs + ys)[..|xs + ys| - 1] == xs + ys[..n];
      ItemsAppend(xs, ys[..n]);
    } else {
      assert xs + ys == xs;
    }
  }

  lemma ItemsSnoc(rrsets: seq<RRSet>, k: nat)
    requires k < |rrsets|
    ensures Items(rrsets[..k + 1]) == Items(rrsets[..k]) + (if IsAddressSet(rrsets[k]) then SetItems(rrsets[k]) else [])
  {
    assert rrsets[..k + 1][..k] == rrsets[..k];
  }

  lemma SliceSnoc<T>(d: seq<T>, s: seq<T>, i: nat)
    requires i < |s|
    ensures d + s[..i + 1] == (d + s[..i]) + [s[i]]
  {
    assert s[..i + 1] == s[..i] + [s[i]];
  }

  lemma VerdictsPrefix(data: Data, items: seq<Item>, k: nat)
    requires k <= |items|
    ensures Verdicts(data, items)[..k] == Verdicts(data, items[..k])
  {
  }

  lemma {:induction false} FoldErrSticks(now: int, items: seq<Item>, vs: seq<Verdict>, k: nat)
    requires |vs| == |items| && k <= |items|
    requires Fold(now, items[..k], vs[..k]).Err?
    ensures Fold(now, items, vs) == Fold(now, items[..k], vs[..k])
    decreases |items|
  {
    if k < |items| {
      var n := |items| - 1;
      assert items[..n][..k] == items[..k] && vs[..n][..k] == vs[..k];
      FoldErrSticks(now, items[..n], vs[..n], k);
    } else {
      assert items[..k] == items && vs[..k] == vs;
    }
  }

  lemma ClassifySnoc(data: Data, now: int, xs: seq<Item>, x: Item)
    requires Classify(data, now, xs).Ok?
    ensures Classify(data, now, xs + [x]) == Step(now, Classify(data, now, xs).value, x, Judge(data, x))
  {
    var ys := xs + [x];
    assert ys[..|xs|] == xs;
    VerdictsPrefix(data, ys, |xs|);
  }

  lemma ClassifyErrSticks(data: Data, now: int, xs: seq<Item>, ys: seq<Item>)
    requires Classify(data, now, xs).Err?
    ensures Classify(data, now, xs + ys) == Classify(data, now, xs)
  {
    var all := xs + ys;
    assert all[..|xs|] == xs;
    VerdictsPrefix(data, all, |xs|);
    FoldErrSticks(now, all, Verdicts(data, all), |xs|);
  }

  /** After a malformed RR the whole scan fails with its error. */
  lemma AbortAfter(data: Data, now: int, rrsets: seq<RRSet>, k: nat)
    requires k < |rrsets|
    requires Classify(data, now, Items(rrsets[..k + 1])).Err?
    ensures Classify(data, now, Items(rrsets)) == Classify(data, now, Items(rrsets[..k + 1]))
  {
    assert rrsets == rrsets[..k + 1] + rrsets[k + 1..];
    ItemsAppend(rrsets[..k + 1], rrsets[k + 1..]);
    ClassifyErrSticks(data, now, Items(rrsets[..k + 1]), Items(rrsets[k + 1..]));
  }

  /** The body of the inner loop (kabysdoh.py:134-170) for one RR. */
  method VisitRR(data: Data, now: int, acc: Info, it: Item) returns (r: Result<Info, ParseError>)
    ensures r == Step(now, acc, it, Judge(data, it))
  {
    var f := FamilyOf(it.rtype);
    var t := TablesOf(data, f);
    var rr := it.rr;
    var blob := rr.blob;
    if !(PackedLength(f) == rr.len && rr.len == |blob| && |blob| == blob[1] as int + 2 && blob[0] == 0) {
      return Err(Malformed(it.dnameText));
    }
    var good, unwanted, rrcdn, goodcdn := acc.good, acc.unwanted, acc.cdns, acc.goodCdn;
    var ip := BigEndian(blob[2..]);
    var rrGood: bool;
    if ip in t.exact || BlockHit(t.block, ip) {
      unwanted := unwanted + {blob};
      rrGood := false;
    } else {
      good := good + 1;
      rrGood := true;
    }
    var cdn := Lookup(t.cdn, ip);
    if cdn.Some? {
      rrcdn := rrcdn + {cdn.value};
      if rrGood && rr.ttl > 0 {
        var exp := now + rr.ttl;
        var rrtxt := GenericRData(it.rclass, it.rtype, blob[1] as int, blob[2..]);
        goodcdn := goodcdn + [Candidate(exp, rrtxt, PackedLength(f), cdn.value)];
      }
    }
    return Ok(Info(good, unwanted, rrcdn, goodcdn));
  }

  /** The scan carried on from the counts `acc` over further RRs, front
      to back, stopping at the first malformed one. */
  function Scan(data: Data, now: int, acc: Info, items: seq<Item>): Result<Info, ParseError>
    decreases |items|
  {
    if items == [] then Ok(acc)
    else
      match Step(now, acc, items[0], Judge(data, items[0]))
      case Err(e) => Err(e)
      case Ok(next) => Scan(data, now, next, items[1..])
  }

  /** Scanning `xs` and then `ys` is scanning `xs + ys`. */
  lemma {:induction false} ClassifyThenScan(data: Data, now: int, xs: seq<Item>, ys: seq<Item>)
    requires Classify(data, now, xs).Ok?
    ensures Classify(data, now, xs + ys) == Scan(data, now, Classify(data, now, xs).value, ys)
    decreases |ys|
  {
    if ys == [] {
      assert xs + ys == xs;
    } else {
      var y, acc := ys[0], Classify(data, now, xs).value;
      var st := Step(now, acc, y, Judge(data, y));
      ClassifySnoc(data, now, xs, y);
      assert xs + ys == (xs + [y]) + ys[1..];
      if st.Err? {
        ClassifyErrSticks(data, now, xs + [y], ys[1..]);
        assert Scan(data, now, acc, ys) == st;
      } else {
        ClassifyThenScan(data, now, xs + [y], ys[1..]);
        assert Scan(data, now, acc, ys) == Scan(data, now, st.value, ys[1..]);
      }
    }
  }

  /** The inner loop of kabysdoh.py:130-170 over the RRs of one address
      RR-set, from the counts gathered so far. */
  method VisitSet(data: Data, now: int, s: RRSet, acc0: Info) returns (r: Result<Info, ParseError>)
    ensures r == Scan(data, now, acc0, SetItems(s))
  {
    var acc := acc0;
    ghost var ss := SetItems(s);
    var i := 0;
    while i < |s.rrs|
      invariant 0 <= i <= |s.rrs|
      invariant Scan(data, now, acc0, ss) == Scan(data, now, acc, ss[i..])
    {
      var it := Item(s.dnameText, s.rtype, s.rclass, s.rrs[i]);
      assert ss[i..][0] == it && ss[i..][1..] == ss[i + 1..];
      var step := VisitRR(data, now, acc, it);
      if step.Err? {
        return step;
      }
      acc := step.value;
      i := i + 1;
    }
    assert ss[i..] == [];
    return Ok(acc);
  }

  /** The scan of kabysdoh.py:126-170 computes `Classify` of the answer's
      address RRs. */
  method ParseReplyInfo(data: Data, now: int, rep: Reply) returns (r: Result<Info, ParseError>)
    ensures r == Classify(data, now, Items(rep.rrsets))
  {
    var acc := Info(0, {}, {}, []);
    var k := 0;
    while k < |rep.rrsets|
      invariant 0 <= k <= |rep.rrsets|
      invariant Classify(data, now, Items(rep.rrsets[..k])) == Ok(acc)
    {
      var s := rep.rrsets[k];
      ItemsSnoc(rep.rrsets, k);
      if IsAddressSet(s) {
        var res := VisitSet(data, now, s, acc);
        ClassifyThenScan(data, now, Items(rep.rrsets[..k]), SetItems(s));
        if res.Err? {
          AbortAfter(data, now, rep.rrsets, k);
          return res;
        }
        acc := res.value;
      } else {
        assert Items(rep.rrsets[..k]) + [] == Items(rep.rrsets[..k]);
      }
      k := k + 1;
    }
    assert rep.rrsets[..k] == rep.rrsets;
    return Ok(acc);
  }

  /** The items are exactly the RRs of the A and AAAA RR-sets of class IN:
      RR-sets of other types and classes are skipped. */
  lemma {:induction false} ItemsAreAddressRRs(rrsets: seq<RRSet>)
    ensures forall it :: it in Items(rrsets) <==>
      exists k, i :: 0 <= k < |rrsets| && IsAddressSet(rrsets[k]) && 0 <= i < |rrsets[k].rrs| &&
                     it == Item(rrsets[k].dnameText, rrsets[k].rtype, rrsets[k].rclass, rrsets[k].rrs[i])
  {
    if rrsets != [] {
      var n := |rrsets| - 1;
      var front := rrsets[..n];
      ItemsAreAddressRRs(front);
      forall it | it in Items(rrsets)
        ensures exists k, i :: 0 <= k < |rrsets| && IsAddressSet(rrsets[k]) && 0 <= i < |rrsets[k].rrs| &&
                               it == Item(rrsets[k].dnameText, rrsets[k].rtype, rrsets[k].rclass, rrsets[k].rrs[i])
      {
        if it in Items(front) {
          var k, i :| 0 <= k < |front| && IsAddressSet(front[k]) && 0 <= i < |front[k].rrs| &&
                      it == Item(front[k].dnameText, front[k].rtype, front[k].rclass, front[k].rrs[i]);
          assert front[k] == rrsets[k];
        } else {
          var i :| 0 <= i < |SetItems(rrsets[n])| && SetItems(rrsets[n])[i] == it;
        }
      }
      forall k, i | 0 <= k < |rrsets| && IsAddressSet(rrsets[k]) && 0 <= i < |rrsets[k].rrs|
        ensures Item(rrsets[k].dnameText, rrsets[k].rtype, rrsets[k].rclass, rrsets[k].rrs[i]) in Items(rrsets)
      {
        if k < n {
          assert front[k] == rrsets[k];
        } else {
          assert SetItems(rrsets[n])[i] == Item(rrsets[k].dnameText, rrsets[k].rtype, rrsets[k].rclass, rrsets[k].rrs[i]);
        }
      }
    }
  }


  /** The last RR's effect when the scan of the ones before it succeeded. */
  lemma FoldLast(now: int, items: seq<Item>, vs: seq<Verdict>)
    requires |vs| == |items| && items != []
    requires Fold(now, items[..|items| - 1], vs[..|items| - 1]).Ok? && WellFormed(items[|items| - 1])
    ensures Fold(now, items, vs) ==
            Ok(Absorb(now, Fold(now, items[..|items| - 1], vs[..|items| - 1]).value, items[|items| - 1], vs[|items| - 1]))
  {
  }

  lemma {:induction false} FoldOkIff(now: int, items: seq<Item>, vs: seq<Verdict>)
    requires |vs| == |items|
    ensures Fold(now, items, vs).Ok? <==> forall i :: 0 <= i < |items| ==> WellFormed(items[i])
    ensures Fold(now, items, vs).Err? ==>
      exists i :: 0 <= i < |items| && !WellFormed(items[i]) && (forall j :: 0 <= j < i ==> WellFormed(items[j])) &&
                  Fold(now, items, vs).error == Malformed(items[i].dnameText)
  {
    if items != [] {
      var n := |items| - 1;
      var front := items[..n];
      FoldOkIff(now, front, vs[..n]);
      assert forall j :: 0 <= j < n ==> front[j] == items[j];
      if Fold(now, front, vs[..n]).Err? {
        var i :| 0 <= i < n && !WellFormed(front[i]) && (forall j :: 0 <= j < i ==> WellFormed(front[j])) &&
                 Fold(now, front, vs[..n]).error == Malformed(front[i].dnameText);
        assert !WellFormed(items[i]);
      }
    }
  }

  /** The positions whose verdict is not blocked. */
  function Acceptable(vs: seq<Verdict>): set<nat> {
    set i: nat | i < |vs| && !vs[i].blocked
  }

  lemma AcceptableSnoc(vs: seq<Verdict>, v: Verdict)
    ensures Acceptable(vs + [v]) == Acceptable(vs) + (if v.blocked then {} else {|vs|})
  {
    var ws := vs + [v];
    assert forall i :: 0 <= i < |vs| ==> ws[i] == vs[i];
  }

  lemma {:induction false} FoldGood(now: int, items: seq<Item>, vs: seq<Verdict>)
    requires |vs| == |items|
    requires forall i :: 0 <= i < |items| ==> WellFormed(items[i])
    ensures Fold(now, items, vs).Ok?
    ensures Fold(now, items, vs).value.good == |Acceptable(vs)|
  {
    if items != [] {
      var n := |items| - 1;
      assert forall j :: 0 <= j < n ==> items[..n][j] == items[j];
      FoldGood(now, items[..n], vs[..n]);
      FoldLast(now, items, vs);
      var acc := Fold(now, items[..n], vs[..n]).value;
      assert Fold(now, items, vs).value.good == acc.good + (if vs[n].blocked then 0 else 1);
      assert vs == vs[..n] + [vs[n]];
      AcceptableSnoc(vs[..n], vs[n]);
      var before := Acceptable(vs[..n]);
      if !vs[n].blocked {
        assert n !in before;
        assert |before + {n}| == |before| + 1;
      }
    }
  }

  lemma {:induction false} FoldUnwanted(now: int, items: seq<Item>, vs: seq<Verdict>)
    requires |vs| == |items|
    requires forall i :: 0 <= i < |items| ==> WellFormed(items[i])
    ensures Fold(now, items, vs).Ok?
    ensures forall b :: b in Fold(now, items, vs).value.unwanted <==>
      exists i :: 0 <= i < |items| && items[i].rr.blob == b && vs[i].blocked
  {
    if items != [] {
      var n := |items| - 1;
      assert forall j :: 0 <= j < n ==> items[..n][j] == items[j] && vs[..n][j] == vs[j];
      FoldUnwanted(now, items[..n], vs[..n]);
    }
  }

  lemma {:induction false} FoldCdns(now: int, items: seq<Item>, vs: seq<Verdict>)
    requires |vs| == |items|
    requires forall i :: 0 <= i < |items| ==> WellFormed(items[i])
    ensures Fold(now, items, vs).Ok?
    ensures forall c :: c in Fold(now, items, vs).value.cdns <==> exists i :: 0 <= i < |vs| && vs[i].cdn == Some(c)
  {
    if items != [] {
      var n := |items| - 1;
      assert forall j :: 0 <= j < n ==> vs[..n][j] == vs[j];
      FoldCdns(now, items[..n], vs[..n]);
    }
  }

  /** `y` is the candidate made of the `i`-th RR. */
  predicate KeptAt(now: int, items: seq<Item>, vs: seq<Verdict>, i: int, y: Candidate)
    requires |vs| == |items|
  {
    0 <= i < |items| && WellFormed(items[i]) && Keeps(items[i], vs[i]) &&
    y == CandidateOf(now, items[i], vs[i].cdn.value)
  }

  lemma {:induction false} FoldCandidates(now: int, items: seq<Item>, vs: seq<Verdict>)
    requires |vs| == |items|
    requires forall i :: 0 <= i < |items| ==> WellFormed(items[i])
    ensures Fold(now, items, vs).Ok?
    ensures forall y :: y in Fold(now, items, vs).value.goodCdn <==> exists i :: KeptAt(now, items, vs, i, y)
  {
    if items != [] {
      var n := |items| - 1;
      var front, fvs := items[..n], vs[..n];
      assert forall j :: 0 <= j < n ==> front[j] == items[j];
      FoldCandidates(now, front, fvs);
      FoldLast(now, items, vs);
      var acc := Fold(now, front, fvs).value;
      var added := if Keeps(items[n], vs[n]) then [CandidateOf(now, items[n], vs[n].cdn.value)] else [];
      assert Fold(now, items, vs).value.goodCdn == acc.goodCdn + added;
      forall y | y in acc.goodCdn + added
        ensures exists i :: KeptAt(now, items, vs, i, y)
      {
        if y in acc.goodCdn {
          var i :| KeptAt(now, front, fvs, i, y);
          assert KeptAt(now, items, vs, i, y);
        } else {
          assert KeptAt(now, items, vs, n, y);
        }
      }
      forall y, i | KeptAt(now, items, vs, i, y)
        ensures y in acc.goodCdn + added
      {
        if i < n {
          assert KeptAt(now, front, fvs, i, y);
          assert y in acc.goodCdn;
        } else {
          assert i == n;
          assert Keeps(items[n], vs[n]) && y == CandidateOf(now, items[n], vs[n].cdn.value);
          assert added == [y];
        }
      }
    }
  }

  /** The scan succeeds exactly when every address RR is well formed; it
      fails with the owner name of the first malformed one. */
  lemma ClassifyOkIff(data: Data, now: int, items: seq<Item>)
    ensures Classify(data, now, items).Ok? <==> forall i :: 0 <= i < |items| ==> WellFormed(items[i])
    ensures Classify(data, now, items).Err? ==>
      exists i :: 0 <= i < |items| && !WellFormed(items[i]) && (forall j :: 0 <= j < i ==> WellFormed(items[j])) &&
                  Classify(data, now, items).error == Malformed(items[i].dnameText)
  {
    FoldOkIff(now, items, Verdicts(data, items));
  }

  function Unblocked(data: Data, items: seq<Item>): set<nat> {
    set i: nat | i < |items| && !Blocked(data, items[i])
  }

  /** `good` counts the address RRs that are neither exact blocked
      addresses nor in a blocked range. */
  lemma ClassifyGood(data: Data, now: int, items: seq<Item>)
    requires forall i :: 0 <= i < |items| ==> WellFormed(items[i])
    ensures Classify(data, now, items).Ok?
    ensures Classify(data, now, items).value.good == |Unblocked(data, items)|
  {
    var vs := Verdicts(data, items);
    FoldGood(now, items, vs);
    assert Acceptable(vs) == Unblocked(data, items);
  }

  /** A blob is dropped exactly when some address RR carries it and is
      blocked. */
  lemma ClassifyUnwanted(data: Data, now: int, items: seq<Item>)
    requires forall i :: 0 <= i < |items| ==> WellFormed(items[i])
    ensures Classify(data, now, items).Ok?
    ensures forall b :: b in Classify(data, now, items).value.unwanted <==>
      exists i :: 0 <= i < |items| && items[i].rr.blob == b && Blocked(data, items[i])
  {
    FoldUnwanted(now, items, Verdicts(data, items));
  }

  /** The CDNs seen are those of every address RR in a CDN range, blocked
      or not. */
  lemma ClassifyCdns(data: Data, now: int, items: seq<Item>)
    requires forall i :: 0 <= i < |items| ==> WellFormed(items[i])
    ensures Classify(data, now, items).Ok?
    ensures forall c :: c in Classify(data, now, items).value.cdns <==>
      exists i :: 0 <= i < |items| && CdnOf(data, items[i]) == Some(c)
  {
    var vs := Verdicts(data, items);
    FoldCdns(now, items, vs);
    forall c | c in Classify(data, now, items).value.cdns
      ensures exists i :: 0 <= i < |items| && CdnOf(data, items[i]) == Some(c)
    {
      var i :| 0 <= i < |vs| && vs[i].cdn == Some(c);
      assert CdnOf(data, items[i]) == Some(c);
    }
    forall c, i | 0 <= i < |items| && CdnOf(data, items[i]) == Some(c)
      ensures c in Classify(data, now, items).value.cdns
    {
      assert vs[i].cdn == Some(c);
    }
  }

  /** `y` is the candidate made of the `i`-th RR, an acceptable CDN RR. */
  predicate CandidateFrom(data: Data, now: int, items: seq<Item>, i: int, y: Candidate) {
    0 <= i < |items| && WellFormed(items[i]) && Kept(data, items[i]) &&
    y == CandidateOf(now, items[i], CdnOf(data, items[i]).value)
  }

  /** The replacement candidates are exactly the acceptable CDN RRs with a
      positive TTL, each expiring TTL ticks after `now`. */
  lemma ClassifyCandidates(data: Data, now: int, items: seq<Item>)
    requires forall i :: 0 <= i < |items| ==> WellFormed(items[i])
    ensures Classify(data, now, items).Ok?
    ensures forall y :: y in Classify(data, now, items).value.goodCdn <==>
      exists i :: CandidateFrom(data, now, items, i, y)
  {
    var vs := Verdicts(data, items);
    FoldCandidates(now, items, vs);
    var got := Fold(now, items, vs).value.goodCdn;
    assert Classify(data, now, items).value.goodCdn == got;
    assert forall i :: 0 <= i < |items| ==> vs[i] == Judge(data, items[i]);
    forall y, i | KeptAt(now, items, vs, i, y)
      ensures CandidateFrom(data, now, items, i, y)
    {
    }
    forall y, i | CandidateFrom(data, now, items, i, y)
      ensures KeptAt(now, items, vs, i, y)
    {
    }
  }

  /** Among well-formed address RRs a blob fixes the family (its length)
      and so the address: an RR's blob is dropped exactly when that RR is
      blocked, which is what the rebuild step relies on. */
  lemma UnwantedExact(data: Data, now: int, items: seq<Item>, j: nat)
    requires forall i :: 0 <= i < |items| ==> WellFormed(items[i])
    requires j < |items|
    ensures Classify(data, now, items).Ok?
    ensures items[j].rr.blob in Classify(data, now, items).value.unwanted <==> Blocked(data, items[j])
  {
    ClassifyUnwanted(data, now, items);
    if items[j].rr.blob in Classify(data, now, items).value.unwanted {
      var i :| 0 <= i < |items| && items[i].rr.blob == items[j].rr.blob && Blocked(data, items[i]);
      assert WellFormed(items[i]) && WellFormed(items[j]);
      assert FamilyOf(items[i].rtype) == FamilyOf(items[j].rtype);
    }
  }

  /** Every CDN a reply yields, and every candidate's CDN, has stash lists:
      the stash maps are created with every id of both CDN range lists. */
  lemma CdnsKnown(data: Data, d: Dump, now: int, items: seq<Item>)
    requires Models(data, d)
    requires forall i :: 0 <= i < |items| ==> WellFormed(items[i])
    ensures Classify(data, now, items).Ok?
    ensures Classify(data, now, items).value.cdns <= data.cdns
    ensures forall y :: y in Classify(data, now, items).value.goodCdn ==> y.cdn in data.cdns
  {
    ClassifyCdns(data, now, items);
    ClassifyCandidates(data, now, items);
    forall i | 0 <= i < |items|
      ensures CdnOf(data, items[i]).Some? ==> CdnOf(data, items[i]).value in data.cdns
    {
      LookupIsKnownCdn(data, d, FamilyOf(items[i].rtype), Address(items[i]));
    }
    forall y | y in Classify(data, now, items).value.goodCdn
      ensures y.cdn in data.cdns
    {
      var i :| CandidateFrom(data, now, items, i, y);
    }
  }

  /** A candidate's text reads back as the RR's class, type, RDATA length
      and RDATA. */
  lemma CandidateTextParses(now: int, it: Item, cdn: CdnId)
    requires WellFormed(it)
    ensures var rdata := it.rr.blob[2..];
      ParseGenericRData(CandidateOf(now, it, cdn).text) == Some(GenericFields(it.rclass, it.rtype, |rdata|, rdata))
  {
    GenericRDataRoundTrip(it.rclass, it.rtype, it.rr.blob[1] as int, it.rr.blob[2..]);
  }
}
