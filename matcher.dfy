/** The two-tier CIDR matcher built by `load_dump` (kabysdoh.py:56-82) and
    queried by `parse_reply_info` (kabysdoh.py:140-161). All ranges of one
    list share a common mask, the AND of their netmasks; a bucket keyed by
    `ip & common_mask` holds either a direct result (a range whose netmask is
    the common mask) or the candidate ranges that need a second test. */
module Matcher {
  import opened Base
  import opened Bits

  /** One `(netaddr, netmask[, cdn])` entry of the dataset. */
  datatype Range<P> = Range(addr: nat, mask: nat, payload: P)

  /** A bucket of the trie: `None` or a cdn id stored directly, or the list
      that `setdefault(...).append(...)` grows. */
  datatype Bucket<P> = Direct(payload: P) | Candidates(ranges: seq<Range<P>>)

  datatype Trie<P> = Trie(mask: nat, buckets: map<nat, Bucket<P>>)

  /** `.append` on a direct marker (`None` or a cdn string) raises
      AttributeError: a candidate met a direct entry stored under its key. */
  datatype BuildError = AppendToDirect(key: nat)

  /** `ip & netmask == netaddr`. */
  predicate Contains<P>(r: Range<P>, ip: nat) {
    And(ip, r.mask) == r.addr
  }

  /** `2 ** nbits - 1` ANDed with every netmask (kabysdoh.py:57-59, 70-72). */
  function CommonMask<P>(nbits: nat, rs: seq<Range<P>>): nat {
    if rs == [] then Ones(nbits) else And(CommonMask(nbits, rs[..|rs| - 1]), rs[|rs| - 1].mask)
  }

  /** The common mask keeps only bits that every netmask has. */
  lemma {:induction false} CommonMaskCovered<P>(nbits: nat, rs: seq<Range<P>>, i: nat)
    requires i < |rs|
    ensures Covers(rs[i].mask, CommonMask(nbits, rs))
  {
    var n := |rs| - 1;
    var front := CommonMask(nbits, rs[..n]);
    if i == n {
      AndComm(rs[i].mask, And(front, rs[i].mask));
      AndAssoc(front, rs[i].mask, rs[i].mask);
      AndIdem(rs[i].mask);
    } else {
      assert rs[..n][i] == rs[i];
      CommonMaskCovered(nbits, rs[..n], i);
      MeetCovered(front, rs[n].mask, rs[i].mask);
    }
  }

  /** Some earlier range of `rs` is a direct entry stored under `key`. */
  predicate HasDirect<P>(rs: seq<Range<P>>, c: nat, key: nat) {
    exists j :: 0 <= j < |rs| && rs[j].mask == c && rs[j].addr == key
  }

  /** A candidate follows a direct entry stored under its bucket key: the
      construction raises. */
  predicate Collides<P>(rs: seq<Range<P>>, c: nat) {
    exists j, k :: 0 <= j < k < |rs| && rs[j].mask == c && rs[k].mask != c && rs[j].addr == And(rs[k].addr, c)
  }

  /** The first range of `cs` that contains `ip`, as the `for ... else` of
      kabysdoh.py:157-161 finds it. */
  function FirstIn<P>(cs: seq<Range<P>>, ip: nat): Option<P> {
    if cs == [] then None
    else if Contains(cs[0], ip) then Some(cs[0].payload)
    else FirstIn(cs[1..], ip)
  }

  /** CDN lookup (kabysdoh.py:152-161): the direct cdn of the bucket, else the
      first candidate containing `ip`, else `None`. */
  function Lookup<P>(t: Trie<P>, ip: nat): Option<P> {
    var key := And(ip, t.mask);
    if key !in t.buckets then None
    else
      match t.buckets[key]
      case Direct(p) => Some(p)
      case Candidates(cs) => FirstIn(cs, ip)
  }

  /** Blocklist subnet test (kabysdoh.py:140-145): the bucket holds the direct
      marker or some candidate contains `ip`. */
  predicate BlockHit<P>(t: Trie<P>, ip: nat) {
    var key := And(ip, t.mask);
    key in t.buckets &&
      match t.buckets[key]
      case Direct(_) => true
      case Candidates(cs) => exists j :: 0 <= j < |cs| && Contains(cs[j], ip)
  }

  /** The payload of the last direct range (netmask equal to the common mask)
      containing `ip`. */
  function LastDirect<P>(rs: seq<Range<P>>, c: nat, ip: nat): Option<P> {
    if rs == [] then None
    else if rs[|rs| - 1].mask == c && Contains(rs[|rs| - 1], ip) then Some(rs[|rs| - 1].payload)
    else LastDirect(rs[..|rs| - 1], c, ip)
  }

  /** What the built trie answers, stated over the range list alone: a later
      direct entry replaces its bucket, so the last direct range containing
      `ip` wins; otherwise the first range containing `ip` in list order. */
  function Reference<P>(rs: seq<Range<P>>, c: nat, ip: nat): Option<P> {
    match LastDirect(rs, c, ip)
    case Some(p) => Some(p)
    case None => FirstIn(rs, ip)
  }

  lemma {:induction false} FirstInAppend<P>(cs: seq<Range<P>>, r: Range<P>, ip: nat)
    ensures FirstIn(cs + [r], ip) ==
              if FirstIn(cs, ip).Some? then FirstIn(cs, ip)
              else if Contains(r, ip) then Some(r.payload) else None
  {
    if cs == [] {
      assert [] + [r] == [r];
    } else {
      assert (cs + [r])[1..] == cs[1..] + [r];
      FirstInAppend(cs[1..], r, ip);
    }
  }

  /** `FirstIn` finds something exactly when some range contains `ip`, and
      what it finds is the payload of such a range. */
  lemma {:induction false} FirstInSome<P>(cs: seq<Range<P>>, ip: nat)
    ensures FirstIn(cs, ip).Some? <==> exists j :: 0 <= j < |cs| && Contains(cs[j], ip)
    ensures FirstIn(cs, ip).Some? ==>
              exists j :: 0 <= j < |cs| && Contains(cs[j], ip) && cs[j].payload == FirstIn(cs, ip).value
  {
    if cs != [] {
      FirstInSome(cs[1..], ip);
      if !Contains(cs[0], ip) && FirstIn(cs[1..], ip).Some? {
        var j :| 0 <= j < |cs| - 1 && Contains(cs[1..][j], ip) && cs[1..][j].payload == FirstIn(cs, ip).value;
        assert cs[j + 1] == cs[1..][j];
      }
      if exists j :: 0 <= j < |cs| && Contains(cs[j], ip) {
        var j :| 0 <= j < |cs| && Contains(cs[j], ip);
        if j > 0 {
          assert Contains(cs[1..][j - 1], ip);
        }
      }
    }
  }

  lemma {:induction false} LastDirectSome<P>(rs: seq<Range<P>>, c: nat, ip: nat)
    ensures LastDirect(rs, c, ip).Some? ==>
              exists j :: 0 <= j < |rs| && rs[j].mask == c && Contains(rs[j], ip) && rs[j].payload == LastDirect(rs, c, ip).value
  {
    if rs != [] {
      var n := |rs| - 1;
      if !(rs[n].mask == c && Contains(rs[n], ip)) {
        LastDirectSome(rs[..n], c, ip);
        if LastDirect(rs, c, ip).Some? {
          var j :| 0 <= j < n && rs[..n][j].mask == c && Contains(rs[..n][j], ip) && rs[..n][j].payload == LastDirect(rs, c, ip).value;
          assert rs[j] == rs[..n][j];
        }
      }
    }
  }

  /** The reference answer exists exactly when some range contains `ip`, and
      it is the payload of a range containing `ip`. */
  lemma ReferenceSome<P>(rs: seq<Range<P>>, c: nat, ip: nat)
    ensures Reference(rs, c, ip).Some? <==> exists j :: 0 <= j < |rs| && Contains(rs[j], ip)
    ensures Reference(rs, c, ip).Some? ==>
              exists j :: 0 <= j < |rs| && Contains(rs[j], ip) && rs[j].payload == Reference(rs, c, ip).value
  {
    LastDirectSome(rs, c, ip);
    FirstInSome(rs, ip);
  }

  /** Inserting a candidate range (kabysdoh.py:62-63, 77-78) keeps the trie's
      answer equal to the reference answer. */
  lemma CandidateStep<P>(rs: seq<Range<P>>, i: nat, c: nat, t: map<nat, Bucket<P>>, t': map<nat, Bucket<P>>, ip: nat)
    requires i < |rs| && rs[i].mask != c && Covers(rs[i].mask, c)
    requires Lookup(Trie(c, t), ip) == Reference(rs[..i], c, ip)
    requires var key := And(rs[i].addr, c);
             !HasDirect(rs[..i], c, key) &&
             ((key !in t && t' == t[key := Candidates([rs[i]])]) ||
              (key in t && t[key].Candidates? && t' == t[key := Candidates(t[key].ranges + [rs[i]])]))
    ensures Lookup(Trie(c, t'), ip) == Reference(rs[..i + 1], c, ip)
  {
    var r := rs[i];
    var key := And(r.addr, c);
    var front := rs[..i];
    assert rs[..i + 1] == front + [r];
    assert rs[..i + 1][..i] == front;
    FirstInAppend(front, r, ip);
    assert LastDirect(rs[..i + 1], c, ip) == LastDirect(front, c, ip);
    if Contains(r, ip) {
      MaskThenCommon(ip, r.mask, c);
    }
    if And(ip, c) == key {
      LastDirectSome(front, c, ip);
      assert Reference(front, c, ip) == FirstIn(front, ip);
      assert Reference(rs[..i + 1], c, ip) == FirstIn(front + [r], ip);
      if key in t {
        var cs := t[key].ranges;
        FirstInAppend(cs, r, ip);
        assert Lookup(Trie(c, t), ip) == FirstIn(cs, ip);
        assert t'[key] == Candidates(cs + [r]);
        assert Lookup(Trie(c, t'), ip) == FirstIn(cs + [r], ip);
      } else {
        assert Lookup(Trie(c, t), ip) == None;
        assert t'[key] == Candidates([r]);
        FirstInAppend([], r, ip);
        assert [] + [r] == [r];
      }
    }
  }

  /** Inserting a direct range (kabysdoh.py:65, 80) keeps the trie's answer
      equal to the reference answer. */
  lemma DirectStep<P>(rs: seq<Range<P>>, i: nat, c: nat, t: map<nat, Bucket<P>>, ip: nat)
    requires i < |rs| && rs[i].mask == c
    requires Lookup(Trie(c, t), ip) == Reference(rs[..i], c, ip)
    ensures Lookup(Trie(c, t[rs[i].addr := Direct(rs[i].payload)]), ip) == Reference(rs[..i + 1], c, ip)
  {
    var r := rs[i];
    var front := rs[..i];
    assert rs[..i + 1] == front + [r];
    assert rs[..i + 1][..i] == front;
    FirstInAppend(front, r, ip);
  }

  /** A direct range, or a candidate with no direct entry under its key,
      creates no collision. */
  lemma NoCollisionStep<P>(rs: seq<Range<P>>, i: nat, c: nat)
    requires i < |rs| && !Collides(rs[..i], c)
    requires rs[i].mask != c ==> !HasDirect(rs[..i], c, And(rs[i].addr, c))
    ensures !Collides(rs[..i + 1], c)
  {
    var s := rs[..i + 1];
    forall j, k | 0 <= j < k < i + 1 && s[j].mask == c && s[k].mask != c
      ensures s[j].addr != And(s[k].addr, c)
    {
      assert rs[..i][j] == s[j];
      if k < i {
        assert rs[..i][k] == s[k];
      }
    }
  }

  /** The trie answers the blocklist question exactly when it answers the
      CDN question: "some candidate" and "the first candidate" agree on
      whether there is one. */
  lemma BlockHitIsLookup<P>(t: Trie<P>, ip: nat)
    ensures BlockHit(t, ip) <==> Lookup(t, ip).Some?
  {
    var key := And(ip, t.mask);
    if key in t.buckets && t.buckets[key].Candidates? {
      FirstInSome(t.buckets[key].ranges, ip);
    }
  }

  /** A candidate range leaves the direct keys as they were. */
  lemma CandidateKeys<P>(rs: seq<Range<P>>, i: nat, c: nat, t: map<nat, Bucket<P>>, t': map<nat, Bucket<P>>)
    requires i < |rs| && rs[i].mask != c
    requires forall key :: (key in t && t[key].Direct?) <==> HasDirect(rs[..i], c, key)
    requires var key := And(rs[i].addr, c);
             !(key in t && t[key].Direct?) &&
             t' == (if key in t then t[key := Candidates(t[key].ranges + [rs[i]])] else t[key := Candidates([rs[i]])])
    ensures forall key' :: (key' in t' && t'[key'].Direct?) <==> HasDirect(rs[..i + 1], c, key')
  {
    forall key' ensures (key' in t' && t'[key'].Direct?) <==> HasDirect(rs[..i + 1], c, key') {
      if HasDirect(rs[..i + 1], c, key') {
        var j :| 0 <= j < i + 1 && rs[..i + 1][j].mask == c && rs[..i + 1][j].addr == key';
        assert rs[..i][j] == rs[..i + 1][j];
      }
    }
  }

  /** A direct range adds its own address to the direct keys. */
  lemma DirectKeys<P>(rs: seq<Range<P>>, i: nat, c: nat, t: map<nat, Bucket<P>>)
    requires i < |rs| && rs[i].mask == c
    requires forall key :: (key in t && t[key].Direct?) <==> HasDirect(rs[..i], c, key)
    ensures var t' := t[rs[i].addr := Direct(rs[i].payload)];
            forall key' :: (key' in t' && t'[key'].Direct?) <==> HasDirect(rs[..i + 1], c, key')
  {
    var t' := t[rs[i].addr := Direct(rs[i].payload)];
    forall key' ensures (key' in t' && t'[key'].Direct?) <==> HasDirect(rs[..i + 1], c, key') {
      if HasDirect(rs[..i + 1], c, key') && key' != rs[i].addr {
        var j :| 0 <= j < i + 1 && rs[..i + 1][j].mask == c && rs[..i + 1][j].addr == key';
        assert rs[..i][j] == rs[..i + 1][j];
      }
      if key' == rs[i].addr {
        assert rs[..i + 1][i] == rs[i];
      }
    }
  }

  /** Builds the trie of one range list, as the two loops of kabysdoh.py:56-67
      (blocklist, direct marker `None`) and kabysdoh.py:69-82 (CDN list,
      direct marker the cdn id) do. */
  method Build<P>(nbits: nat, rs: seq<Range<P>>) returns (r: Result<Trie<P>, BuildError>)
    ensures r.Ok? <==> !Collides(rs, CommonMask(nbits, rs))
    ensures r.Ok? ==> r.value.mask == CommonMask(nbits, rs)
    ensures rs == [] ==> r == Ok(Trie(Ones(nbits), map[]))
    ensures r.Ok? ==> forall ip: nat :: Lookup(r.value, ip) == Reference(rs, r.value.mask, ip)
    ensures r.Ok? ==> forall ip: nat ::
              BlockHit(r.value, ip) <==> exists j :: 0 <= j < |rs| && Contains(rs[j], ip)
  {
    var c := Ones(nbits);
    var i := 0;
    while i < |rs|
      invariant 0 <= i <= |rs|
      invariant c == CommonMask(nbits, rs[..i])
    {
      assert rs[..i + 1][..i] == rs[..i];
      c := And(c, rs[i].mask);
      i := i + 1;
    }
    assert rs[..i] == rs;
    var t: map<nat, Bucket<P>> := map[];
    i := 0;
    while i < |rs|
      invariant 0 <= i <= |rs|
      invariant rs == [] ==> t == map[]
      invariant !Collides(rs[..i], c)
      invariant forall key :: (key in t && t[key].Direct?) <==> HasDirect(rs[..i], c, key)
      invariant forall ip: nat :: Lookup(Trie(c, t), ip) == Reference(rs[..i], c, ip)
    {
      var rg := rs[i];
      assert rs[..i + 1][..i] == rs[..i];
      CommonMaskCovered(nbits, rs, i);
      if rg.mask != c {
        var key := And(rg.addr, c);
        if key in t && t[key].Direct? {
          var j :| 0 <= j < i && rs[..i][j].mask == c && rs[..i][j].addr == key;
          assert rs[j] == rs[..i][j];
          return Err(AppendToDirect(key));
        }
        var t' := if key in t then t[key := Candidates(t[key].ranges + [rg])] else t[key := Candidates([rg])];
        forall ip: nat ensures Lookup(Trie(c, t'), ip) == Reference(rs[..i + 1], c, ip) {
          CandidateStep(rs, i, c, t, t', ip);
        }
        CandidateKeys(rs, i, c, t, t');
        t := t';
      } else {
        var t' := t[rg.addr := Direct(rg.payload)];
        forall ip: nat ensures Lookup(Trie(c, t'), ip) == Reference(rs[..i + 1], c, ip) {
          DirectStep(rs, i, c, t, ip);
        }
        DirectKeys(rs, i, c, t);
        t := t';
      }
      NoCollisionStep(rs, i, c);
      i := i + 1;
    }
    assert rs[..i] == rs;
    forall ip: nat ensures BlockHit(Trie(c, t), ip) <==> exists j :: 0 <= j < |rs| && Contains(rs[j], ip) {
      BlockHitIsLookup(Trie(c, t), ip);
      ReferenceSome(rs, c, ip);
    }
    return Ok(Trie(c, t));
  }
}
