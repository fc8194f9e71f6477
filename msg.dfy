/** The parts of Unbound's `reply_info` that the module reads and writes:
    answer RR-sets with their owner name, type, class, trust and security
    tags, and for each RR its packed RDATA (two length octets, then the
    RDATA), declared length and TTL. Types and classes are held as numbers
    in host order. */
module Msg {
  import opened Base

  const TYPE_A: nat := 1      // section 3.2.2 of RFC 1035
  const TYPE_AAAA: nat := 28  // section 2.1 of RFC 3596
  const CLASS_IN: nat := 1    // section 3.2.4 of RFC 1035

  type CdnId = string

  /** One RR of a packed RR-set: `rr_data[i]`, `rr_len[i]`, `rr_ttl[i]`. */
  datatype RData = RData(blob: seq<byte>, len: nat, ttl: nat)

  /** `ub_packed_rrset_key` with its `packed_rrset_data`. */
  datatype RRSet = RRSet(dname: seq<byte>, dnameText: string, rtype: nat, rclass: nat,
                         trust: nat, security: nat, rrs: seq<RData>)

  /** The answer section of a reply with the header flags and the reply's
      own security status. */
  datatype Reply = Reply(flags: bv16, security: nat, rrsets: seq<RRSet>)

  /** `qinfo`: the question's owner name as text, type and class. */
  datatype Question = Question(qnameText: string, qtype: nat, qclass: nat)

  datatype Family = V4 | V6

  /** The Python exceptions the module can raise; the host turns any of
      them into a module error. */
  datatype Exc =
    | KeyError
    | IndexError
    | AssertionError
    | AttributeError
    | NameError(name: string)
    | RuntimeError(reason: string)

  /** `rk.type in (A, AAAA) and rk.rrset_class == IN`. */
  predicate IsAddressSet(s: RRSet) {
    (s.rtype == TYPE_A || s.rtype == TYPE_AAAA) && s.rclass == CLASS_IN
  }

  function FamilyOf(rtype: nat): Family {
    if rtype == TYPE_A then V4 else V6
  }

  /** The packed length of an address RR: 2 + 4 for A, 2 + 16 for AAAA. */
  function PackedLength(f: Family): nat {
    match f
    case V4 => 6
    case V6 => 18
  }

  /** `int.from_bytes(bs, 'big')`. */
  function BigEndian(bs: seq<byte>): nat {
    if bs == [] then 0 else 256 * BigEndian(bs[..|bs| - 1]) + bs[|bs| - 1] as nat
  }

  /** `n.to_bytes(len, 'big')` for `n` that fits. */
  function ToBigEndian(n: nat, len: nat): (bs: seq<byte>)
    ensures |bs| == len
  {
    if len == 0 then [] else ToBigEndian(n / 256, len - 1) + [(n % 256) as byte]
  }

  function Pow256(len: nat): nat {
    if len == 0 then 1 else 256 * Pow256(len - 1)
  }

  /** Decoding is the inverse of encoding, and decoded values fit the width. */
  lemma {:induction false} BigEndianRoundTrip(bs: seq<byte>)
    ensures BigEndian(bs) < Pow256(|bs|)
    ensures ToBigEndian(BigEndian(bs), |bs|) == bs
  {
    if bs != [] {
      var n := |bs| - 1;
      BigEndianRoundTrip(bs[..n]);
      var v := BigEndian(bs);
      assert v / 256 == BigEndian(bs[..n]);
      assert v % 256 == bs[n] as int;
      assert bs == bs[..n] + [bs[n]];
    }
  }
}
