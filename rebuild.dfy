/** `set_crafted_return_msg` (kabysdoh.py:173-240): the answer is rebuilt
    as a new message in which every unwanted address RR is replaced by a
    stashed RR of the same CDN, or dropped when the stash runs out; the new
    reply then gets back the trust and security tags of the old RR-sets. */
module Rebuild {
  import opened Base
  import opened Text
  import opened Msg
  import opened Classifier
  import opened Stash

  // Header flag bits of Unbound's `reply_info.flags`.
  const QF_BIT_QR: bv16 := 0x8000
  const QF_BIT_AA: bv16 := 0x0400
  const QF_BIT_TC: bv16 := 0x0200
  const QF_BIT_RD: bv16 := 0x0100
  const QF_BIT_RA: bv16 := 0x0080
  const QF_BIT_AD: bv16 := 0x0020
  const QF_BIT_CD: bv16 := 0x0010

  // Flag bits of the `DNSMessage` of Unbound's Python module.
  const PKT_QR: bv8 := 1
  const PKT_AA: bv8 := 2
  const PKT_TC: bv8 := 4
  const PKT_RD: bv8 := 8
  const PKT_CD: bv8 := 16
  const PKT_RA: bv8 := 32
  const PKT_AD: bv8 := 64

  /** The header bits the new message carries over. */
  const CARRIED: bv16 := QF_BIT_QR | QF_BIT_AA | QF_BIT_TC | QF_BIT_RD | QF_BIT_RA | QF_BIT_AD | QF_BIT_CD

  /** The flags argument of `DNSMessage(...)` (kabysdoh.py:178-185). */
  function PacketFlags(flags: bv16): bv8 {
    (if flags & QF_BIT_QR != 0 then PKT_QR else 0) |
    (if flags & QF_BIT_AA != 0 then PKT_AA else 0) |
    (if flags & QF_BIT_TC != 0 then PKT_TC else 0) |
    (if flags & QF_BIT_RD != 0 then PKT_RD else 0) |
    (if flags & QF_BIT_CD != 0 then PKT_CD else 0) |
    (if flags & QF_BIT_RA != 0 then PKT_RA else 0) |
    (if flags & QF_BIT_AD != 0 then PKT_AD else 0)
  }

  /** The header flags a message with packet flags `pkt` gets when the
      host installs it: each packet bit sets its header bit. */
  function HeaderFlags(pkt: bv8): bv16 {
    (if pkt & PKT_QR != 0 then QF_BIT_QR else 0) |
    (if pkt & PKT_AA != 0 then QF_BIT_AA else 0) |
    (if pkt & PKT_TC != 0 then QF_BIT_TC else 0) |
    (if pkt & PKT_RD != 0 then QF_BIT_RD else 0) |
    (if pkt & PKT_CD != 0 then QF_BIT_CD else 0) |
    (if pkt & PKT_RA != 0 then QF_BIT_RA else 0) |
    (if pkt & PKT_AD != 0 then QF_BIT_AD else 0)
  }

  /** The flag mapping keeps exactly the seven carried header bits: going
      back gives the old flags with every other bit cleared, and a packet
      flag byte without its top bit comes back unchanged. */
  lemma PacketFlagsRoundTrip(flags: bv16, pkt: bv8)
    ensures HeaderFlags(PacketFlags(flags)) == flags & CARRIED
    ensures PacketFlags(flags) & 0x80 == 0
    ensures PacketFlags(HeaderFlags(pkt)) == pkt & 0x7F
  {
  }

  /** The RR-set key of `fitness`: `(rk.dname, rk.type, rk.rrset_class)`. */
  datatype Key = Key(dname: seq<byte>, rtype: nat, rclass: nat)

  /** `(data.trust, data.security)`. */
  datatype Tags = Tags(trust: nat, security: nat)

  function KeyOf(s: RRSet): Key {
    Key(s.dname, s.rtype, s.rclass)
  }

  function TagsOf(s: RRSet): Tags {
    Tags(s.trust, s.security)
  }

  /** `fitness`: the tags of each RR-set of the answer by key, a later
      RR-set overwriting an earlier one with the same key. */
  function Fitness(rrsets: seq<RRSet>): map<Key, Tags> {
    if rrsets == [] then map[]
    else
      var last := rrsets[|rrsets| - 1];
      Fitness(rrsets[..|rrsets| - 1])[KeyOf(last) := TagsOf(last)]
  }

  /** `fitness` has a key for every RR-set and no other. */
  lemma {:induction false} FitnessKeys(rrsets: seq<RRSet>)
    ensures forall key :: key in Fitness(rrsets) <==> exists k :: 0 <= k < |rrsets| && KeyOf(rrsets[k]) == key
  {
    if rrsets != [] {
      var n := |rrsets| - 1;
      var front := rrsets[..n];
      FitnessKeys(front);
      forall key | key in Fitness(rrsets)
        ensures exists k :: 0 <= k < |rrsets| && KeyOf(rrsets[k]) == key
      {
        if key != KeyOf(rrsets[n]) {
          assert key in Fitness(front);
          var k :| 0 <= k < n && KeyOf(front[k]) == key;
          assert KeyOf(rrsets[k]) == key;
        }
      }
      forall key | exists k :: 0 <= k < |rrsets| && KeyOf(rrsets[k]) == key
        ensures key in Fitness(rrsets)
      {
        var k :| 0 <= k < |rrsets| && KeyOf(rrsets[k]) == key;
        if k < n {
          assert KeyOf(front[k]) == key;
        }
      }
    }
  }

  /** `fitness` holds, for each key, the tags of the last RR-set with it. */
  lemma {:induction false} FitnessLastWins(rrsets: seq<RRSet>, k: nat)
    requires k < |rrsets|
    requires forall j :: k < j < |rrsets| ==> KeyOf(rrsets[j]) != KeyOf(rrsets[k])
    ensures KeyOf(rrsets[k]) in Fitness(rrsets) && Fitness(rrsets)[KeyOf(rrsets[k])] == TagsOf(rrsets[k])
  {
    var n := |rrsets| - 1;
    if k < n {
      var front := rrsets[..n];
      assert front[k] == rrsets[k];
      assert forall j :: k < j < |front| ==> front[j] == rrsets[j];
      FitnessLastWins(front, k);
    }
  }

  /** Every RR of the answer in order, with the fields of its set. */
  function AllItems(rrsets: seq<RRSet>): seq<Item> {
    if rrsets == [] then []
    else AllItems(rrsets[..|rrsets| - 1]) + SetItems(rrsets[|rrsets| - 1])
  }

  /** `is_ip`: the RR belongs to an A or AAAA RR-set of class IN. */
  predicate IsAddressItem(it: Item) {
    (it.rtype == TYPE_A || it.rtype == TYPE_AAAA) && it.rclass == CLASS_IN
  }

  /** `is_ip and blob in unwanted`. */
  predicate Dropped(unwanted: set<seq<byte>>, it: Item) {
    IsAddressItem(it) && it.rr.blob in unwanted
  }

  /** The RFC 3597 line of an RR that is kept (kabysdoh.py:195-200). */
  function PlainLine(it: Item): string {
    it.dnameText + " " + Decimal(it.rr.ttl) + " " +
    GenericRData(it.rclass, it.rtype, it.rr.len as int - 2, Rdata(it.rr.blob))
  }

  /** `min(ttl, exp - now)`: a stand-in lives no longer than the RR it
      replaces, nor past its own expiry. */
  function StashTtl(it: Item, e: Entry, now: int): int {
    if it.rr.ttl as int <= e.exp - now then it.rr.ttl else e.exp - now
  }

  /** The line of a stashed RR standing in for a dropped one
      (kabysdoh.py:201-204). */
  function StashLine(it: Item, e: Entry, now: int): string {
    it.dnameText + " " + IntText(StashTtl(it, e, now)) + " " + e.text
  }

  /** The answer lines written so far and what is left of the stash. */
  datatype Answer = Answer(lines: seq<string>, stash: seq<Entry>)

  /** One RR: kept as is, replaced by the last stashed RR, or dropped
      when the stash is empty. */
  function Write(now: int, unwanted: set<seq<byte>>, acc: Answer, it: Item): Answer {
    if !Dropped(unwanted, it) then Answer(acc.lines + [PlainLine(it)], acc.stash)
    else if acc.stash != [] then
      var n := |acc.stash| - 1;
      Answer(acc.lines + [StashLine(it, acc.stash[n], now)], acc.stash[..n])
    else acc
  }

  function Emit(now: int, unwanted: set<seq<byte>>, stash: seq<Entry>, items: seq<Item>): Answer {
    if items == [] then Answer([], stash)
    else Write(now, unwanted, Emit(now, unwanted, stash, items[..|items| - 1]), items[|items| - 1])
  }

  /** How many of the RRs are dropped from the answer. */
  function Drops(unwanted: set<seq<byte>>, items: seq<Item>): nat {
    if items == [] then 0
    else Drops(unwanted, items[..|items| - 1]) + (if Dropped(unwanted, items[|items| - 1]) then 1 else 0)
  }

  function Min(a: nat, b: nat): nat {
    if a <= b then a else b
  }

  /** Each dropped RR consumes one stashed RR from the end of the stash
      while any is left; every other RR gives one line. */
  lemma {:induction false} EmitCounts(now: int, unwanted: set<seq<byte>>, stash: seq<Entry>, items: seq<Item>)
    ensures Emit(now, unwanted, stash, items).stash == stash[..|stash| - Min(Drops(unwanted, items), |stash|)]
    ensures |Emit(now, unwanted, stash, items).lines| ==
              |items| - Drops(unwanted, items) + Min(Drops(unwanted, items), |stash|)
  {
    if items != [] {
      var n := |items| - 1;
      EmitCounts(now, unwanted, stash, items[..n]);
      var acc := Emit(now, unwanted, stash, items[..n]);
      if Dropped(unwanted, items[n]) && acc.stash != [] {
        var m := |stash| - Min(Drops(unwanted, items[..n]), |stash|);
        assert stash[..m][..m - 1] == stash[..m - 1];
      }
    }
  }

  /** One RR keeps the lines before it and adds its own unless dropped. */
  lemma WriteGrows(now: int, unwanted: set<seq<byte>>, acc: Answer, it: Item)
    ensures forall l :: l in acc.lines ==> l in Write(now, unwanted, acc, it).lines
    ensures !Dropped(unwanted, it) ==> PlainLine(it) in Write(now, unwanted, acc, it).lines
  {
  }

  /** One RR extends the lines before it, by its own line when kept. */
  lemma WriteExtends(now: int, unwanted: set<seq<byte>>, acc: Answer, it: Item)
    ensures |acc.lines| <= |Write(now, unwanted, acc, it).lines|
    ensures forall k :: 0 <= k < |acc.lines| ==> Write(now, unwanted, acc, it).lines[k] == acc.lines[k]
    ensures !Dropped(unwanted, it) ==> Write(now, unwanted, acc, it).lines == acc.lines + [PlainLine(it)]
  {
  }

  /** Every RR that is not dropped appears in the answer in RFC 3597 form. */
  lemma {:induction false} EmitKeeps(now: int, unwanted: set<seq<byte>>, stash: seq<Entry>, items: seq<Item>)
    ensures forall i :: 0 <= i < |items| && !Dropped(unwanted, items[i]) ==>
              PlainLine(items[i]) in Emit(now, unwanted, stash, items).lines
  {
    if items != [] {
      var n := |items| - 1;
      var front := items[..n];
      EmitKeeps(now, unwanted, stash, front);
      var acc := Emit(now, unwanted, stash, front);
      var all := Emit(now, unwanted, stash, items);
      assert all == Write(now, unwanted, acc, items[n]);
      WriteGrows(now, unwanted, acc, items[n]);
      forall i | 0 <= i < n && !Dropped(unwanted, items[i])
        ensures PlainLine(items[i]) in all.lines
      {
        assert front[i] == items[i];
        assert PlainLine(front[i]) in acc.lines;
      }
    }
  }

  /** The lines of the RRs that are kept as is, in answer order. */
  function KeptLines(unwanted: set<seq<byte>>, items: seq<Item>): seq<string> {
    if items == [] then []
    else
      var n := |items| - 1;
      KeptLines(unwanted, items[..n]) + (if Dropped(unwanted, items[n]) then [] else [PlainLine(items[n])])
  }

  /** `idx` places each line of `xs` in `ys`, at increasing positions. */
  predicate Embeds(idx: seq<nat>, xs: seq<string>, ys: seq<string>) {
    && |idx| == |xs|
    && (forall k :: 0 <= k < |idx| ==> idx[k] < |ys| && ys[idx[k]] == xs[k])
    && (forall k, k' :: 0 <= k < k' < |idx| ==> idx[k] < idx[k'])
  }

  /** The kept RRs appear in the answer in their own order: their lines
      form a subsequence of the answer. */
  /** An embedding survives lines appended after it. */
  lemma EmbedsGrow(idx: seq<nat>, xs: seq<string>, ys: seq<string>, zs: seq<string>)
    requires Embeds(idx, xs, ys)
    requires |ys| <= |zs| && forall k :: 0 <= k < |ys| ==> zs[k] == ys[k]
    ensures Embeds(idx, xs, zs)
  {
  }

  /** A line appended on both sides extends an embedding by one position. */
  lemma EmbedsAppend(idx: seq<nat>, xs: seq<string>, ys: seq<string>, x: string)
    requires Embeds(idx, xs, ys)
    ensures Embeds(idx + [|ys|], xs + [x], ys + [x])
  {
  }

  lemma {:induction false} EmitKeepsOrder(now: int, unwanted: set<seq<byte>>, stash: seq<Entry>, items: seq<Item>)
    ensures exists idx: seq<nat> :: Embeds(idx, KeptLines(unwanted, items), Emit(now, unwanted, stash, items).lines)
  {
    if items == [] {
      var none: seq<nat> := [];
      assert Embeds(none, KeptLines(unwanted, items), Emit(now, unwanted, stash, items).lines);
    } else {
      var n := |items| - 1;
      EmitKeepsOrder(now, unwanted, stash, items[..n]);
      var acc := Emit(now, unwanted, stash, items[..n]);
      var kept := KeptLines(unwanted, items[..n]);
      var idx: seq<nat> :| Embeds(idx, kept, acc.lines);
      var all := Emit(now, unwanted, stash, items);
      assert all == Write(now, unwanted, acc, items[n]);
      WriteExtends(now, unwanted, acc, items[n]);
      if Dropped(unwanted, items[n]) {
        assert KeptLines(unwanted, items) == kept;
        EmbedsGrow(idx, kept, acc.lines, all.lines);
      } else {
        assert KeptLines(unwanted, items) == kept + [PlainLine(items[n])];
        EmbedsAppend(idx, kept, acc.lines, PlainLine(items[n]));
      }
    }
  }

  /** A line of the answer that is not an RR kept as is names a dropped
      RR and a stashed RR. */
  predicate FromStash(now: int, unwanted: set<seq<byte>>, stash: seq<Entry>, items: seq<Item>, l: string) {
    exists i, j :: 0 <= i < |items| && Dropped(unwanted, items[i]) && 0 <= j < |stash| &&
                   l == StashLine(items[i], stash[j], now)
  }

  predicate FromKept(unwanted: set<seq<byte>>, items: seq<Item>, l: string) {
    exists i :: 0 <= i < |items| && !Dropped(unwanted, items[i]) && l == PlainLine(items[i])
  }

  /** The origin of a line stays an origin when more RRs follow. */
  lemma OriginsGrow(now: int, unwanted: set<seq<byte>>, stash: seq<Entry>, items: seq<Item>, l: string)
    requires items != []
    ensures FromKept(unwanted, items[..|items| - 1], l) ==> FromKept(unwanted, items, l)
    ensures FromStash(now, unwanted, stash, items[..|items| - 1], l) ==> FromStash(now, unwanted, stash, items, l)
  {
    var front := items[..|items| - 1];
    if FromKept(unwanted, front, l) {
      var i :| 0 <= i < |front| && !Dropped(unwanted, front[i]) && l == PlainLine(front[i]);
      assert items[i] == front[i];
    }
    if FromStash(now, unwanted, stash, front, l) {
      var i, j :| 0 <= i < |front| && Dropped(unwanted, front[i]) && 0 <= j < |stash| &&
                  l == StashLine(front[i], stash[j], now);
      assert items[i] == front[i];
    }
  }

  /** Every line of the answer is a kept RR in RFC 3597 form or a stashed
      RR standing in for a dropped one: no dropped RR is written. */
  lemma {:induction false} EmitOrigins(now: int, unwanted: set<seq<byte>>, stash: seq<Entry>, items: seq<Item>)
    ensures forall l :: l in Emit(now, unwanted, stash, items).lines ==>
              FromKept(unwanted, items, l) || FromStash(now, unwanted, stash, items, l)
  {
    if items != [] {
      var n := |items| - 1;
      var front := items[..n];
      EmitOrigins(now, unwanted, stash, front);
      EmitCounts(now, unwanted, stash, front);
      var acc := Emit(now, unwanted, stash, front);
      forall l | l in Emit(now, unwanted, stash, items).lines
        ensures FromKept(unwanted, items, l) || FromStash(now, unwanted, stash, items, l)
      {
        if l in acc.lines {
          OriginsGrow(now, unwanted, stash, items, l);
        } else if !Dropped(unwanted, items[n]) {
          assert l == PlainLine(items[n]);
        } else {
          var m := |acc.stash| - 1;
          assert l == StashLine(items[n], acc.stash[m], now);
          assert acc.stash[m] == stash[m];
        }
      }
    }
  }

  /** Every RR in RFC 3597 form, in order. */
  function PlainLines(items: seq<Item>): (r: seq<string>)
    ensures |r| == |items|
    ensures forall i :: 0 <= i < |items| ==> r[i] == PlainLine(items[i])
  {
    if items == [] then []
    else PlainLines(items[..|items| - 1]) + [PlainLine(items[|items| - 1])]
  }

  /** With nothing unwanted the answer is every RR in RFC 3597 form, in
      order, and the stash is untouched. */
  lemma {:induction false} EmitNothingUnwanted(now: int, stash: seq<Entry>, items: seq<Item>)
    ensures Emit(now, {}, stash, items).stash == stash
    ensures Emit(now, {}, stash, items).lines == PlainLines(items)
  {
    if items != [] {
      var n := |items| - 1;
      EmitNothingUnwanted(now, stash, items[..n]);
      assert !Dropped({}, items[n]);
    }
  }

  lemma AllItemsSnoc(rrsets: seq<RRSet>, k: nat)
    requires k < |rrsets|
    ensures AllItems(rrsets[..k + 1]) == AllItems(rrsets[..k]) + SetItems(rrsets[k])
    ensures Fitness(rrsets[..k + 1]) == Fitness(rrsets[..k])[KeyOf(rrsets[k]) := TagsOf(rrsets[k])]
  {
    assert rrsets[..k + 1][..k] == rrsets[..k];
  }

  lemma EmitSnoc(now: int, unwanted: set<seq<byte>>, stash: seq<Entry>, xs: seq<Item>, x: Item)
    ensures Emit(now, unwanted, stash, xs + [x]) == Write(now, unwanted, Emit(now, unwanted, stash, xs), x)
  {
    assert (xs + [x])[..|xs|] == xs;
  }

  /** One pass of the inner loop of kabysdoh.py:191-204: the RR `rr` of
      the RR-set `s` is written as is, or replaced by the last stashed RR,
      or dropped. */
  method CraftRR(now: int, unwanted: set<seq<byte>>, s: RRSet, isIp: bool, rr: RData,
                 lines0: seq<string>, rest0: seq<Entry>)
    returns (lines: seq<string>, rest: seq<Entry>)
    requires isIp == IsAddressSet(s)
    ensures Answer(lines, rest) ==
            Write(now, unwanted, Answer(lines0, rest0), Item(s.dnameText, s.rtype, s.rclass, rr))
  {
    lines, rest := lines0, rest0;
    ghost var it := Item(s.dnameText, s.rtype, s.rclass, rr);
    assert Dropped(unwanted, it) <==> isIp && rr.blob in unwanted;
    if !isIp || rr.blob !in unwanted {
      var line := s.dnameText + " " + Decimal(rr.ttl) + " " +
                  GenericRData(s.rclass, s.rtype, rr.len as int - 2, Rdata(rr.blob));
      assert line == PlainLine(it);
      lines := lines + [line];
    } else if rest != [] {
      var e := rest[|rest| - 1];
      rest := rest[..|rest| - 1];
      var ttl := if rr.ttl as int <= e.exp - now then rr.ttl as int else e.exp - now;
      var line := s.dnameText + " " + IntText(ttl) + " " + e.text;
      assert line == StashLine(it, e, now);
      lines := lines + [line];
    }
  }

  /** The inner loop of kabysdoh.py:190-206 over the RRs of one RR-set:
      it carries on the answer written so far for the RRs `done`. */
  method CraftSet(now: int, unwanted: set<seq<byte>>, stash: seq<Entry>, ghost done: seq<Item>,
                  s: RRSet, lines0: seq<string>, rest0: seq<Entry>)
    returns (lines: seq<string>, rest: seq<Entry>)
    requires Answer(lines0, rest0) == Emit(now, unwanted, stash, done)
    ensures Answer(lines, rest) == Emit(now, unwanted, stash, done + SetItems(s))
  {
    lines, rest := lines0, rest0;
    var isIp := IsAddressSet(s);
    ghost var ss := SetItems(s);
    ghost var cur := done;
    var i := 0;
    assert done + ss[..0] == done;
    while i < |s.rrs|
      invariant 0 <= i <= |s.rrs|
      invariant cur == done + ss[..i]
      invariant Answer(lines, rest) == Emit(now, unwanted, stash, cur)
    {
      ghost var it := Item(s.dnameText, s.rtype, s.rclass, s.rrs[i]);
      EmitSnoc(now, unwanted, stash, cur, it);
      lines, rest := CraftRR(now, unwanted, s, isIp, s.rrs[i], lines, rest);
      SliceSnoc(done, ss, i);
      cur := cur + [it];
      i := i + 1;
    }
    assert ss[..i] == ss;
  }

  /** The loops of kabysdoh.py:188-206: the answer lines and what is left
      of the stash are `Emit` of every answer RR, and `fitness` maps each
      RR-set key to the tags of its last RR-set. */
  method CraftAnswer(now: int, unwanted: set<seq<byte>>, stash: seq<Entry>, rrsets: seq<RRSet>)
    returns (lines: seq<string>, rest: seq<Entry>, fitness: map<Key, Tags>)
    ensures Answer(lines, rest) == Emit(now, unwanted, stash, AllItems(rrsets))
    ensures fitness == Fitness(rrsets)
  {
    lines, rest, fitness := [], stash, map[];
    var k := 0;
    while k < |rrsets|
      invariant 0 <= k <= |rrsets|
      invariant Answer(lines, rest) == Emit(now, unwanted, stash, AllItems(rrsets[..k]))
      invariant fitness == Fitness(rrsets[..k])
    {
      var s := rrsets[k];
      fitness := fitness[KeyOf(s) := TagsOf(s)];
      AllItemsSnoc(rrsets, k);
      lines, rest := CraftSet(now, unwanted, stash, AllItems(rrsets[..k]), s, lines, rest);
      k := k + 1;
    }
    assert rrsets[..k] == rrsets;
  }

  /** The `reply_info` the host builds from the crafted message; the
      module writes its security status and the tags of its RR-sets in
      place (kabysdoh.py:226-231). */
  class ReplyInfo {
    var security: nat
    var rrsets: seq<RRSet>

    constructor(security: nat, rrsets: seq<RRSet>)
      ensures this.security == security && this.rrsets == rrsets
    {
      this.security := security;
      this.rrsets := rrsets;
    }
  }

  function Retag(s: RRSet, t: Tags): RRSet {
    s.(trust := t.trust, security := t.security)
  }

  /** The RR-sets with the first `m` given their tags from `fitness`. */
  function Retagged(rrsets: seq<RRSet>, fitness: map<Key, Tags>, m: nat): (r: seq<RRSet>)
    requires m <= |rrsets|
    requires forall k :: 0 <= k < m ==> KeyOf(rrsets[k]) in fitness
  {
    seq(|rrsets|, k requires 0 <= k < |rrsets| =>
      if k < m then Retag(rrsets[k], fitness[KeyOf(rrsets[k])]) else rrsets[k])
  }

  /** Every RR-set's key has tags in `fitness`. */
  predicate AllKeyed(rrsets: seq<RRSet>, fitness: map<Key, Tags>) {
    forall k :: 0 <= k < |rrsets| ==> KeyOf(rrsets[k]) in fitness
  }

  /** The tag loop stopped with KeyError at RR-set `m`, the first whose
      key has no tags, after retagging the RR-sets before it. */
  predicate StoppedRetag(rrsets: seq<RRSet>, fitness: map<Key, Tags>, m: int, after: seq<RRSet>) {
    && 0 <= m < |rrsets| && KeyOf(rrsets[m]) !in fitness
    && (forall k :: 0 <= k < m ==> KeyOf(rrsets[k]) in fitness)
    && after == Retagged(rrsets, fitness, m)
  }

  /** The loop of kabysdoh.py:227-231: every RR-set of the new reply gets
      the tags its key had in the old answer; a key the old answer lacks
      raises KeyError, after the RR-sets before it were updated. */
  method RestoreTags(rep: ReplyInfo, fitness: map<Key, Tags>) returns (r: Result<(), Exc>)
    modifies rep
    ensures rep.security == old(rep.security)
    ensures r.Ok? <==> AllKeyed(old(rep.rrsets), fitness)
    ensures r.Ok? ==> rep.rrsets == Retagged(old(rep.rrsets), fitness, |old(rep.rrsets)|)
    ensures r.Err? ==> r.error == KeyError && exists m :: StoppedRetag(old(rep.rrsets), fitness, m, rep.rrsets)
  {
    ghost var orig := rep.rrsets;
    var k := 0;
    while k < |rep.rrsets|
      invariant 0 <= k <= |rep.rrsets| == |orig|
      invariant forall j :: 0 <= j < k ==> KeyOf(orig[j]) in fitness
      invariant rep.rrsets == Retagged(orig, fitness, k)
      invariant rep.security == old(rep.security)
    {
      var s := rep.rrsets[k];
      var key := KeyOf(s);
      if key !in fitness {
        assert StoppedRetag(orig, fitness, k, rep.rrsets);
        return Err(KeyError);
      }
      rep.rrsets := rep.rrsets[k := Retag(s, fitness[key])];
      k := k + 1;
    }
    return Ok(());
  }

  /** The message `set_crafted_return_msg` builds (kabysdoh.py:176-185):
      the question, the packet flags and the answer lines. */
  datatype Crafted = Crafted(qnameText: string, qtype: nat, qclass: nat, flags: bv8, answer: seq<string>)

  /** `set_crafted_return_msg`: builds the message, hands it to the host
      (`setOk` is what `set_return_msg` answers and `newRep` the reply it
      builds), restores the security and tags of the new reply, and stores
      it (`storeOk` is what `storeQueryInCache` answers). `rest` is what is
      left of the stash. */
  method SetCraftedReturnMsg(q: Question, rep: Reply, unwanted: set<seq<byte>>, stash: seq<Entry>, now: int,
                             setOk: bool, newRep: ReplyInfo, storeOk: bool)
    returns (msg: Crafted, rest: seq<Entry>, r: Result<bool, Exc>)
    modifies newRep
    ensures msg == Crafted(q.qnameText, q.qtype, q.qclass, PacketFlags(rep.flags),
                           Emit(now, unwanted, stash, AllItems(rep.rrsets)).lines)
    ensures rest == Emit(now, unwanted, stash, AllItems(rep.rrsets)).stash
    ensures !setOk ==> r == Ok(false) && newRep.security == old(newRep.security) && newRep.rrsets == old(newRep.rrsets)
    ensures setOk ==> newRep.security == rep.security
    ensures setOk ==> (r.Ok? <==> AllKeyed(old(newRep.rrsets), Fitness(rep.rrsets)))
    ensures setOk && r.Ok? ==>
              r.value == storeOk &&
              newRep.rrsets == Retagged(old(newRep.rrsets), Fitness(rep.rrsets), |old(newRep.rrsets)|)
    ensures r.Err? ==>
              r.error == KeyError && exists m :: StoppedRetag(old(newRep.rrsets), Fitness(rep.rrsets), m, newRep.rrsets)
  {
    var lines, fitness;
    lines, rest, fitness := CraftAnswer(now, unwanted, stash, rep.rrsets);
    msg := Crafted(q.qnameText, q.qtype, q.qclass, PacketFlags(rep.flags), lines);
    if !setOk {
      return msg, rest, Ok(false);
    }
    newRep.security := rep.security;
    var restored := RestoreTags(newRep, fitness);
    if restored.Err? {
      return msg, rest, Err(restored.error);
    }
    return msg, rest, Ok(storeOk);
  }
}
