/** The module's entry points (kabysdoh.py:288-425): `operate` decides
    what to do with a finished answer to an external A or AAAA query,
    `operate_on_subquery_results` serves stashed stand-ins or launches a
    sub-query for a CDN domain, and `inform_super` stashes the acceptable
    CDN RRs a sub-query brought back. */
module Orchestrator {
  import opened Base
  import opened Msg
  import opened Dataset
  import opened Classifier
  import opened Stash
  import opened Rebuild

  const RCODE_NOERROR: nat := 0

  /** The number of sub-queries after which the module gives up. */
  const MaxSubqueries: nat := 3

  /** The values the module writes to `qstate.ext_state[id]`. */
  datatype ModuleState = WaitModule | WaitSubquery | ModuleError | Finished

  /** `MODULE_EVENT_PASS`, `MODULE_EVENT_NEW`, `MODULE_EVENT_MODDONE` and
      every other event. */
  datatype Event = EventPass | EventNew | EventModDone | EventOther

  /** `qdata[SUBQUERY]`, `qdata[STASH_QTYPE]`, `qdata[UNWANTED]` and
      `qdata[RRCDN]`: the sub-queries launched so far, the address type to
      stash, the dropped blobs and the CDN of the answer. */
  datatype Pending = Pending(count: nat, qtype: nat, unwanted: set<seq<byte>>, cdn: CdnId)

  /** What the host supplies to one call: the query's origin and question,
      the current answer and its rcode, the clock readings, the random
      draws, and the results of `set_return_msg`, `storeQueryInCache` and
      `attach_sub`. */
  datatype Host = Host(
    isExternal: bool,
    question: Question,
    reply: Option<Reply>,
    rcode: nat,
    parseNow: int,
    now: int,
    craftNow: int,
    draws: seq<nat>,
    pick: nat,
    setOk: bool,
    storeOk: bool,
    launchOk: bool)

  /** A query as the module sees it: its state for this module, its
      `qdata`, the messages it handed to `set_return_msg` and the
      sub-queries it asked `attach_sub` for. */
  class Query {
    var extState: ModuleState
    var qdata: Option<Pending>
    var crafted: seq<Crafted>
    var launched: seq<(seq<byte>, nat)>

    constructor(extState: ModuleState)
      ensures this.extState == extState && qdata == None && crafted == [] && launched == []
    {
      this.extState := extState;
      qdata := None;
      crafted := [];
      launched := [];
    }
  }

  /** What a caller can observe of a query and of the reply the host
      builds from a crafted message (its security status and RR-sets). */
  datatype QueryView = QueryView(extState: ModuleState, qdata: Option<Pending>, crafted: seq<Crafted>,
                                 launched: seq<(seq<byte>, nat)>, repSecurity: nat, repSets: seq<RRSet>)

  function View(q: Query, newRep: ReplyInfo): QueryView
    reads q, newRep
  {
    QueryView(q.extState, q.qdata, q.crafted, q.launched, newRep.security, newRep.rrsets)
  }

  /** `random.shuffle`'s `k`-th draw; a missing draw counts as zero. */
  function Draw(draws: seq<nat>, k: nat): nat {
    if k < |draws| then draws[k] else 0
  }

  function Swap(s: seq<Entry>, i: nat, j: nat): (r: seq<Entry>)
    requires i < |s| && j < |s|
  {
    s[i := s[j]][j := s[i]]
  }

  /** Fisher-Yates from position `i` down to 1 as `random.shuffle` does
      it: position `i` is swapped with a position drawn below `i + 1`. */
  function Shuffled(s: seq<Entry>, draws: seq<nat>, i: nat): seq<Entry>
    requires i < |s|
    decreases i
  {
    if i == 0 then s
    else Shuffled(Swap(s, i, Draw(draws, |s| - 1 - i) % (i + 1)), draws, i - 1)
  }

  function ShuffleAll(s: seq<Entry>, draws: seq<nat>): seq<Entry> {
    if |s| <= 1 then s else Shuffled(s, draws, |s| - 1)
  }

  lemma SwapPerm(s: seq<Entry>, i: nat, j: nat)
    requires i < |s| && j < |s|
    ensures multiset(Swap(s, i, j)) == multiset(s) && |Swap(s, i, j)| == |s|
  {
  }

  /** Shuffling only reorders the stash. */
  lemma {:induction false} ShuffledPerm(s: seq<Entry>, draws: seq<nat>, i: nat)
    requires i < |s|
    ensures multiset(Shuffled(s, draws, i)) == multiset(s) && |Shuffled(s, draws, i)| == |s|
    decreases i
  {
    if i > 0 {
      var j := Draw(draws, |s| - 1 - i) % (i + 1);
      SwapPerm(s, i, j);
      ShuffledPerm(Swap(s, i, j), draws, i - 1);
    }
  }

  lemma ShuffledStep(s: seq<Entry>, draws: seq<nat>, i: nat, j: nat, t: seq<Entry>)
    requires 0 < i < |s| && j == Draw(draws, |s| - 1 - i) % (i + 1)
    requires t == s[i := s[j]][j := s[i]]
    ensures Shuffled(s, draws, i) == Shuffled(t, draws, i - 1)
  {
  }

  /** `random.shuffle(stash)` on the copy of the stash, in place. */
  method Shuffle(a: array<Entry>, draws: seq<nat>)
    modifies a
    ensures a[..] == ShuffleAll(old(a[..]), draws)
    ensures multiset(a[..]) == multiset(old(a[..]))
  {
    if a.Length <= 1 {
      return;
    }
    ghost var orig := a[..];
    ghost var goal := Shuffled(orig, draws, a.Length - 1);
    ShuffledPerm(orig, draws, a.Length - 1);
    var i := a.Length - 1;
    while i > 0
      invariant 0 <= i < a.Length
      invariant Shuffled(a[..], draws, i) == goal
      decreases i
    {
      var j := Draw(draws, a.Length - 1 - i) % (i + 1);
      var t := a[i];
      ghost var before := a[..];
      a[i] := a[j];
      assert a[..] == before[i := before[j]];
      a[j] := t;
      ShuffledStep(before, draws, i, j, a[..]);
      i := i - 1;
    }
  }

  /** `random.choice(names)`: IndexError on an empty list. */
  function Choose(names: seq<seq<byte>>, pick: nat): (r: Result<seq<byte>, Exc>)
    ensures r.Ok? <==> names != []
    ensures r.Ok? ==> r.value in names
    ensures r.Err? ==> r.error == IndexError
  {
    if names == [] then Err(IndexError) else Ok(names[pick % |names|])
  }

  /** The guard of kabysdoh.py:378-379 as written: the exception it means
      to raise names `rrcdn`, a local of `operate` that does not exist in
      this function, so evaluating it raises NameError instead. */
  function TooManyAsWritten(count: nat): Option<Exc> {
    if count >= MaxSubqueries then Some(NameError("rrcdn")) else None
  }

  /** The guard as intended: a RuntimeError once three sub-queries were
      launched for the query. */
  function TooMany(count: nat): (r: Option<Exc>)
    ensures r.Some? <==> count >= MaxSubqueries
    ensures r.Some? ==> r.value.RuntimeError?
  {
    if count >= MaxSubqueries then Some(RuntimeError("too many sub-queries")) else None
  }

  /** On the fourth attempt the guard as written raises NameError where
      the intended RuntimeError was meant. */
  lemma TooManyRaisesNameError(count: nat)
    requires count >= MaxSubqueries
    ensures TooManyAsWritten(count) == Some(NameError("rrcdn"))
    ensures TooManyAsWritten(count) != TooMany(count)
  {
  }

  /** `{6: RR_TYPE_A, 18: RR_TYPE_AAAA}[len]`. */
  function StashQtype(len: nat): (r: Result<nat, Exc>)
    ensures r.Ok? <==> len == 6 || len == 18
    ensures r.Ok? ==> PackedLength(FamilyOf(r.value)) == len
    ensures r.Err? ==> r.error == KeyError
  {
    if len == 6 then Ok(TYPE_A) else if len == 18 then Ok(TYPE_AAAA) else Err(KeyError)
  }

  /** The lengths of the dropped blobs. */
  function BlobLengths(unwanted: set<seq<byte>>): set<nat> {
    set b | b in unwanted :: |b|
  }

  /** A dropped blob is the packed RDATA of a well-formed address RR, so
      its length is 6 or 18 and the lookup of the stash type cannot fail. */
  lemma UnwantedLengths(data: Data, now: int, items: seq<Item>)
    requires Classify(data, now, items).Ok?
    ensures forall n :: n in BlobLengths(Classify(data, now, items).value.unwanted) ==> StashQtype(n).Ok?
  {
    ClassifyOkIff(data, now, items);
    ClassifyUnwanted(data, now, items);
    forall n | n in BlobLengths(Classify(data, now, items).value.unwanted)
      ensures n == 6 || n == 18
    {
      var b :| b in Classify(data, now, items).value.unwanted && |b| == n;
      var i :| 0 <= i < |items| && items[i].rr.blob == b && Blocked(data, items[i]);
      assert WellFormed(items[i]);
    }
  }

  /** The stash group of an address type: `d['cdn']` for A, `d['cdnv6']`
      otherwise. */
  function GroupOf(qtype: nat, g4: StashGroup, g6: StashGroup): StashGroup {
    if qtype == TYPE_A then g4 else g6
  }

  /** The stash group of the other address type. */
  function OtherOf(qtype: nat, g4: StashGroup, g6: StashGroup): StashGroup {
    if qtype == TYPE_A then g6 else g4
  }

  /** The crafted message for the answer `rep` with the stand-ins `stash`. */
  function CraftedFor(h: Host, rep: Reply, unwanted: set<seq<byte>>, stash: seq<Entry>): Crafted {
    Crafted(h.question.qnameText, h.question.qtype, h.question.qclass, PacketFlags(rep.flags),
            Emit(h.craftNow, unwanted, stash, AllItems(rep.rrsets)).lines)
  }

  /** What `set_crafted_return_msg` does to the reply the host built from
      the message crafted for `rep` (kabysdoh.py:224-231): nothing when
      `set_return_msg` refused it; otherwise it takes the security status
      of `rep`, and its RR-sets get back the tags their keys had in `rep`,
      up to the first key `rep` lacks, which raises KeyError. */
  predicate Restored(h: Host, rep: Reply, v0: QueryView, v1: QueryView, r: Result<bool, Exc>) {
    var fitness := Fitness(rep.rrsets);
    && (!h.setOk ==> v1.repSecurity == v0.repSecurity && v1.repSets == v0.repSets)
    && (h.setOk ==> v1.repSecurity == rep.security && (r.Ok? <==> AllKeyed(v0.repSets, fitness)))
    && (h.setOk && r.Ok? ==> v1.repSets == Retagged(v0.repSets, fitness, |v0.repSets|))
    && (h.setOk && r.Err? ==> exists m :: 0 <= m < |v0.repSets| && StoppedRetag(v0.repSets, fitness, m, v1.repSets))
  }

  /** The outcome of serving the stand-ins `stash` (kabysdoh.py:371-376),
      from the query as it was (`v0`) to the query as it is (`v1`): the
      shuffled stand-ins replace the dropped RRs, and the query finishes
      when the host took the message and the cache stored it. A missing
      answer raises AttributeError before anything is crafted. */
  predicate Served(p: Pending, stash: seq<Entry>, h: Host, v0: QueryView, v1: QueryView, r: Result<bool, Exc>) {
    && v1.qdata == v0.qdata && v1.launched == v0.launched
    && (h.reply.None? ==> r == Err(AttributeError) && v1 == v0)
    && (h.reply.Some? ==>
          v1.crafted == v0.crafted + [CraftedFor(h, h.reply.value, p.unwanted, ShuffleAll(stash, h.draws))])
    && (h.reply.Some? ==> Restored(h, h.reply.value, v0, v1, r))
    && (h.reply.Some? && !h.setOk ==> r == Ok(true) && v1.extState == ModuleError)
    && (r.Ok? ==> r.value && v1.extState == (if h.setOk && h.storeOk then Finished else ModuleError))
    && (r.Err? ==> v1.extState == v0.extState && (r.error == AttributeError || r.error == KeyError))
  }

  /** The outcome of asking for more stand-ins (kabysdoh.py:378-386): from
      the third sub-query on the module gives up; a CDN missing from
      `cdnDomains` raises KeyError and one without domains IndexError;
      otherwise one of its domains is queried for the stashed type, and
      when `attach_sub` accepts, the count goes up and the query waits. */
  predicate Requeried(p: Pending, data: Data, h: Host, v0: QueryView, v1: QueryView, r: Result<bool, Exc>) {
    && v1.crafted == v0.crafted && v1.repSecurity == v0.repSecurity && v1.repSets == v0.repSets
    && (p.count >= MaxSubqueries ==> r == Err(TooMany(p.count).value) && v1 == v0)
    && (p.count < MaxSubqueries && p.cdn !in data.domains ==> r == Err(KeyError) && v1 == v0)
    && (p.count < MaxSubqueries && p.cdn in data.domains && data.domains[p.cdn] == [] ==>
          r == Err(IndexError) && v1 == v0)
    && (p.count < MaxSubqueries && p.cdn in data.domains && data.domains[p.cdn] != [] ==>
          r == Ok(true) &&
          v1.launched == v0.launched + [(Choose(data.domains[p.cdn], h.pick).value, p.qtype)] &&
          if h.launchOk then v1.extState == WaitSubquery && v1.qdata == Some(p.(count := p.count + 1))
          else v1.extState == ModuleError && v1.qdata == v0.qdata)
  }

  /** The outcome of `operate_on_subquery_results` for the pending state
      `p`, where `before` and `after` are the lists of the group of
      `p.qtype`: an unknown CDN raises KeyError; otherwise the CDN's list
      loses its expired tail, and the unexpired stand-ins are served if
      there are any, and more are asked for if not. */
  predicate SubqueryOutcome(p: Pending, data: Data, h: Host, before: map<CdnId, seq<Entry>>,
                            after: map<CdnId, seq<Entry>>, v0: QueryView, v1: QueryView, r: Result<bool, Exc>) {
    && (p.cdn !in before ==> r == Err(KeyError) && v1 == v0 && after == before)
    && (p.cdn in before ==>
          var stash := DropExpired(before[p.cdn], h.now);
          && after == before[p.cdn := stash]
          && (stash != [] ==> Served(p, stash, h, v0, v1, r))
          && (stash == [] ==> Requeried(p, data, h, v0, v1, r)))
  }

  /** kabysdoh.py:371-376: the stand-ins are shuffled and replace the
      dropped RRs of the current answer. */
  method ServeStash(q: Query, p: Pending, stash: seq<Entry>, h: Host, newRep: ReplyInfo) returns (r: Result<bool, Exc>)
    modifies q, newRep
    ensures Served(p, stash, h, old(View(q, newRep)), View(q, newRep), r)
  {
    var a := new Entry[|stash|](i requires 0 <= i < |stash| => stash[i]);
    assert a[..] == stash;
    Shuffle(a, h.draws);
    if h.reply.None? {
      return Err(AttributeError);
    }
    var msg, rest, res := SetCraftedReturnMsg(h.question, h.reply.value, p.unwanted, a[..], h.craftNow,
                                              h.setOk, newRep, h.storeOk);
    q.crafted := q.crafted + [msg];
    if res.Err? {
      return Err(res.error);
    }
    q.extState := if res.value then Finished else ModuleError;
    return Ok(true);
  }

  /** kabysdoh.py:377-386: with no stand-ins left, one of the CDN's
      domains is queried for the stashed type, at most three times. */
  method Requery(q: Query, p: Pending, data: Data, h: Host, newRep: ReplyInfo) returns (r: Result<bool, Exc>)
    modifies q
    ensures Requeried(p, data, h, old(View(q, newRep)), View(q, newRep), r)
  {
    var tooMany := TooMany(p.count);
    if tooMany.Some? {
      return Err(tooMany.value);
    }
    if p.cdn !in data.domains {
      return Err(KeyError);
    }
    var sqname := Choose(data.domains[p.cdn], h.pick);
    if sqname.Err? {
      return Err(sqname.error);
    }
    q.launched := q.launched + [(sqname.value, p.qtype)];
    if h.launchOk {
      q.qdata := Some(p.(count := p.count + 1));
      q.extState := WaitSubquery;
    } else {
      q.extState := ModuleError;
    }
    return Ok(true);
  }

  /** kabysdoh.py:371-386: unexpired stand-ins are served, and without
      any more are asked for. */
  method ServeOrRequery(q: Query, p: Pending, stash: seq<Entry>, data: Data, h: Host, newRep: ReplyInfo)
    returns (r: Result<bool, Exc>)
    modifies q, newRep
    ensures stash != [] ==> Served(p, stash, h, old(View(q, newRep)), View(q, newRep), r)
    ensures stash == [] ==> Requeried(p, data, h, old(View(q, newRep)), View(q, newRep), r)
    ensures old(q.qdata) == Some(p) ==> q.qdata.Some? && q.qdata.value.(count := 0) == p.(count := 0)
    ensures old(q.qdata) == Some(p) ==> q.qdata.value.count <= p.count + 1
    ensures old(q.qdata) == Some(p) && p.count <= MaxSubqueries ==> q.qdata.value.count <= MaxSubqueries
  {
    if stash != [] {
      r := ServeStash(q, p, stash, h, newRep);
    } else {
      r := Requery(q, p, data, h, newRep);
    }
  }

  /** kabysdoh.py:366-386 on the stash group `grp` of the pending type. */
  method TakeAndServe(q: Query, p: Pending, data: Data, grp: StashGroup, h: Host, newRep: ReplyInfo)
    returns (r: Result<bool, Exc>)
    modifies q, grp, newRep
    ensures SubqueryOutcome(p, data, h, old(grp.lists), grp.lists, old(View(q, newRep)), View(q, newRep), r)
    ensures old(q.qdata) == Some(p) ==> q.qdata.Some? && q.qdata.value.(count := 0) == p.(count := 0)
    ensures old(q.qdata) == Some(p) ==> q.qdata.value.count <= p.count + 1
    ensures old(q.qdata) == Some(p) && p.count <= MaxSubqueries ==> q.qdata.value.count <= MaxSubqueries
  {
    var taken := grp.Take(p.cdn, h.now);
    if taken.Err? {
      return Err(KeyError);
    }
    r := ServeOrRequery(q, p, taken.value, data, h, newRep);
  }

  /** `operate_on_subquery_results` (kabysdoh.py:362-387): the unexpired
      stand-ins of the CDN are taken from its stash; when there are any
      they replace the dropped RRs, otherwise one of the CDN's domains is
      queried. Over the calls for one query at most three sub-queries are
      launched. The A and AAAA groups are two distinct objects, as
      `load_dump` builds them (kabysdoh.py:68-76). */
  method OperateOnSubqueryResults(q: Query, data: Data, g4: StashGroup, g6: StashGroup, h: Host, newRep: ReplyInfo)
    returns (r: Result<bool, Exc>)
    requires g4 != g6
    modifies q, g4, g6, newRep
    ensures old(q.qdata).None? ==>
              r == Err(KeyError) && View(q, newRep) == old(View(q, newRep)) && g4.lists == old(g4.lists) && g6.lists == old(g6.lists)
    ensures old(q.qdata).Some? ==>
              var p := old(q.qdata).value;
              OtherOf(p.qtype, g4, g6).lists == old(OtherOf(p.qtype, g4, g6).lists) &&
              SubqueryOutcome(p, data, h, old(GroupOf(p.qtype, g4, g6).lists), GroupOf(p.qtype, g4, g6).lists,
                              old(View(q, newRep)), View(q, newRep), r)
    ensures old(q.qdata).Some? ==> q.qdata.Some? && q.qdata.value.(count := 0) == old(q.qdata).value.(count := 0)
    ensures old(q.qdata).Some? ==> q.qdata.Some? && q.qdata.value.count <= old(q.qdata).value.count + 1
    ensures old(q.qdata).Some? && old(q.qdata).value.count <= MaxSubqueries ==> q.qdata.value.count <= MaxSubqueries
  {
    if q.qdata.None? {
      return Err(KeyError);
    }
    var p := q.qdata.value;
    var grp := if p.qtype == TYPE_A then g4 else g6;
    r := TakeAndServe(q, p, data, grp, h, newRep);
  }

  /** The answer is left alone: not an external A or AAAA query of class
      IN, no answer, an error rcode or an empty answer section
      (kabysdoh.py:311-328). */
  predicate Ignored(h: Host) {
    !h.isExternal || !(h.question.qtype == TYPE_A || h.question.qtype == TYPE_AAAA) ||
    h.question.qclass != CLASS_IN || h.reply.None? || h.rcode != RCODE_NOERROR || |h.reply.value.rrsets| == 0
  }

  /** What `parse_reply_info` makes of the current answer. */
  function ClassifyAnswer(data: Data, h: Host): Result<Info, ParseError>
    requires h.reply.Some?
  {
    Classify(data, h.parseNow, Items(h.reply.value.rrsets))
  }

  const MALFORMED: string := "RR with malformed rr_len"
  const MIXTURE: string := "Mixture of unwanted RR types in answer"

  /** The outcome of waiting for stand-ins (kabysdoh.py:349-356), where
      `l4`, `l6` and `l4'`, `l6'` are the lists of the two stash groups
      before and after: unwanted blobs of several lengths raise the
      mixture error, a length without a type raises KeyError, and
      otherwise the pending state records no sub-query yet, the type of
      the blobs, the blobs and the CDN, and `operate_on_subquery_results`
      runs on it, touching only the group of that type. */
  predicate AwaitOutcome(data: Data, h: Host, unwanted: set<seq<byte>>, cdns: set<CdnId>,
                         l4: map<CdnId, seq<Entry>>, l6: map<CdnId, seq<Entry>>,
                         l4': map<CdnId, seq<Entry>>, l6': map<CdnId, seq<Entry>>,
                         v0: QueryView, v1: QueryView, r: Result<bool, Exc>) {
    && (|BlobLengths(unwanted)| > 1 ==> r == Err(RuntimeError(MIXTURE)) && v1 == v0 && l4' == l4 && l6' == l6)
    && (|BlobLengths(unwanted)| == 1 && (exists n :: n in BlobLengths(unwanted) && StashQtype(n).Err?) ==>
          r == Err(KeyError) && v1 == v0 && l4' == l4 && l6' == l6)
    && (|BlobLengths(unwanted)| == 1 && (forall n :: n in BlobLengths(unwanted) ==> StashQtype(n).Ok?) ==>
          v1.qdata.Some? && v1.qdata.value.count <= 1 &&
          var p := v1.qdata.value.(count := 0);
          {p.cdn} == cdns && p.unwanted == unwanted &&
          (forall b :: b in unwanted ==> StashQtype(|b|) == Ok(p.qtype)) &&
          Awaited(p, data, h, l4, l6, l4', l6', v0, v1, r))
  }

  /** The outcome of recording the pending state `p` and running
      `operate_on_subquery_results` on it: only the group of `p.qtype`
      changes. */
  predicate Awaited(p: Pending, data: Data, h: Host, l4: map<CdnId, seq<Entry>>, l6: map<CdnId, seq<Entry>>,
                    l4': map<CdnId, seq<Entry>>, l6': map<CdnId, seq<Entry>>,
                    v0: QueryView, v1: QueryView, r: Result<bool, Exc>) {
    var v := v0.(qdata := Some(p));
    if p.qtype == TYPE_A then l6' == l6 && SubqueryOutcome(p, data, h, l4, l4', v, v1, r)
    else l4' == l4 && SubqueryOutcome(p, data, h, l6, l6', v, v1, r)
  }

  /** kabysdoh.py:352-356: the pending state is recorded and the stand-ins
      are looked for at once. */
  method Await(q: Query, p: Pending, data: Data, g4: StashGroup, g6: StashGroup, h: Host, newRep: ReplyInfo)
    returns (r: Result<bool, Exc>)
    requires p.count == 0 && g4 != g6
    modifies q, g4, g6, newRep
    ensures Awaited(p, data, h, old(g4.lists), old(g6.lists), g4.lists, g6.lists, old(View(q, newRep)), View(q, newRep), r)
    ensures q.qdata.Some? && q.qdata.value.count <= 1 && q.qdata.value.(count := 0) == p
  {
    q.qdata := Some(p);
    r := OperateOnSubqueryResults(q, data, g4, g6, h, newRep);
  }

  /** kabysdoh.py:336-353: an answer whose address RRs are all unwanted and
      all of one CDN waits for stand-ins of that CDN, of the one family the
      dropped blobs belong to; a mixture of families is an error. */
  method AwaitStandIns(q: Query, data: Data, g4: StashGroup, g6: StashGroup, h: Host, newRep: ReplyInfo,
                       unwanted: set<seq<byte>>, cdns: set<CdnId>)
    returns (r: Result<bool, Exc>)
    requires q.qdata.None? && unwanted != {} && |cdns| == 1 && g4 != g6
    modifies q, g4, g6, newRep
    ensures AwaitOutcome(data, h, unwanted, cdns, old(g4.lists), old(g6.lists), g4.lists, g6.lists,
                         old(View(q, newRep)), View(q, newRep), r)
    ensures q.qdata.Some? ==> q.qdata.value.count <= 1
  {
    var cdn :| cdn in cdns;
    assert cdns == {cdn} by {
      assert |cdns - {cdn}| == 0;
    }
    var lens := BlobLengths(unwanted);
    if |lens| > 1 {
      return Err(RuntimeError(MIXTURE));
    }
    var b :| b in unwanted;
    var len := |b|;
    assert lens == {len} by {
      assert len in lens;
      assert |lens - {len}| == 0;
    }
    var qt := StashQtype(len);
    if qt.Err? {
      return Err(qt.error);
    }
    r := Await(q, Pending(0, qt.value, unwanted, cdn), data, g4, g6, h, newRep);
  }

  /** The outcome of rebuilding the answer `rep` without the unwanted RRs
      and without stand-ins (kabysdoh.py:344-347): the message is handed
      over, and the query finishes when the host took it, its tags were
      restored and the cache stored it. */
  predicate Trimmed(h: Host, rep: Reply, unwanted: set<seq<byte>>, v0: QueryView, v1: QueryView,
                    r: Result<bool, Exc>) {
    && v1.qdata == v0.qdata && v1.launched == v0.launched
    && v1.crafted == v0.crafted + [CraftedFor(h, rep, unwanted, [])]
    && (!h.setOk ==> r == Ok(true) && v1.extState == ModuleError)
    && (r.Ok? ==> r.value && v1.extState == (if h.setOk && h.storeOk then Finished else ModuleError))
    && (r.Err? ==> r.error == KeyError && v1.extState == v0.extState)
    && Restored(h, rep, v0, v1, r)
  }

  /** kabysdoh.py:344-347: some acceptable RRs remain, so the answer is
      rebuilt without the unwanted ones. */
  method Trim(q: Query, h: Host, rep: Reply, unwanted: set<seq<byte>>, newRep: ReplyInfo) returns (r: Result<bool, Exc>)
    modifies q, newRep
    ensures Trimmed(h, rep, unwanted, old(View(q, newRep)), View(q, newRep), r)
  {
    var msg, rest, res := SetCraftedReturnMsg(h.question, rep, unwanted, [], h.craftNow, h.setOk, newRep, h.storeOk);
    q.crafted := q.crafted + [msg];
    if res.Err? {
      return Err(res.error);
    }
    q.extState := if res.value then Finished else ModuleError;
    return Ok(true);
  }

  /** What examining the answer does to a query without pending state
      (kabysdoh.py:305-360), where `l4`, `l6` and `l4'`, `l6'` are the
      lists of the two stash groups before and after. Ignored answers
      finish, and a malformed one raises. An answer with nothing unwanted
      finishes. One with some good RRs is rebuilt without the unwanted
      ones. One with only unwanted RRs, all of one CDN, waits for
      stand-ins. Any other answer finishes. Only waiting for stand-ins
      touches a stash group. */
  predicate AnswerOutcome(data: Data, h: Host, l4: map<CdnId, seq<Entry>>, l6: map<CdnId, seq<Entry>>,
                          l4': map<CdnId, seq<Entry>>, l6': map<CdnId, seq<Entry>>,
                          v0: QueryView, v1: QueryView, r: Result<bool, Exc>) {
    && (Ignored(h) ==> r == Ok(true) && v1 == v0.(extState := Finished) && l4' == l4 && l6' == l6)
    && (!Ignored(h) && ClassifyAnswer(data, h).Err? ==>
          r == Err(RuntimeError(MALFORMED)) && v1 == v0 && l4' == l4 && l6' == l6)
    && (!Ignored(h) && ClassifyAnswer(data, h).Ok? ==>
          Decided(data, h, ClassifyAnswer(data, h).value, l4, l6, l4', l6', v0, v1, r))
  }

  /** What the module does with the parsed answer `info` (kabysdoh.py:330-360). */
  predicate Decided(data: Data, h: Host, info: Info, l4: map<CdnId, seq<Entry>>, l6: map<CdnId, seq<Entry>>,
                    l4': map<CdnId, seq<Entry>>, l6': map<CdnId, seq<Entry>>,
                    v0: QueryView, v1: QueryView, r: Result<bool, Exc>)
    requires h.reply.Some?
  {
    && (info.unwanted == {} ==> r == Ok(true) && v1 == v0.(extState := Finished) && l4' == l4 && l6' == l6)
    && (info.unwanted != {} && info.good > 0 ==>
          l4' == l4 && l6' == l6 && Trimmed(h, h.reply.value, info.unwanted, v0, v1, r))
    && (info.unwanted != {} && info.good == 0 && |info.cdns| != 1 ==>
          r == Ok(true) && v1 == v0.(extState := Finished) && l4' == l4 && l6' == l6)
    && (info.unwanted != {} && info.good == 0 && |info.cdns| == 1 ==>
          AwaitOutcome(data, h, info.unwanted, info.cdns, l4, l6, l4', l6', v0, v1, r))
  }

  /** kabysdoh.py:330-360: an answer with unwanted RRs and some acceptable
      ones is rebuilt without them; one with only unwanted RRs, all of one
      CDN, waits for stand-ins of that CDN; anything else finishes. */
  method Decide(q: Query, data: Data, g4: StashGroup, g6: StashGroup, h: Host, newRep: ReplyInfo, info: Info)
    returns (r: Result<bool, Exc>)
    requires h.reply.Some? && q.qdata.None? && g4 != g6
    modifies q, g4, g6, newRep
    ensures Decided(data, h, info, old(g4.lists), old(g6.lists), g4.lists, g6.lists,
                    old(View(q, newRep)), View(q, newRep), r)
    ensures q.qdata.Some? ==> q.qdata.value.count <= 1
  {
    if info.unwanted == {} {
    } else if info.good > 0 {
      r := Trim(q, h, h.reply.value, info.unwanted, newRep);
      return;
    } else if |info.cdns| == 1 {
      r := AwaitStandIns(q, data, g4, g6, h, newRep, info.unwanted, info.cdns);
      return;
    }
    q.extState := Finished;
    return Ok(true);
  }

  /** kabysdoh.py:307-360: the answer of the next module is examined. An
      answer with unwanted RRs and some acceptable ones is rebuilt without
      them; one with only unwanted RRs, all of one CDN, waits for stand-ins
      of that CDN; anything else is passed on. */
  method OperateOnAnswer(q: Query, data: Data, g4: StashGroup, g6: StashGroup, h: Host, newRep: ReplyInfo)
    returns (r: Result<bool, Exc>)
    requires g4 != g6
    modifies q, g4, g6, newRep
    ensures old(q.qdata).Some? ==> r == Err(AssertionError) && unchanged(q, newRep) && unchanged(g4, g6)
    ensures old(q.qdata).None? ==>
              AnswerOutcome(data, h, old(g4.lists), old(g6.lists), g4.lists, g6.lists, old(View(q, newRep)), View(q, newRep), r)
    ensures old(q.qdata).None? && q.qdata.Some? ==> q.qdata.value.count <= 1
  {
    if q.qdata.Some? {
      return Err(AssertionError);
    }
    var qtype, qclass := h.question.qtype, h.question.qclass;
    if !h.isExternal || !(qtype == TYPE_A || qtype == TYPE_AAAA) || qclass != CLASS_IN {
      q.extState := Finished;
      return Ok(true);
    }
    if h.reply.None? {
      q.extState := Finished;
      return Ok(true);
    }
    var rep := h.reply.value;
    if h.rcode != RCODE_NOERROR || |rep.rrsets| == 0 {
      q.extState := Finished;
      return Ok(true);
    }
    var parsed := ParseReplyInfo(data, h.parseNow, rep);
    if parsed.Err? {
      return Err(RuntimeError(MALFORMED));
    }
    r := Decide(q, data, g4, g6, h, newRep, parsed.value);
  }

  /** `operate` (kabysdoh.py:288-360): a new or passed query goes down the
      module chain, or is woken up after a sub-query; the answer of the
      next module is examined; any other event is an error. */
  method Operate(event: Event, q: Query, data: Data, g4: StashGroup, g6: StashGroup, h: Host, newRep: ReplyInfo)
    returns (r: Result<bool, Exc>)
    requires g4 != g6
    modifies q, g4, g6, newRep
    ensures (event == EventPass || event == EventNew) && old(q.qdata).None? ==>
              r == Ok(true) && View(q, newRep) == old(View(q, newRep)).(extState := WaitModule) && unchanged(g4, g6)
    ensures event == EventOther ==>
              r == Ok(true) && View(q, newRep) == old(View(q, newRep)).(extState := ModuleError) && unchanged(g4, g6)
    ensures event == EventModDone && old(q.qdata).Some? ==>
              r == Err(AssertionError) && unchanged(q, newRep) && unchanged(g4, g6)
    ensures (event == EventPass || event == EventNew) && old(q.qdata).Some? ==>
              var p := old(q.qdata).value;
              OtherOf(p.qtype, g4, g6).lists == old(OtherOf(p.qtype, g4, g6).lists) &&
              SubqueryOutcome(p, data, h, old(GroupOf(p.qtype, g4, g6).lists), GroupOf(p.qtype, g4, g6).lists,
                              old(View(q, newRep)), View(q, newRep), r)
    ensures event == EventModDone && old(q.qdata).None? ==>
              AnswerOutcome(data, h, old(g4.lists), old(g6.lists), g4.lists, g6.lists, old(View(q, newRep)), View(q, newRep), r)
    ensures old(q.qdata).Some? ==> q.qdata.Some? && q.qdata.value.(count := 0) == old(q.qdata).value.(count := 0)
    ensures old(q.qdata).Some? && old(q.qdata).value.count <= MaxSubqueries ==> q.qdata.value.count <= MaxSubqueries
    ensures old(q.qdata).None? && q.qdata.Some? ==> q.qdata.value.count <= 1
  {
    if event == EventPass || event == EventNew {
      if q.qdata.None? {
        q.extState := WaitModule;
        return Ok(true);
      }
      r := OperateOnSubqueryResults(q, data, g4, g6, h, newRep);
      return;
    } else if event != EventModDone {
      q.extState := ModuleError;
      return Ok(true);
    }
    r := OperateOnAnswer(q, data, g4, g6, h, newRep);
  }

  /** The stand-ins of one packed length, as `(cdn, (exp, rrtxt))`
      pairs in order (kabysdoh.py:400-401, 415-417). */
  function Replacements(good: seq<Candidate>, rrLen: nat): seq<(CdnId, Entry)> {
    if good == [] then []
    else
      var y := good[|good| - 1];
      Replacements(good[..|good| - 1], rrLen) + (if y.rrLen == rrLen then [(y.cdn, Entry(y.exp, y.text))] else [])
  }

  /** A pair is a replacement exactly when it comes from a candidate of
      that packed length. */
  lemma {:induction false} ReplacementsSpec(good: seq<Candidate>, rrLen: nat)
    ensures forall x :: x in Replacements(good, rrLen) <==>
              exists y :: y in good && y.rrLen == rrLen && x == (y.cdn, Entry(y.exp, y.text))
  {
    if good != [] {
      var n := |good| - 1;
      ReplacementsSpec(good[..n], rrLen);
      assert good == good[..n] + [good[n]];
      forall x | exists y :: y in good && y.rrLen == rrLen && x == (y.cdn, Entry(y.exp, y.text))
        ensures x in Replacements(good, rrLen)
      {
        var y :| y in good && y.rrLen == rrLen && x == (y.cdn, Entry(y.exp, y.text));
        if y != good[n] {
          assert y in good[..n];
        }
      }
    }
  }

  /** Every CDN of the replacements has a list in `lists`. */
  predicate Known(pairs: seq<(CdnId, Entry)>, lists: map<CdnId, seq<Entry>>) {
    forall i :: 0 <= i < |pairs| ==> pairs[i].0 in lists
  }

  /** The stash group after the replacements are added; an empty list of
      replacements leaves it alone (kabysdoh.py:408-409). */
  function Stashed(lists: map<CdnId, seq<Entry>>, pairs: seq<(CdnId, Entry)>, now: int): map<CdnId, seq<Entry>> {
    if pairs == [] then lists else Refreshed(lists, pairs, now)
  }

  /** `inform_super` (kabysdoh.py:389-425): the acceptable CDN RRs of a
      sub-query's answer are added to the stash of their family and CDN. */
  method InformSuper(data: Data, g4: StashGroup, g6: StashGroup, h: Host) returns (r: Result<bool, Exc>)
    requires g4 != g6
    modifies g4, g6
    ensures h.reply.None? ==> r == Err(AttributeError) && unchanged(g4, g6)
    ensures h.reply.Some? && ClassifyAnswer(data, h).Err? ==> r == Err(RuntimeError(MALFORMED)) && unchanged(g4, g6)
    ensures h.reply.Some? && ClassifyAnswer(data, h).Ok? ==>
              var good := ClassifyAnswer(data, h).value.goodCdn;
              var p4, p6 := Replacements(good, 6), Replacements(good, 18);
              (Known(p4, old(g4.lists)) && Known(p6, old(g6.lists)) ==>
                 r == Ok(true) && g4.lists == Stashed(old(g4.lists), p4, h.now) &&
                 g6.lists == Stashed(old(g6.lists), p6, h.now)) &&
              (!Known(p4, old(g4.lists)) ==>
                 r == Err(KeyError) && g6.lists == old(g6.lists) &&
                 exists m :: StoppedAt(old(g4.lists), p4, m, g4.lists)) &&
              (Known(p4, old(g4.lists)) && !Known(p6, old(g6.lists)) ==>
                 r == Err(KeyError) && g4.lists == Stashed(old(g4.lists), p4, h.now) &&
                 exists m :: StoppedAt(old(g6.lists), p6, m, g6.lists))
    ensures g4.lists.Keys == old(g4.lists).Keys && g6.lists.Keys == old(g6.lists).Keys
  {
    if h.reply.None? {
      return Err(AttributeError);
    }
    var parsed := ParseReplyInfo(data, h.parseNow, h.reply.value);
    if parsed.Err? {
      return Err(RuntimeError(MALFORMED));
    }
    var good := parsed.value.goodCdn;
    var p4, p6 := Replacements(good, 6), Replacements(good, 18);
    if p4 == [] && p6 == [] {
      return Ok(true);
    }
    if p4 != [] {
      var added := g4.Add(p4, h.now);
      if added.Err? {
        return Err(added.error);
      }
    }
    if p6 != [] {
      var added := g6.Add(p6, h.now);
      if added.Err? {
        return Err(added.error);
      }
    }
    return Ok(true);
  }

  /** With tables built from the dump and stash groups keyed by every CDN
      id of the dump, each replacement of a well-formed answer has a list,
      so `inform_super` cannot fail with KeyError. */
  lemma ReplacementsKnown(data: Data, d: Dump, now: int, items: seq<Item>, lists: map<CdnId, seq<Entry>>, rrLen: nat)
    requires Models(data, d)
    requires forall i :: 0 <= i < |items| ==> WellFormed(items[i])
    requires lists.Keys == data.cdns
    ensures Classify(data, now, items).Ok?
    ensures Known(Replacements(Classify(data, now, items).value.goodCdn, rrLen), lists)
  {
    CdnsKnown(data, d, now, items);
    var good := Classify(data, now, items).value.goodCdn;
    ReplacementsSpec(good, rrLen);
    var ps := Replacements(good, rrLen);
    forall i | 0 <= i < |ps|
      ensures ps[i].0 in lists
    {
      assert ps[i] in ps;
    }
  }
}
