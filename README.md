# kabysdoh, modelled in Dafny

kabysdoh is a Python module for the Unbound DNS resolver. Its job is to keep
the answers to A and AAAA queries usable when some of the addresses in them
are on a blocklist. The module loads a dump that holds four things:

- the blocked addresses;
- the blocked subnets;
- the subnets of known CDNs;
- some domain names served by each CDN.

When an external query's answer arrives, the module classifies every address
RR as blocked or acceptable, and looks up the CDN the address belongs to. Then
it acts on the result:

- It drops the blocked RRs when some acceptable ones remain.
- When every address is blocked and all of them belong to one CDN, it puts
  "stand-ins" in their place. A stand-in is an unexpired, acceptable address
  of that CDN, remembered in a per-CDN stash.
- When the stash is empty, it launches a sub-query for one of the CDN's
  domains, at most three times per query.
- When such a sub-query's answer comes back, `inform_super` adds its
  acceptable CDN addresses to the stash. Each stash list is kept sorted by
  expiry, newest first, without expired entries and at most 42 long.

The model covers all of `kabysdoh.py` except the host glue. Its modules,
each in a file of its own, are:

- `Base`: bytes, `Option` and `Result`.
- `Msg`: the host's view of an answer (RR sets, RR blobs, flags) and the
  Python exceptions.
- `Bits`: bitwise AND on unbounded naturals, which addresses and netmasks
  need.
- `Text`: decimal and upper-case hex formatting, and the generic RR text of
  section 5 of RFC 3597 with a parser that inverts it.
- `Dname`: `strAsDname`, which turns a text name into wire format.
- `Matcher`: the two-level subnet tables `load_dump` builds, with a reference
  definition that they are proved against.
- `Dataset`: `load_dump`.
- `Classifier`: `parse_reply_info`.
- `Stash`: the per-CDN stash lists, as the class `StashGroup`, with their sort
  order, expiry and bound.
- `Rebuild`: `set_crafted_return_msg`, covering the header flags, the answer
  lines and the write-back of trust and security.
- `Orchestrator`: `operate`, `operate_on_subquery_results` and
  `inform_super`, over a class `Query` that holds the module's per-query
  state.

Host inputs are parameters of the model (datatype `Orchestrator.Host`):

- the clock, read as integer ticks;
- the draws of `random.shuffle` and the index of `random.choice`;
- the results of `set_return_msg`, `storeQueryInCache` and `attach_sub`.

Where `load_dump`'s dictionaries hold lists that the module changes in place,
the model has a class with a `map` field. `random.shuffle` works on an array.

## Model

| member | source | states |
|---|---|---|
| Msg.ToBigEndian | kabysdoh.py:138 | the inverse of `int.from_bytes(.., 'big')` yields exactly the requested number of bytes |
| Msg.BigEndianRoundTrip | kabysdoh.py:138 | reading an address big-endian gives a value below 256^len, and writing it back gives the same bytes, so distinct RDATA give distinct addresses |
| Bits.AndComm | kabysdoh.py:59 | bitwise AND is commutative |
| Bits.AndAssoc | kabysdoh.py:59 | bitwise AND is associative, so folding the netmasks into the common mask does not depend on grouping |
| Bits.AndIdem | kabysdoh.py:59 | `x & x == x` |
| Bits.AndOnes | kabysdoh.py:57-59 | the starting mask `2 ** nbits - 1` leaves every `nbits`-bit value unchanged |
| Bits.AndBound | kabysdoh.py:59 | `a & b` never exceeds `a` |
| Bits.MaskThenCommon | kabysdoh.py:140-144 | when the common mask is covered by a netmask, masking by the netmask and then by the common mask equals masking by the common mask |
| Bits.MaskTwice | kabysdoh.py:140 | masking twice by the same mask is masking once |
| Bits.MeetCovered | kabysdoh.py:57-59 | ANDing one more netmask into a mask that a netmask covers keeps it covered, and the new netmask covers it too |
| Text.DigitChar | kabysdoh.py:166 | a digit below ten becomes a decimal digit character of that value |
| Text.Decimal | kabysdoh.py:166-168 | the `d` format of a natural is a non-empty string of digits without spaces |
| Text.IntText | kabysdoh.py:198-199 | the `d` format of an integer, such as a TTL, contains no space |
| Text.DecimalRoundTrip | kabysdoh.py:166-168 | parsing the decimal text of a natural gives it back |
| Text.IntTextRoundTrip | kabysdoh.py:198-199 | parsing the signed decimal text of an integer gives it back |
| Text.HexChar | kabysdoh.py:169 | a nibble becomes the upper-case hex digit of that value |
| Text.HexByte | kabysdoh.py:169 | the `02X` format of a byte is two hex digits whose value is the byte |
| Text.Hex | kabysdoh.py:169 | the hex text of the RDATA has two hex digits per byte |
| Text.HexRoundTrip | kabysdoh.py:169 | un-hexing the hex text of the RDATA gives back the bytes |
| Text.SplitWordAt | kabysdoh.py:166 | a space-free word followed by a space and more text splits at that space |
| Text.LenFieldRoundTrip | kabysdoh.py:166-169 | the `\# len hex` tail of the generic RR text parses back to its length and RDATA |
| Text.TypeFieldRoundTrip | kabysdoh.py:166-169 | the `TYPEn \# len hex` tail parses back to the type, length and RDATA |
| Text.GenericRDataRoundTrip | kabysdoh.py:166-169 | the text `CLASSc TYPEt \# len hex` kept in a stash entry parses back to the class, type, length and RDATA it was made from |
| Dname.AsciiBytes | kabysdoh.py:41 | ASCII encoding keeps the length and maps each character to its code |
| Dname.Split | kabysdoh.py:41 | `bytes.split(b'.')` yields at least one piece |
| Dname.SplitJoin | kabysdoh.py:41 | joining the pieces of a split with dots gives back the bytes |
| Dname.SplitDotFree | kabysdoh.py:41 | no piece of a split contains a dot |
| Dname.NonEmpty | kabysdoh.py:42 | the labels kept are the non-empty pieces, and they are valid labels when every piece is shorter than 256 bytes |
| Dname.LabelsWireAppend | kabysdoh.py:43-44 | appending a label to the wire form appends its length byte and its bytes |
| Dname.WireStep | kabysdoh.py:41-44 | one more piece adds nothing to the wire form if it is empty, and its length byte and bytes otherwise |
| Dname.NameRoundTrip | kabysdoh.py:39-46 | parsing the wire name built from valid labels gives back the labels |
| Dname.EncodePieces | kabysdoh.py:40-46 | the loop fails with a too-long label exactly when some piece has 256 or more bytes, and otherwise returns the wire name of the non-empty pieces, ending in the zero octet |
| Dname.StrAsDname | kabysdoh.py:39-46 | non-ASCII text fails, a label of 256 or more bytes fails, and otherwise the result is the wire name of the text's non-empty labels |
| Matcher.CommonMaskCovered | kabysdoh.py:56-59 | every netmask of the list covers the common mask |
| Matcher.FirstInAppend | kabysdoh.py:157-161 | the first matching range of a longer list is the old first match if there was one, and otherwise the new range if it matches |
| Matcher.FirstInSome | kabysdoh.py:157-161 | the scan of a bucket finds a CDN exactly when some range in it contains the address, and then returns that range's CDN |
| Matcher.LastDirectSome | kabysdoh.py:64-65 | a direct hit comes from a range whose netmask is the common mask and which contains the address |
| Matcher.ReferenceSome | kabysdoh.py:140-145 | the reference lookup succeeds exactly when some range contains the address, and returns that range's payload |
| Matcher.CandidateStep | kabysdoh.py:62-63 | adding a finer range to its bucket keeps the table's lookup equal to the reference lookup |
| Matcher.DirectStep | kabysdoh.py:64-65 | writing a direct entry keeps the table's lookup equal to the reference lookup |
| Matcher.NoCollisionStep | kabysdoh.py:61-65 | a range that meets no direct entry under its key keeps the list free of collisions |
| Matcher.BlockHitIsLookup | kabysdoh.py:140-145 | the blocklist test hits exactly when the table lookup finds something |
| Matcher.CandidateKeys | kabysdoh.py:62-63 | after a finer range is added, the direct keys are still exactly those of the ranges seen |
| Matcher.DirectKeys | kabysdoh.py:64-65 | after a direct entry is written, the direct keys are exactly those of the ranges seen |
| Matcher.Build | kabysdoh.py:56-67 | building fails exactly when a finer range falls under a direct entry's key (Python's `None.append`); otherwise the trie uses the common mask, every lookup equals the reference lookup, and the blocklist test hits exactly the addresses some range contains |
| Dataset.BlockRanges | kabysdoh.py:58-61 | one blocklist range per `(netaddr, netmask)` pair, in order |
| Dataset.CdnRanges | kabysdoh.py:71-74 | one CDN range per `(netaddr, netmask, cdn)` triple, in order |
| Dataset.EncodedSnoc | kabysdoh.py:84 | encoding one more domain name extends the encoded list by its wire name |
| Dataset.EncodeNames | kabysdoh.py:84 | a CDN's domain names encode exactly when each of them does, and each comes out as its wire name |
| Dataset.EncodeDomains | kabysdoh.py:83-84 | all CDN domains encode exactly when every name of every CDN does, and each keeps its CDN and position |
| Dataset.LoadDump | kabysdoh.py:48-85 | loading succeeds exactly when all four subnet tables build and all domains encode; the loaded data then holds the dump's exact addresses, tables equal to the reference lookups, and the encoded domains |
| Dataset.LookupIsKnownCdnIn | kabysdoh.py:74-76 | a CDN found by the table is one named in the dump's CDN subnets |
| Dataset.LookupIsKnownCdn | kabysdoh.py:69-82 | any CDN the loaded tables report has a stash list, created at load time |
| Dataset.BlockHitInRanges | kabysdoh.py:140-145 | the built blocklist table hits exactly the addresses inside some listed subnet |
| Dataset.BlockedIff | kabysdoh.py:54-55 | an address is blocked exactly when it is in the family's address set or in one of its subnets |
| Classifier.SetItems | kabysdoh.py:133-134 | one item per RR of the set, in order, carrying the set's name, type and class |
| Classifier.Verdicts | kabysdoh.py:140-163 | one verdict (blocked, CDN) per item, judged on that item alone |
| Classifier.ItemsAppend | kabysdoh.py:126-133 | the address items of two runs of RR sets are those of the first run followed by those of the second |
| Classifier.VerdictsPrefix | kabysdoh.py:140-163 | the verdicts of a prefix are the prefix of the verdicts |
| Classifier.FoldErrSticks | kabysdoh.py:135-137 | once a malformed RR has raised, later RRs do not change the outcome |
| Classifier.ClassifySnoc | kabysdoh.py:133-170 | classifying one more RR takes one step from the previous result |
| Classifier.ClassifyErrSticks | kabysdoh.py:135-137 | the error of a prefix is the error of the whole answer |
| Classifier.AbortAfter | kabysdoh.py:126-137 | an error raised in RR set `k` is the result of the whole answer |
| Classifier.VisitRR | kabysdoh.py:134-170 | the loop body for one RR takes exactly the reference step |
| Classifier.ClassifyThenScan | kabysdoh.py:126-170 | classifying a longer list equals continuing from the result of its prefix |
| Classifier.VisitSet | kabysdoh.py:133-170 | the inner loop over one RR set continues the reference classification over that set's RRs |
| Classifier.ParseReplyInfo | kabysdoh.py:107-171 | the nested loops compute the reference classification of the answer's address items |
| Classifier.ItemsAreAddressRRs | kabysdoh.py:126-134 | the items classified are exactly the RRs of the A and AAAA sets of class IN |
| Classifier.FoldOkIff | kabysdoh.py:135-137 | classification succeeds exactly when every RR is well formed; otherwise it fails naming the first malformed RR's owner |
| Classifier.FoldGood | kabysdoh.py:147-150 | `good` counts the RRs whose verdict is not blocked |
| Classifier.FoldUnwanted | kabysdoh.py:146 | `unwanted` is exactly the set of blobs of the blocked RRs |
| Classifier.FoldCdns | kabysdoh.py:162-163 | `rrcdn` is exactly the set of CDNs found |
| Classifier.FoldCandidates | kabysdoh.py:164-170 | `goodcdn` holds exactly the candidates built from acceptable CDN RRs with a positive TTL |
| Classifier.ClassifyOkIff | kabysdoh.py:135-137 | the answer parses exactly when every address RR has the expected length and a zero first byte; otherwise the error names the first bad RR's owner |
| Classifier.ClassifyGood | kabysdoh.py:141-150 | `good` is the number of RRs not on the blocklist |
| Classifier.ClassifyUnwanted | kabysdoh.py:141-147 | a blob is unwanted exactly when some RR with that blob is blocked |
| Classifier.ClassifyCdns | kabysdoh.py:152-163 | `rrcdn` is exactly the set of CDNs the CDN table reports for the RRs |
| Classifier.ClassifyCandidates | kabysdoh.py:164-170 | a candidate is in `goodcdn` exactly when it comes from an unblocked CDN RR with a positive TTL, expiring at now plus the TTL |
| Classifier.UnwantedExact | kabysdoh.py:141-146 | an RR's blob is unwanted exactly when that RR is blocked |
| Classifier.CdnsKnown | kabysdoh.py:152-163 | every CDN reported, and every candidate's CDN, is a CDN of the loaded data |
| Classifier.CandidateTextParses | kabysdoh.py:165-170 | a candidate's text parses back to the RR's class, type, RDATA length and RDATA |
| Stash.TextLessIrreflexive | kabysdoh.py:420 | string order is irreflexive |
| Stash.TextLessAsymmetric | kabysdoh.py:420 | string order is asymmetric |
| Stash.TextLessTransitive | kabysdoh.py:420 | string order is transitive |
| Stash.TextLessTotal | kabysdoh.py:420 | distinct strings are ordered one way or the other |
| Stash.LessOrder | kabysdoh.py:420 | the order on `(exp, rrtxt)` tuples is a strict total order |
| Stash.InsertPerm | kabysdoh.py:420 | inserting an entry adds exactly that entry |
| Stash.InsertSorted | kabysdoh.py:420 | inserting into a descending list keeps it descending |
| Stash.SortDescSpec | kabysdoh.py:420 | `sort(reverse=True)` yields a descending permutation |
| Stash.DropExpiredSpec | kabysdoh.py:421-422 | popping expired entries from the tail leaves a prefix; everything removed has expired, and the new last entry has not |
| Stash.SortedDropExpired | kabysdoh.py:420-422 | on a descending list, what survives is descending and is exactly the unexpired entries |
| Stash.TrimSorted | kabysdoh.py:421-424 | dropping the expired entries and cutting to 42 leaves a descending prefix of unexpired entries, losing an unexpired entry only when the cap is reached |
| Stash.TidySpec | kabysdoh.py:419-424 | a tidied list is sorted descending, at most 42 long and unexpired; it is a prefix of the sorted list drawn from the old entries, and keeps every unexpired entry unless it is full |
| Stash.ArrivalsUntouched | kabysdoh.py:415-418 | a CDN no stand-in names receives nothing |
| Stash.TouchedMembers | kabysdoh.py:418 | a CDN's list is tidied exactly when some stand-in names it |
| Stash.TouchedCovers | kabysdoh.py:418 | every stand-in's CDN is among the lists tidied |
| Stash.TidiedIsRefreshed | kabysdoh.py:415-424 | appending and then tidying the touched lists gives the refreshed group |
| Stash.RefreshedValid | kabysdoh.py:419-424 | refreshing keeps every list sorted descending and at most 42 long |
| Stash.StashGroup.constructor | kabysdoh.py:75-76 | the group starts with an empty list for each known CDN |
| Stash.StashGroup.Take | kabysdoh.py:366-370 | an unknown CDN raises KeyError; otherwise the CDN's list loses its expired tail in place and a copy is returned; the keys and the invariant are kept |
| Stash.StashGroup.TidyList | kabysdoh.py:419-424 | one list is replaced by its tidied form and the others are kept |
| Stash.StashGroup.AppendAll | kabysdoh.py:415-418 | the stand-ins are appended in order; it succeeds exactly when every CDN has a list, and otherwise stops at the first unknown CDN with KeyError |
| Stash.StashGroup.TidyAll | kabysdoh.py:419-424 | exactly the touched lists are tidied |
| Stash.StashGroup.Add | kabysdoh.py:413-424 | the group becomes the refreshed group, or stops with KeyError at the first unknown CDN; the invariant (sorted descending, at most 42) is kept |
| Rebuild.PacketFlagsRoundTrip | kabysdoh.py:176-185 | the seven flags carried into the new message survive a round trip; bit 7 stays clear, and no other flag is carried |
| Rebuild.FitnessKeys | kabysdoh.py:186-193 | `fitness` has a key exactly for each RR set's (owner, type, class) |
| Rebuild.FitnessLastWins | kabysdoh.py:193 | a key's trust and security come from the last RR set with that key |
| Rebuild.EmitCounts | kabysdoh.py:194-206 | each dropped RR consumes one stand-in, popped from the tail, while stand-ins remain; the answer has one line per kept RR and per stand-in used |
| Rebuild.WriteGrows | kabysdoh.py:196-206 | writing an RR never removes a line, and a kept RR adds its own line |
| Rebuild.EmitKeeps | kabysdoh.py:196-202 | every kept RR appears in the answer as its generic text line |
| Rebuild.EmitKeepsOrder | kabysdoh.py:194-206 | the lines of the kept RRs appear in the answer in their original order, at increasing positions |
| Rebuild.EmitOrigins | kabysdoh.py:194-206 | every line of the answer is a kept RR's line or a stand-in's line |
| Rebuild.PlainLines | kabysdoh.py:198-202 | one generic text line per RR, in order |
| Rebuild.EmitNothingUnwanted | kabysdoh.py:196-202 | with nothing unwanted the answer is every RR's line, in order, and no stand-in is used |
| Rebuild.EmitSnoc | kabysdoh.py:194-206 | the answer for one more RR is the old answer plus that RR's write |
| Rebuild.CraftRR | kabysdoh.py:195-207 | the loop body for one RR writes exactly the reference line, if any, and pops at most one stand-in |
| Rebuild.CraftSet | kabysdoh.py:194-207 | the inner loop extends the reference answer by one RR set |
| Rebuild.CraftAnswer | kabysdoh.py:186-207 | the loops build the reference answer and the reference `fitness` map |
| Rebuild.ReplyInfo.constructor | kabysdoh.py:221 | the new reply holds the given security and RR sets |
| Rebuild.RestoreTags | kabysdoh.py:226-231 | security is kept; it succeeds exactly when every RR set's key is in `fitness`, and then every set gets its key's trust and security; otherwise KeyError, with the sets before the first missing key already rewritten |
| Rebuild.SetCraftedReturnMsg | kabysdoh.py:173-240 | the message handed to the host has the question, the carried flags and the reference answer; a failed `set_return_msg` gives False with nothing rewritten; otherwise security is restored, and either every RR set gets its key's tags and the result is `storeQueryInCache`'s, or KeyError is raised with the sets before the first missing key rewritten |
| Orchestrator.Query.constructor | kabysdoh.py:293 | a fresh query has no sub-query state and has crafted and launched nothing |
| Orchestrator.ShuffledPerm | kabysdoh.py:372 | the reference shuffle keeps the entries |
| Orchestrator.ShuffledStep | kabysdoh.py:372 | one swap of the Fisher-Yates loop moves one step along the reference shuffle |
| Orchestrator.Shuffle | kabysdoh.py:372 | the in-place shuffle of the array is the reference shuffle of its contents, a permutation |
| Orchestrator.Choose | kabysdoh.py:381 | `random.choice` returns a member of a non-empty list and raises IndexError on an empty one |
| Orchestrator.TooMany | kabysdoh.py:378-379 | the corrected guard raises RuntimeError exactly from the third sub-query on |
| Orchestrator.TooManyRaisesNameError | kabysdoh.py:378-379 | the guard as written raises NameError for `rrcdn` instead of the intended RuntimeError |
| Orchestrator.StashQtype | kabysdoh.py:353 | only packed lengths 6 and 18 map to a type, each to the family of that length; any other length raises KeyError |
| Orchestrator.UnwantedLengths | kabysdoh.py:349-353 | every unwanted blob of a parsed answer has a length that maps to a type, so that KeyError cannot happen |
| Orchestrator.ServeStash | kabysdoh.py:371-376 | no reply raises AttributeError with nothing changed; otherwise the message with the shuffled stand-ins in place of the dropped RRs is handed over; a refused `set_return_msg` gives ModuleError and leaves the host's new reply alone; an accepted one gives the new reply the old answer's security, and then it succeeds exactly when every new RR set's key is in the old answer, retagging all of them, and otherwise raises KeyError with the sets before the first missing key retagged and the state kept; on success the state is Finished when the cache stored the message, ModuleError if not; the sub-query state and the launches are untouched |
| Orchestrator.Requery | kabysdoh.py:378-386 | from the third sub-query on it raises the guard's error, a CDN missing from `cdnDomains` raises KeyError, an empty domain list IndexError, each with nothing changed; otherwise it launches a sub-query for the chosen domain with the stashed type, and then counts it and waits, or sets ModuleError when the launch fails; nothing is crafted and the host's new reply is untouched |
| Orchestrator.ServeOrRequery | kabysdoh.py:371-386 | a non-empty stash has the full outcome of `ServeStash`, an empty one that of `Requery`; the sub-query state keeps its CDN, type and blobs, and its count grows by at most one and never passes three |
| Orchestrator.TakeAndServe | kabysdoh.py:364-386 | a CDN without a list raises KeyError with nothing changed; otherwise the CDN's list loses its expired tail and the unexpired stand-ins go to `ServeOrRequery` |
| Orchestrator.OperateOnSubqueryResults | kabysdoh.py:362-387 | without sub-query state, or for a CDN without a list, KeyError with nothing changed; otherwise the other family's group is untouched, the CDN's list loses its expired tail, a non-empty stash is served with the full outcome of `ServeStash` (including the write-back to the host's new reply), and an empty one leads to the full outcome of `Requery`; the count grows by at most one and never passes three |
| Orchestrator.AwaitStandIns | kabysdoh.py:348-356 | unwanted blobs of several lengths raise the mixture error and a length without a type KeyError, with nothing changed; otherwise the sub-query state records the CDN, the unwanted blobs and their type with a count of zero, and the outcome is that of `OperateOnSubqueryResults` on that state: the other group untouched, the stash served (with the write-back to the host's new reply) or a sub-query launched |
| Orchestrator.Await | kabysdoh.py:352-356 | the recorded state has a count of zero and the outcome is that of `OperateOnSubqueryResults` on it, with only the group of its type changed |
| Orchestrator.Trim | kabysdoh.py:344-347 | the message without the unwanted RRs and without stand-ins is handed over; a refused `set_return_msg` gives ModuleError with the host's new reply untouched; an accepted one restores the new reply's security and tags, succeeding exactly when every key is in the old answer and raising KeyError with the state kept otherwise; on success the state is Finished when the cache stored the message, ModuleError if not |
| Orchestrator.Decide | kabysdoh.py:342-360 | nothing unwanted finishes with nothing else changed; some good RRs give the outcome of `Trim`; no good RRs and one CDN give the outcome of `AwaitStandIns`; anything else finishes with nothing else changed; only `AwaitStandIns` touches a stash group |
| Orchestrator.OperateOnAnswer | kabysdoh.py:302-360 | with pending sub-query state the assertion fails with the query, the host's new reply and the groups unchanged; ignored answers finish with nothing else changed; a malformed answer raises with nothing changed; otherwise the outcome is that of `Decide` on the parsed answer, including the write-back to the host's new reply |
| Orchestrator.Operate | kabysdoh.py:288-360 | pass or new events without pending state set WaitModule and change nothing else (query, host's new reply, groups); with pending state they have the full outcome of `OperateOnSubqueryResults`; `modDone` with pending state fails the assertion with nothing changed, and without it has the full outcome of `OperateOnAnswer`; other events set ModuleError and change nothing else; the sub-query count stays within three |
| Orchestrator.ReplacementsSpec | kabysdoh.py:403-404 | the stand-ins of one packed length are exactly the `(cdn, (exp, rrtxt))` of the candidates of that length |
| Orchestrator.InformSuper | kabysdoh.py:389-425 | no answer raises AttributeError; a malformed answer raises; otherwise each family's group is refreshed with its stand-ins when all their CDNs are known; a stand-in with an unknown CDN raises KeyError, with the stand-ins before the first unknown CDN appended to that family's group but not tidied, and the AAAA group untouched when the A group stopped; the keys never change |
| Orchestrator.ReplacementsKnown | kabysdoh.py:402-418 | with the stash groups keyed by the loaded CDNs, every stand-in's CDN has a list, so `inform_super` cannot raise KeyError |

## Left out

- Loading and parsing the JSON file, and the `uint128` marker check (kabysdoh.py:50-53). The model starts from the parsed dump.
- `init_standard` and `deinit` (kabysdoh.py:87-105): they check a ctypes memory layout and set a global. They are host glue.
- The internals of `launch_subquery` (kabysdoh.py:242-267). The ctypes call to `attach_sub` is the boolean `launchOk`. The `attach_sub is None` RuntimeError is not modelled.
- The `threading.Lock` objects of the stash groups. The model is single-threaded.
- Logging, and `invalidateQueryInCache` (kabysdoh.py:213). They do not affect the module's state.
- Python floats for time. `time.monotonic()` is an integer tick count, so `int(min(ttl, exp - now))` needs no truncation.
- The values of Unbound's `QF_BIT_*` and `PKT_*` flags, and its A, AAAA and IN constants. They come from Unbound's own headers, which are not part of this model; the model uses the published Unbound values.
- `ntohs` byte swapping. RR types and classes are held in host order throughout.
- The arguments an exception carries besides its message, such as the owner name or the set of blobs.
- The blockpage branch (kabysdoh.py:357-358). It only logs.
- Orchestrator.AwaitStandIns: when the single unwanted length has no type, it does not model the partial write of `qdata[SUBQUERY]` before the KeyError at kabysdoh.py:352-353. `UnwantedLengths` shows that such an answer cannot parse.
- `random.shuffle` and `random.choice`: the random source is a parameter. `Draw` and `pick` supply the choices, and the algorithm is CPython's Fisher-Yates loop.

## Findings

| source | as written | input that shows it | evidently intended | confidence | as-written member | corrected member |
|---|---|---|---|---|---|---|
| kabysdoh.py:379 | `raise RuntimeError('too many sub-queries', rrcdn)` names `rrcdn`, which is not defined in `operate_on_subquery_results`, so evaluating the arguments raises NameError | a query whose CDN stash is still empty after three sub-queries (`qdata[SUBQUERY] == 3`) | raise RuntimeError('too many sub-queries') | not executed | Orchestrator.TooManyRaisesNameError | Orchestrator.TooMany |
