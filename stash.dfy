/** The per-CDN stashes of replacement address RRs (kabysdoh.py:75-76,
    364-370, 412-424): one list per CDN and family, kept sorted from the
    latest expiry down, so that expired entries sit at the tail. */
module Stash {
  import opened Base
  import opened Msg

  /** A stashed replacement: `(exp, rrtxt)`. */
  datatype Entry = Entry(exp: int, text: string)

  /** `while len(stash) > 42: stash.pop()` (kabysdoh.py:423-424). */
  const Capacity: nat := 42

  /** Python's `<` on `str`: lexicographic by code point. */
  predicate TextLess(a: string, b: string) {
    if a == [] then b != []
    else if b == [] then false
    else if a[0] != b[0] then a[0] < b[0]
    else TextLess(a[1..], b[1..])
  }

  /** Python's `<` on `(exp, rrtxt)` tuples. */
  predicate Less(a: Entry, b: Entry) {
    a.exp < b.exp || (a.exp == b.exp && TextLess(a.text, b.text))
  }

  lemma {:induction false} TextLessIrreflexive(a: string)
    ensures !TextLess(a, a)
  {
    if a != [] {
      TextLessIrreflexive(a[1..]);
    }
  }

  lemma {:induction false} TextLessAsymmetric(a: string, b: string)
    requires TextLess(a, b)
    ensures !TextLess(b, a)
  {
    if a != [] && b != [] && a[0] == b[0] {
      TextLessAsymmetric(a[1..], b[1..]);
    }
  }

  lemma {:induction false} TextLessTransitive(a: string, b: string, c: string)
    requires TextLess(a, b) && TextLess(b, c)
    ensures TextLess(a, c)
  {
    if a != [] && a[0] == b[0] && b[0] == c[0] {
      TextLessTransitive(a[1..], b[1..], c[1..]);
    }
  }

  lemma {:induction false} TextLessTotal(a: string, b: string)
    requires a != b
    ensures TextLess(a, b) || TextLess(b, a)
  {
    if a != [] && b != [] && a[0] == b[0] {
      assert a == [a[0]] + a[1..] && b == [b[0]] + b[1..];
      TextLessTotal(a[1..], b[1..]);
    }
  }

  /** `Less` is a strict total order: two entries are equal or one of them
      is smaller, never both. */
  lemma LessOrder(a: Entry, b: Entry, c: Entry)
    ensures !Less(a, a)
    ensures Less(a, b) ==> !Less(b, a)
    ensures Less(a, b) && Less(b, c) ==> Less(a, c)
    ensures a != b ==> Less(a, b) || Less(b, a)
  {
    TextLessIrreflexive(a.text);
    if TextLess(a.text, b.text) {
      TextLessAsymmetric(a.text, b.text);
    }
    if TextLess(a.text, b.text) && TextLess(b.text, c.text) {
      TextLessTransitive(a.text, b.text, c.text);
    }
    if a.text != b.text {
      TextLessTotal(a.text, b.text);
    }
  }

  /** `stash.sort(reverse=True)` leaves no entry smaller than a later one. */
  predicate SortedDesc(s: seq<Entry>) {
    forall i, j :: 0 <= i < j < |s| ==> !Less(s[i], s[j])
  }

  function Insert(e: Entry, s: seq<Entry>): seq<Entry> {
    if s == [] then [e]
    else if !Less(e, s[0]) then [e] + s
    else [s[0]] + Insert(e, s[1..])
  }

  /** The result of `sort(reverse=True)`: equal tuples are identical, so
      the sorted order is unique and any sorting algorithm gives it. */
  function SortDesc(s: seq<Entry>): seq<Entry> {
    if s == [] then [] else Insert(s[0], SortDesc(s[1..]))
  }

  lemma {:induction false} InsertPerm(e: Entry, s: seq<Entry>)
    ensures multiset(Insert(e, s)) == multiset(s) + multiset{e}
  {
    if s != [] && Less(e, s[0]) {
      InsertPerm(e, s[1..]);
      assert s == [s[0]] + s[1..];
    }
  }

  lemma {:induction false} InsertSorted(e: Entry, s: seq<Entry>)
    requires SortedDesc(s)
    ensures SortedDesc(Insert(e, s))
  {
    if s != [] {
      if !Less(e, s[0]) {
        forall j | 0 < j < |s| + 1
          ensures !Less(e, ([e] + s)[j])
        {
          var x := s[j - 1];
          assert !Less(s[0], x) by {
            if j > 1 { } else { LessOrder(x, x, x); }
          }
          LessOrder(e, s[0], x);
          LessOrder(s[0], e, x);
        }
      } else {
        var rest := Insert(e, s[1..]);
        InsertSorted(e, s[1..]);
        InsertPerm(e, s[1..]);
        forall j | 0 <= j < |rest|
          ensures !Less(s[0], rest[j])
        {
          var x := rest[j];
          assert x in multiset(rest);
          if x == e {
            LessOrder(e, s[0], e);
          } else {
            assert x in multiset(s[1..]);
            var k :| 0 <= k < |s[1..]| && s[1..][k] == x;
            assert s[k + 1] == x;
          }
        }
      }
    }
  }

  /** Sorting keeps the entries and orders them. */
  lemma {:induction false} SortDescSpec(s: seq<Entry>)
    ensures multiset(SortDesc(s)) == multiset(s)
    ensures SortedDesc(SortDesc(s))
  {
    if s != [] {
      SortDescSpec(s[1..]);
      InsertPerm(s[0], SortDesc(s[1..]));
      InsertSorted(s[0], SortDesc(s[1..]));
      assert s == [s[0]] + s[1..];
    }
  }

  /** `while stash and stash[-1][0] < now: stash.pop()`. */
  function DropExpired(s: seq<Entry>, now: int): seq<Entry> {
    if s != [] && s[|s| - 1].exp < now then DropExpired(s[..|s| - 1], now) else s
  }

  /** Dropping expired entries keeps a prefix, removes only expired
      entries and stops at one that has not expired. */
  lemma {:induction false} DropExpiredSpec(s: seq<Entry>, now: int)
    ensures |DropExpired(s, now)| <= |s|
    ensures DropExpired(s, now) == s[..|DropExpired(s, now)|]
    ensures forall i :: |DropExpired(s, now)| <= i < |s| ==> s[i].exp < now
    ensures DropExpired(s, now) != [] ==> DropExpired(s, now)[|DropExpired(s, now)| - 1].exp >= now
  {
    if s != [] && s[|s| - 1].exp < now {
      var n := |s| - 1;
      DropExpiredSpec(s[..n], now);
      assert s[..n][..|DropExpired(s, now)|] == s[..|DropExpired(s, now)|];
    }
  }

  /** On a sorted list the tail holds the earliest expiries, so dropping
      from the tail removes exactly the expired entries. */
  lemma SortedDropExpired(s: seq<Entry>, now: int)
    requires SortedDesc(s)
    ensures SortedDesc(DropExpired(s, now))
    ensures forall i :: 0 <= i < |s| ==> (s[i] in DropExpired(s, now) <==> s[i].exp >= now)
  {
    var r := DropExpired(s, now);
    DropExpiredSpec(s, now);
    forall k | 0 <= k < |r|
      ensures r[k].exp >= now
    {
      assert r[k] == s[k];
      assert !Less(s[k], s[|r| - 1]) by {
        if k < |r| - 1 { } else { LessOrder(s[k], s[k], s[k]); }
      }
    }
    forall i | 0 <= i < |s|
      ensures s[i] in r <==> s[i].exp >= now
    {
      if i < |r| {
        assert r[i] == s[i];
      }
    }
  }

  /** `while len(stash) > 42: stash.pop()`. */
  function Truncate(s: seq<Entry>): seq<Entry> {
    if |s| > Capacity then s[..Capacity] else s
  }

  /** What a list becomes after fresh entries are appended to it
      (kabysdoh.py:420-424): sorted, expired entries dropped, cut to 42. */
  function Tidy(s: seq<Entry>, now: int): seq<Entry> {
    Truncate(DropExpired(SortDesc(s), now))
  }

  /** Cutting a sorted list at its first expired entry and then at the
      capacity keeps a sorted prefix of unexpired entries, and every
      unexpired entry unless the capacity is reached. */
  lemma TrimSorted(u: seq<Entry>, now: int)
    requires SortedDesc(u)
    ensures |Truncate(DropExpired(u, now))| <= |u|
    ensures Truncate(DropExpired(u, now)) == u[..|Truncate(DropExpired(u, now))|]
    ensures SortedDesc(Truncate(DropExpired(u, now)))
    ensures forall e :: e in Truncate(DropExpired(u, now)) ==> e.exp >= now
    ensures forall e :: e in u && e.exp >= now && |Truncate(DropExpired(u, now))| < Capacity ==>
              e in Truncate(DropExpired(u, now))
  {
    var live := DropExpired(u, now);
    DropExpiredSpec(u, now);
    SortedDropExpired(u, now);
    var t := Truncate(live);
    assert t == live[..|t|];
    assert t == u[..|t|];
    forall e | e in t
      ensures e.exp >= now
    {
      var k :| 0 <= k < |t| && t[k] == e;
      assert u[k] == e && e in live;
    }
    forall e | e in u && e.exp >= now && |t| < Capacity
      ensures e in t
    {
      var k :| 0 <= k < |u| && u[k] == e;
    }
  }

  lemma PrefixMultiset<T>(s: seq<T>, n: nat)
    requires n <= |s|
    ensures multiset(s[..n]) <= multiset(s)
  {
    assert s == s[..n] + s[n..];
  }

  /** A tidied list is sorted, within capacity and unexpired; it holds the
      latest-expiring entries of the input, and every unexpired entry
      unless the list is full. */
  lemma TidySpec(s: seq<Entry>, now: int)
    ensures SortedDesc(Tidy(s, now))
    ensures |Tidy(s, now)| <= Capacity
    ensures forall e :: e in Tidy(s, now) ==> e.exp >= now
    ensures |Tidy(s, now)| <= |SortDesc(s)| && Tidy(s, now) == SortDesc(s)[..|Tidy(s, now)|]
    ensures multiset(Tidy(s, now)) <= multiset(s)
    ensures forall e :: e in s && e.exp >= now && |Tidy(s, now)| < Capacity ==> e in Tidy(s, now)
  {
    var sorted := SortDesc(s);
    SortDescSpec(s);
    TrimSorted(sorted, now);
    PrefixMultiset(sorted, |Tidy(s, now)|);
    forall e | e in s
      ensures e in sorted
    {
      assert e in multiset(sorted);
    }
  }

  /** The entries of `good` that go to the list of `cdn`, in order. */
  function Arrivals(good: seq<(CdnId, Entry)>, cdn: CdnId): seq<Entry> {
    if good == [] then []
    else
      var last := good[|good| - 1];
      Arrivals(good[..|good| - 1], cdn) + (if last.0 == cdn then [last.1] else [])
  }

  /** The CDNs that receive at least one entry of `good`. */
  function Touched(good: seq<(CdnId, Entry)>): set<CdnId> {
    if good == [] then {} else Touched(good[..|good| - 1]) + {good[|good| - 1].0}
  }

  /** The lists after the appends of kabysdoh.py:415-418 alone. */
  function Appended(lists: map<CdnId, seq<Entry>>, good: seq<(CdnId, Entry)>): map<CdnId, seq<Entry>> {
    map c | c in lists :: lists[c] + Arrivals(good, c)
  }

  /** The lists after a successful update: every list that received an
      entry is tidied, the others are left alone. */
  function Refreshed(lists: map<CdnId, seq<Entry>>, good: seq<(CdnId, Entry)>, now: int): map<CdnId, seq<Entry>> {
    map c | c in lists :: if c in Touched(good) then Tidy(lists[c] + Arrivals(good, c), now) else lists[c]
  }

  lemma ArrivalsSnoc(good: seq<(CdnId, Entry)>, i: nat, cdn: CdnId)
    requires i < |good|
    ensures Arrivals(good[..i + 1], cdn) == Arrivals(good[..i], cdn) + (if good[i].0 == cdn then [good[i].1] else [])
  {
    assert good[..i + 1][..i] == good[..i];
  }

  lemma {:induction false} ArrivalsUntouched(good: seq<(CdnId, Entry)>, cdn: CdnId)
    requires cdn !in Touched(good)
    ensures Arrivals(good, cdn) == []
  {
    if good != [] {
      ArrivalsUntouched(good[..|good| - 1], cdn);
    }
  }

  /** Tidying every touched list after the appends gives `Refreshed`. */
  lemma TidiedIsRefreshed(lists: map<CdnId, seq<Entry>>, good: seq<(CdnId, Entry)>, now: int)
    ensures (map c | c in Appended(lists, good) ::
               if c in Touched(good) then Tidy(Appended(lists, good)[c], now) else Appended(lists, good)[c])
            == Refreshed(lists, good, now)
  {
    forall c | c in lists && c !in Touched(good)
      ensures lists[c] + Arrivals(good, c) == lists[c]
    {
      ArrivalsUntouched(good, c);
    }
  }

  /** Tidying the touched lists keeps every list sorted and within capacity. */
  lemma RefreshedValid(lists: map<CdnId, seq<Entry>>, good: seq<(CdnId, Entry)>, now: int)
    requires forall c :: c in lists ==> SortedDesc(lists[c]) && |lists[c]| <= Capacity
    ensures forall c :: c in Refreshed(lists, good, now) ==>
              SortedDesc(Refreshed(lists, good, now)[c]) && |Refreshed(lists, good, now)[c]| <= Capacity
  {
    forall c | c in lists && c in Touched(good)
      ensures SortedDesc(Tidy(lists[c] + Arrivals(good, c), now))
      ensures |Tidy(lists[c] + Arrivals(good, c), now)| <= Capacity
    {
      TidySpec(lists[c] + Arrivals(good, c), now);
    }
  }

  /** The appends stopped at `good[m]`, whose CDN has no list: the lists
      hold the appends of the entries before it. */
  ghost predicate StoppedAt(lists: map<CdnId, seq<Entry>>, good: seq<(CdnId, Entry)>, m: int,
                            after: map<CdnId, seq<Entry>>)
  {
    0 <= m < |good| && good[m].0 !in lists &&
    (forall k :: 0 <= k < m ==> good[k].0 in lists) &&
    after == Appended(lists, good[..m])
  }

  /** A CDN is touched exactly when some entry of `good` names it. */
  lemma {:induction false} TouchedMembers(good: seq<(CdnId, Entry)>, cdn: CdnId)
    ensures cdn in Touched(good) <==> exists i :: 0 <= i < |good| && good[i].0 == cdn
  {
    if good != [] {
      var n := |good| - 1;
      TouchedMembers(good[..n], cdn);
      assert forall i :: 0 <= i < n ==> good[..n][i] == good[i];
    }
  }

  lemma {:induction false} TouchedCovers(good: seq<(CdnId, Entry)>)
    ensures forall k :: 0 <= k < |good| ==> good[k].0 in Touched(good)
  {
    forall k | 0 <= k < |good|
      ensures good[k].0 in Touched(good)
    {
      TouchedMembers(good, good[k].0);
    }
  }

  lemma TouchedSnoc(good: seq<(CdnId, Entry)>, i: nat)
    requires i < |good|
    ensures Touched(good[..i + 1]) == Touched(good[..i]) + {good[i].0}
  {
    assert good[..i + 1][..i] == good[..i];
  }

  lemma AppendedNone(lists: map<CdnId, seq<Entry>>)
    ensures Appended(lists, []) == lists
  {
    forall c | c in lists
      ensures Appended(lists, [])[c] == lists[c]
    {
      assert lists[c] + [] == lists[c];
    }
  }

  lemma AppendedSnoc(lists: map<CdnId, seq<Entry>>, good: seq<(CdnId, Entry)>, i: nat)
    requires i < |good| && good[i].0 in lists
    ensures Appended(lists, good[..i + 1]) ==
              Appended(lists, good[..i])[good[i].0 := Appended(lists, good[..i])[good[i].0] + [good[i].1]]
  {
    var before := Appended(lists, good[..i]);
    var after := Appended(lists, good[..i + 1]);
    forall c | c in lists
      ensures after[c] == before[good[i].0 := before[good[i].0] + [good[i].1]][c]
    {
      ArrivalsSnoc(good, i, c);
    }
  }

  /** The stash lists of one family, keyed by CDN. */
  class StashGroup {
    var lists: map<CdnId, seq<Entry>>

    /** Every list is sorted and within capacity. */
    ghost predicate Valid()
      reads this
    {
      forall c :: c in lists ==> SortedDesc(lists[c]) && |lists[c]| <= Capacity
    }

    /** `d['cdn'][cdn] = []` for every cdn id of the dump (kabysdoh.py:75-76). */
    constructor(keys: set<CdnId>)
      ensures lists == map c | c in keys :: []
      ensures Valid()
    {
      lists := map c | c in keys :: [];
    }

    /** Drops the expired tail of the list of `cdn` in place and returns a
      copy of what is left (kabysdoh.py:364-370). */
    method Take(cdn: CdnId, now: int) returns (r: Result<seq<Entry>, Exc>)
      modifies this
      ensures cdn !in old(lists) ==> r == Err(KeyError) && lists == old(lists)
      ensures cdn in old(lists) ==>
                lists == old(lists)[cdn := DropExpired(old(lists)[cdn], now)] && r == Ok(lists[cdn])
      ensures lists.Keys == old(lists).Keys
      ensures old(Valid()) ==> Valid()
    {
      if cdn !in lists {
        return Err(KeyError);
      }
      var stash := lists[cdn];
      while stash != [] && stash[|stash| - 1].exp < now
        invariant DropExpired(stash, now) == DropExpired(lists[cdn], now)
        decreases |stash|
      {
        stash := stash[..|stash| - 1];
      }
      DropExpiredSpec(lists[cdn], now);
      lists := lists[cdn := stash];
      return Ok(stash);
    }

    /** Sorts the list of `cdn` latest expiry first, pops its expired
      tail and cuts it to the capacity (kabysdoh.py:420-424). */
    method TidyList(cdn: CdnId, now: int)
      requires cdn in lists
      modifies this
      ensures lists == old(lists)[cdn := Tidy(old(lists)[cdn], now)]
    {
      var stash := SortDesc(lists[cdn]);
      while stash != [] && stash[|stash| - 1].exp < now
        invariant DropExpired(stash, now) == DropExpired(SortDesc(lists[cdn]), now)
        decreases |stash|
      {
        stash := stash[..|stash| - 1];
      }
      ghost var live := stash;
      while |stash| > Capacity
        invariant (|stash| >= Capacity && stash == live[..|stash|]) || stash == live
        decreases |stash|
      {
        stash := stash[..|stash| - 1];
      }
      lists := lists[cdn := stash];
    }

    /** The append loop of kabysdoh.py:415-418: each entry goes to the end
      of the list of its CDN; a CDN without a list raises KeyError after
      the appends before it. On success returns the CDNs that received one. */
    method AppendAll(good: seq<(CdnId, Entry)>) returns (r: Result<set<CdnId>, Exc>)
      modifies this
      ensures r.Ok? <==> forall i :: 0 <= i < |good| ==> good[i].0 in old(lists)
      ensures r.Ok? ==> r.value == Touched(good) && r.value <= lists.Keys && lists == Appended(old(lists), good)
      ensures r.Err? ==> r.error == KeyError && exists m :: StoppedAt(old(lists), good, m, lists)
      ensures lists.Keys == old(lists).Keys
    {
      ghost var start := lists;
      var ls := lists;
      var i := 0;
      var touched: set<CdnId> := {};
      assert good[..0] == [];
      AppendedNone(ls);
      while i < |good|
        invariant 0 <= i <= |good|
        invariant ls == Appended(start, good[..i]) && ls.Keys == start.Keys
        invariant touched == Touched(good[..i]) && touched <= start.Keys
      {
        var c, e := good[i].0, good[i].1;
        if c !in ls {
          TouchedCovers(good[..i]);
          assert forall k :: 0 <= k < i ==> good[..i][k] == good[k];
          assert StoppedAt(start, good, i, ls);
          lists := ls;
          return Err(KeyError);
        }
        assert c in start;
        AppendedSnoc(start, good, i);
        TouchedSnoc(good, i);
        ls := ls[c := ls[c] + [e]];
        touched := touched + {c};
        i := i + 1;
      }
      assert good[..i] == good;
      TouchedCovers(good);
      lists := ls;
      return Ok(touched);
    }

    /** Tidies every list named in `keys` (kabysdoh.py:419-424). */
    method TidyAll(keys: set<CdnId>, now: int)
      requires keys <= lists.Keys
      modifies this
      ensures lists == map c | c in old(lists) :: if c in keys then Tidy(old(lists)[c], now) else old(lists)[c]
    {
      ghost var target := map c | c in lists :: if c in keys then Tidy(lists[c], now) else lists[c];
      var todo := keys;
      while todo != {}
        invariant todo <= keys
        invariant lists.Keys == target.Keys
        invariant forall c :: c in todo ==> lists[c] == old(lists)[c]
        invariant forall c :: c in lists && c !in todo ==> lists[c] == target[c]
        decreases todo
      {
        var c :| c in todo;
        TidyList(c, now);
        todo := todo - {c};
      }
    }

    /** Adds fresh replacements to the lists of their CDNs, then tidies
      every list that received one (kabysdoh.py:412-424). A cdn without a
      list raises KeyError after the appends before it. */
    method Add(good: seq<(CdnId, Entry)>, now: int) returns (r: Result<(), Exc>)
      modifies this
      ensures r.Ok? <==> forall i :: 0 <= i < |good| ==> good[i].0 in old(lists)
      ensures r.Err? ==> r.error == KeyError && exists m :: StoppedAt(old(lists), good, m, lists)
      ensures r.Ok? ==> lists == Refreshed(old(lists), good, now)
      ensures lists.Keys == old(lists).Keys
      ensures old(Valid()) && r.Ok? ==> Valid()
    {
      var appended := AppendAll(good);
      if appended.Err? {
        return Err(appended.error);
      }
      TidyAll(appended.value, now);
      TidiedIsRefreshed(old(lists), good, now);
      if old(Valid()) {
        RefreshedValid(old(lists), good, now);
      }
      return Ok(());
    }
  }
}
