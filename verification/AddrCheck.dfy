/** The address manager's own consistency check: exactly what it tests, and what it leaves open. */
module AddrCheck {
  import opened AddrTables

  // ---- what is tested ----

  /** The buckets one after the other. */
  function Flat(vvTried: seq<seq<Id>>): seq<Id> {
    if vvTried == [] then [] else Flat(vvTried[..|vvTried| - 1]) + vvTried[|vvTried| - 1]
  }

  function RefCount(mapInfo: map<Id, Info>, id: Id): int {
    if id in mapInfo && !mapInfo[id].fInTried then mapInfo[id].nRefCount else 0
  }

  /** The entry of an address; looking up one that is not there gives, and enters, number 0. */
  function LookUp(mapAddr: map<NetAddr, Id>, addr: NetAddr): Id {
    if addr in mapAddr then mapAddr[addr] else 0
  }

  predicate EntryRight(s: Tables, id: Id)
    requires id in s.mapInfo
  {
    var info := s.mapInfo[id];
    && (if info.fInTried then info.nLastSuccess != 0 && info.nRefCount == 0
        else 0 < info.nRefCount <= NEW_BUCKETS_PER_ADDRESS)
    && LookUp(s.mapAddr, info.addr) == id
    && 0 <= info.nRandomPos < |s.vRandom| && s.vRandom[info.nRandomPos] == id && info.nLastTry >= 0
    && info.nLastSuccess >= 0
  }

  /** The counts and the entries are right, each tried entry is met once in the tried buckets and nothing else is, and
      each new entry is met as often in the new buckets as it is counted and nothing else is. */
  ghost predicate Passes(s: Tables) {
    && CountsOk(s) && (forall id <- s.mapInfo :: EntryRight(s, id))
    && Distinct(Flat(s.vvTried)) && Elements(Flat(s.vvTried)) == TriedIds(s.mapInfo)
    && forall id :: Holders(s.vvNew, id) == RefCount(s.mapInfo, id)
  }

  function Elements(ids: seq<Id>): set<Id> {
    set i | 0 <= i < |ids| :: ids[i]
  }

  predicate IsEntrys(s: Tables, a: NetAddr) {
    exists id :: id in s.mapInfo && s.mapInfo[id].addr == a
  }

  /** `more` is `mapAddr` after addresses of entries that were not there have been looked up. */
  ghost predicate LookedUp(s: Tables, more: map<NetAddr, Id>) {
    && (forall a <- s.mapAddr :: a in more && more[a] == s.mapAddr[a])
    && (forall a <- more :: a in s.mapAddr || (more[a] == 0 && IsEntrys(s, a)))
  }

  /** Which makes no difference to the self-check, and none at all in a consistent manager. */
  lemma LookingUpTestsAlike(s: Tables, t: Tables)
    requires LookedUp(s, t.mapAddr) && t == s.(mapAddr := t.mapAddr)
    ensures Passes(t) <==> Passes(s)
  {
    hide Distinct, Elements, TriedIds, NewIds, Flat, Holders;
    forall id | id in s.mapInfo ensures EntryRight(t, id) == EntryRight(s, id) {
    }
  }

  lemma NothingLookedUp(s: Tables, more: map<NetAddr, Id>, h: Hashes)
    requires Consistent(s, h, NOBODY) && LookedUp(s, more)
    ensures more == s.mapAddr
  {
    hide RandomOk, CountsOk, RefsOk, NewOk, TriedOk;
  }

  /** The first fault found, or 0 exactly if there is none. On the way addresses are looked up. */
  method Check(s: Tables) returns (err: int, mapAddr: map<NetAddr, Id>)
    ensures err == 0 <==> Passes(s)
    ensures LookedUp(s, mapAddr)
    ensures err == 0 ==> forall id <- s.mapInfo :: s.mapInfo[id].addr in mapAddr
  {
    hide Distinct, Elements, RefCounts, TriedIds, NewIds, EntryRight, Flat, Holders;
    mapAddr := s.mapAddr;
    if |s.vRandom| != s.nTried + s.nNew {
      return -7, mapAddr;
    }
    var setTried, mapNew;
    err, setTried, mapNew, mapAddr := CheckEntries(s);
    if err != 0 {
      return;
    }
    if |setTried| != s.nTried {
      return -9, mapAddr;
    }
    if |mapNew| != s.nNew {
      return -10, mapAddr;
    }
    err, setTried := CheckTried(s, setTried);
    if err != 0 {
      return;
    }
    CountsAre(s);
    err, mapNew := CheckNew(s, mapNew);
    if err != 0 {
      return;
    }
    AllCounted(s, mapNew);
    if setTried != {} {
      return -13, mapAddr;
    }
    if mapNew != map[] {
      return -15, mapAddr;
    }
    err := 0;
  }

  // ---- what is left open ----

  /** What the self-check does not look at: identifiers not yet given, whether the address of entry 0 is there at all,
      addresses that lead nowhere, and the number, the sizes and the places of buckets. */
  ghost predicate Untested(s: Tables, h: Hashes) {
    && IdsOk(s) && (0 in s.mapInfo ==> s.mapInfo[0].addr in s.mapAddr)
    && (forall a <- s.mapAddr :: s.mapAddr[a] in s.mapInfo && s.mapInfo[s.mapAddr[a]].addr == a)
    && |s.vvNew| == NEW_BUCKET_COUNT && (forall b :: 0 <= b < |s.vvNew| ==> |s.vvNew[b]| <= NEW_BUCKET_SIZE)
    && |s.vvTried| == TRIED_BUCKET_COUNT && (forall b :: 0 <= b < |s.vvTried| ==> |s.vvTried[b]| <= TRIED_BUCKET_SIZE)
    && forall b, id :: 0 <= b < |s.vvTried| && id in s.vvTried[b] && id in s.mapInfo ==>
         TriedBucket(h, s.mapInfo[id]) == b
  }

  /** A manager is consistent exactly if it passes the self-check and what that leaves open is in order too. That
      `vRandom` lists every entry once need not be tested the other way round: it follows by counting. */
  lemma WhatIsTested(s: Tables, h: Hashes)
    ensures Consistent(s, h, NOBODY) <==> Passes(s) && Untested(s, h)
  {
    hide Consistent, Passes, Untested;
    if Consistent(s, h, NOBODY) {
      ConsistentPasses(s, h);
    }
    if Passes(s) && Untested(s, h) {
      PassesConsistent(s, h);
    }
  }

  lemma ConsistentPasses(s: Tables, h: Hashes)
    requires Consistent(s, h, NOBODY)
    ensures Passes(s) && Untested(s, h)
  {
    hide Distinct, Elements, TriedIds, NewIds, Flat, Holders, TriedBucket;
    forall id | id in s.mapInfo ensures EntryRight(s, id) {
      assert RefOk(s, NOBODY, id);
    }
    forall id ensures Holders(s.vvNew, id) == RefCount(s.mapInfo, id) {
      if id in s.mapInfo {
        assert RefOk(s, NOBODY, id);
      } else {
        NobodyHolds(s, id);
      }
    }
    FlatOfPlaces(s, h, |s.vvTried|);
    assert s.vvTried[..|s.vvTried|] == s.vvTried;
    TriedAreMet(s, h);
  }

  lemma {:induction false} NobodyHolds(s: Tables, id: Id)
    requires NewOk(s) && id !in s.mapInfo
    ensures Holders(s.vvNew, id) == 0
  {
    HoldersZero(s.vvNew, id);
    forall b | 0 <= b < |s.vvNew| ensures id !in s.vvNew[b] {
      assert id !in s.mapInfo.Keys;
    }
  }

  /** `id` is in one of the first `n` buckets. */
  ghost predicate InFirst(vv: seq<seq<Id>>, n: nat, id: Id)
    requires n <= |vv|
  {
    exists b :: 0 <= b < n && id in vv[b]
  }

  lemma {:induction false} FlatHolds(vv: seq<seq<Id>>, n: nat, id: Id)
    requires n <= |vv|
    ensures id in Flat(vv[..n]) <==> InFirst(vv, n, id)
    decreases n
  {
    if n > 0 {
      FlatStep(vv, n - 1);
      FlatHolds(vv, n - 1, id);
      assert InFirst(vv, n, id) <==> InFirst(vv, n - 1, id) || id in vv[n - 1];
    } else {
      NothingMet();
      assert vv[..0] == [];
    }
  }

  lemma {:induction false} FlatOfPlaces(s: Tables, h: Hashes, n: nat)
    requires TriedOk(s, h) && n <= |s.vvTried|
    ensures Distinct(Flat(s.vvTried[..n]))
    decreases n
  {
    hide TriedBucket, Flat, Distinct;
    if n > 0 {
      FlatStep(s.vvTried, n - 1);
      FlatOfPlaces(s, h, n - 1);
      var bucket := s.vvTried[n - 1];
      forall k | 0 <= k < |bucket| ensures bucket[k] !in Flat(s.vvTried[..n - 1]) {
        var id := bucket[k];
        assert TriedBucket(h, s.mapInfo[id]) == n - 1;
        FlatHolds(s.vvTried, n - 1, id);
      }
      DistinctParts(Flat(s.vvTried[..n - 1]), bucket);
    } else {
      NothingMet();
      assert s.vvTried[..0] == [];
    }
  }

  lemma DistinctParts(a: seq<Id>, b: seq<Id>)
    ensures Distinct(a + b) <==> Distinct(a) && Distinct(b) && forall k :: 0 <= k < |b| ==> b[k] !in a
  {
    var c := a + b;
    if Distinct(c) {
      assert forall i :: 0 <= i < |b| ==> b[i] == c[|a| + i];
      assert forall i :: 0 <= i < |a| ==> a[i] == c[i];
      forall k | 0 <= k < |b| ensures b[k] !in a {
        assert b[k] == c[|a| + k];
      }
    }
  }

  lemma TriedAreMet(s: Tables, h: Hashes)
    requires TriedOk(s, h)
    ensures Elements(Flat(s.vvTried)) == TriedIds(s.mapInfo)
  {
    hide Flat, Distinct, TriedBucket;
    assert s.vvTried[..|s.vvTried|] == s.vvTried;
    forall id ensures id in Elements(Flat(s.vvTried)) <==> id in TriedIds(s.mapInfo) {
      ElementsAre(Flat(s.vvTried), id);
      FlatHolds(s.vvTried, |s.vvTried|, id);
      if id in s.mapInfo && s.mapInfo[id].fInTried {
        assert id in s.vvTried[TriedBucket(h, s.mapInfo[id])];
      }
    }
  }

  lemma ElementsAre(ids: seq<Id>, id: Id)
    ensures id in Elements(ids) <==> id in ids
  {
  }

  lemma PassesConsistent(s: Tables, h: Hashes)
    requires Passes(s) && Untested(s, h)
    ensures Consistent(s, h, NOBODY)
  {
    hide Distinct, Elements, TriedIds, NewIds, Flat, Holders, TriedBucket;
    RandomFollows(s);
    forall id | id in s.mapInfo ensures RefOk(s, NOBODY, id) && StatOk(s.mapInfo[id]) {
      assert EntryRight(s, id) && 0 <= id;
    }
    HeldAreKnown(s);
    TriedFollows(s, h);
  }

  lemma HeldAreKnown(s: Tables)
    requires Passes(s)
    ensures forall b :: 0 <= b < |s.vvNew| ==> s.vvNew[b] <= s.mapInfo.Keys
  {
    forall b | 0 <= b < |s.vvNew| ensures s.vvNew[b] <= s.mapInfo.Keys {
      forall id | id in s.vvNew[b] ensures id in s.mapInfo.Keys {
        HoldersZero(s.vvNew, id);
        assert RefCount(s.mapInfo, id) != 0;
      }
    }
  }

  lemma TriedFollows(s: Tables, h: Hashes)
    requires Passes(s) && Untested(s, h)
    ensures TriedOk(s, h)
  {
    hide Flat, Distinct, TriedBucket, Elements, Holders, CountsOk, EntryRight, IdsOk;
    assert s.vvTried[..|s.vvTried|] == s.vvTried;
    forall b | 0 <= b < |s.vvTried| ensures Distinct(s.vvTried[b]) {
      FlatPrefix(s.vvTried, b, |s.vvTried[b]|);
      PartMetOnce(Elements(Flat(s.vvTried)), Flat(s.vvTried[..b]) + s.vvTried[b][..|s.vvTried[b]|], Flat(s.vvTried));
      assert s.vvTried[b][..|s.vvTried[b]|] == s.vvTried[b];
      DistinctParts(Flat(s.vvTried[..b]), s.vvTried[b]);
    }
    forall id ensures id in TriedIds(s.mapInfo) <==> InFirst(s.vvTried, |s.vvTried|, id) {
      ElementsAre(Flat(s.vvTried), id);
      FlatHolds(s.vvTried, |s.vvTried|, id);
    }
    forall b, id | 0 <= b < |s.vvTried| && id in s.vvTried[b]
      ensures id in s.mapInfo && s.mapInfo[id].fInTried && TriedBucket(h, s.mapInfo[id]) == b
    {
      assert InFirst(s.vvTried, |s.vvTried|, id) && id in TriedIds(s.mapInfo);
    }
    forall id | id in s.mapInfo && s.mapInfo[id].fInTried ensures id in s.vvTried[TriedBucket(h, s.mapInfo[id])] {
      assert id in TriedIds(s.mapInfo);
      var b :| 0 <= b < |s.vvTried| && id in s.vvTried[b];
    }
  }

  /** As many places as entries, and each entry in its own: so each place is taken. */
  lemma RandomFollows(s: Tables)
    requires CountsOk(s) && forall id <- s.mapInfo :: EntryRight(s, id)
    ensures RandomOk(s)
  {
    hide TriedIds, NewIds;
    var ids := s.mapInfo.Keys;
    forall id | id in ids
      ensures 0 <= s.mapInfo[id].nRandomPos < |s.vRandom| && s.vRandom[s.mapInfo[id].nRandomPos] == id
    {
      assert EntryRight(s, id);
    }
    hide EntryRight;
    TriedOrNew(s.mapInfo);
    EveryPlace(s.mapInfo, s.vRandom);
  }

  lemma EveryPlace(m: map<Id, Info>, v: seq<Id>)
    requires |v| == |m.Keys| && forall id :: id in m.Keys ==> 0 <= m[id].nRandomPos < |v| && v[m[id].nRandomPos] == id
    ensures forall i :: 0 <= i < |v| ==> v[i] in m && m[v[i]].nRandomPos == i
  {
    hide Places;
    var places := Places(m, m.Keys);
    PlaceEach(m, v, m.Keys);
    AllBelow(|v|);
    assert places <= Below(|v|) by {
      forall p | p in places ensures p in Below(|v|) {
      }
    }
    SubsetSameSize(places, Below(|v|));
    forall i | 0 <= i < |v| ensures v[i] in m && m[v[i]].nRandomPos == i {
      assert i in places;
      assert v[i] in m.Keys;
    }
  }

  lemma TriedOrNew(m: map<Id, Info>)
    ensures |m.Keys| == |TriedIds(m)| + |NewIds(m)|
  {
    assert m.Keys == TriedIds(m) + NewIds(m) && TriedIds(m) !! NewIds(m);
  }

  function Places(m: map<Id, Info>, ids: set<Id>): set<int>
    requires ids <= m.Keys
  {
    set id | id in ids :: m[id].nRandomPos
  }

  lemma {:induction false} PlaceEach(m: map<Id, Info>, v: seq<Id>, ids: set<Id>)
    requires ids <= m.Keys && forall id :: id in ids ==> 0 <= m[id].nRandomPos < |v| && v[m[id].nRandomPos] == id
    ensures |Places(m, ids)| == |ids|
    ensures forall p :: p in Places(m, ids) ==> 0 <= p < |v| && v[p] in ids && m[v[p]].nRandomPos == p
    decreases |ids|
  {
    if ids != {} {
      var x := Any(ids);
      var rest := ids - {x};
      PlaceEach(m, v, rest);
      assert ids == rest + {x};
      assert Places(m, ids) == Places(m, rest) + {m[x].nRandomPos};
      assert m[x].nRandomPos !in Places(m, rest);
    }
  }

  function Below(n: nat): set<int> {
    if n == 0 then {} else Below(n - 1) + {n - 1}
  }

  lemma {:induction false} AllBelow(n: nat)
    ensures |Below(n)| == n && forall i :: i in Below(n) <==> 0 <= i < n
  {
    if n > 0 {
      AllBelow(n - 1);
    }
  }

  lemma SubsetSameSize(a: set<int>, b: set<int>)
    requires a <= b && |a| == |b|
    ensures a == b
  {
    assert b == a + (b - a) && |b - a| == 0;
  }

  // ---- an inconsistent manager that passes ----

  function CrowdEntry(id: nat): Info {
    Info(id, 0, 0, 1, 0, 0, 0, 0, 1, false, id)
  }

  /** `n` new entries, all of them in the first new bucket. */
  function Crowd(n: nat): Tables {
    Tables(n, map id | id in Below(n) :: CrowdEntry(id), map a: NetAddr | a in Below(n) :: a, seq(n, i => i),
           0, seq(TRIED_BUCKET_COUNT, _ => []), n, seq(NEW_BUCKET_COUNT, b => if b == 0 then Below(n) else {}))
  }

  /** However many they are, the self-check passes; it does not look at the size of a bucket. */
  lemma CrowdPasses(n: nat, h: Hashes)
    ensures Passes(Crowd(n)) && (Consistent(Crowd(n), h, NOBODY) <==> n <= 64)
  {
    hide Consistent, Passes;
    CrowdTested(n);
    CrowdUntested(n, h);
    WhatIsTested(Crowd(n), h);
  }

  lemma CrowdTested(n: nat)
    ensures Passes(Crowd(n))
  {
    hide Flat, Holders, Distinct;
    var s := Crowd(n);
    AllBelow(n);
    assert NewIds(s.mapInfo) == Below(n) && TriedIds(s.mapInfo) == {};
    NothingFlat(s.vvTried);
    forall id ensures Holders(s.vvNew, id) == RefCount(s.mapInfo, id) {
      HeldOnce(s.vvNew, id);
    }
  }

  lemma CrowdUntested(n: nat, h: Hashes)
    ensures Untested(Crowd(n), h) <==> n <= NEW_BUCKET_SIZE
  {
    AllBelow(n);
    assert |Crowd(n).vvNew[0]| == n;
  }

  lemma {:induction false} NothingFlat(vv: seq<seq<Id>>)
    requires forall b :: 0 <= b < |vv| ==> vv[b] == []
    ensures Flat(vv) == [] && Distinct(Flat(vv)) && Elements(Flat(vv)) == {}
  {
    if vv != [] {
      NothingFlat(vv[..|vv| - 1]);
    }
  }

  lemma {:induction false} HeldOnce(vvNew: seq<set<Id>>, id: Id)
    requires vvNew != [] && forall b :: 0 < b < |vvNew| ==> vvNew[b] == {}
    ensures Holders(vvNew, id) == if id in vvNew[0] then 1 else 0
  {
    var k := |vvNew| - 1;
    if k > 0 {
      HeldOnce(vvNew[..k], id);
    } else {
      assert vvNew[..0] == [];
    }
  }

  // ---- the entries ----

  /** How often each new entry is counted. */
  function RefCounts(mapInfo: map<Id, Info>): map<Id, int> {
    map id | id in mapInfo && !mapInfo[id].fInTried :: mapInfo[id].nRefCount
  }

  function TriedAmong(mapInfo: map<Id, Info>, ids: seq<Id>): set<Id> {
    set id | id in mapInfo && mapInfo[id].fInTried && id in ids
  }

  function CountsAmong(mapInfo: map<Id, Info>, ids: seq<Id>): map<Id, int> {
    map id | id in mapInfo && !mapInfo[id].fInTried && id in ids :: mapInfo[id].nRefCount
  }

  method CheckEntries(s: Tables)
    returns (err: int, setTried: set<Id>, mapNew: map<Id, int>, mapAddr: map<NetAddr, Id>)
    ensures err == 0 <==> forall id <- s.mapInfo :: EntryRight(s, id)
    ensures err == 0 ==> setTried == TriedIds(s.mapInfo) && mapNew == RefCounts(s.mapInfo)
    ensures err == 0 ==> |mapNew| == |NewIds(s.mapInfo)|
    ensures LookedUp(s, mapAddr)
    ensures err == 0 ==> forall id <- s.mapInfo :: s.mapInfo[id].addr in mapAddr
  {
    hide EntryRight, LookedUp;
    var order := InOrder(s.mapInfo.Keys);
    setTried, mapNew, mapAddr := {}, map[], s.mapAddr;
    NoneLookedUp(s);
    var i := 0;
    while i < |order|
      invariant i <= |order| && LookedUp(s, mapAddr)
      invariant forall k :: 0 <= k < i ==>
                  order[k] in s.mapInfo && EntryRight(s, order[k]) && s.mapInfo[order[k]].addr in mapAddr
      invariant setTried == TriedAmong(s.mapInfo, order[..i]) && mapNew == CountsAmong(s.mapInfo, order[..i])
    {
      var n := order[i];
      assert n in s.mapInfo;
      err, mapAddr := CheckEntry(s, n, mapAddr);
      if err != 0 {
        return;
      }
      assert order[..i + 1] == order[..i] + [n];
      OneMoreAmong(s.mapInfo, order[..i], n);
      if s.mapInfo[n].fInTried {
        setTried := setTried + {n};
      } else {
        mapNew := mapNew[n := s.mapInfo[n].nRefCount];
      }
      i := i + 1;
    }
    assert order[..i] == order;
    err := 0;
    forall id | id in s.mapInfo ensures EntryRight(s, id) && s.mapInfo[id].addr in mapAddr {
      assert id in s.mapInfo.Keys;
    }
    AllAmong(s.mapInfo, order);
  }

  lemma NoneLookedUp(s: Tables)
    ensures LookedUp(s, s.mapAddr)
  {
  }

  method CheckEntry(s: Tables, n: Id, known: map<NetAddr, Id>) returns (err: int, mapAddr: map<NetAddr, Id>)
    requires n in s.mapInfo && LookedUp(s, known)
    ensures err == 0 <==> EntryRight(s, n)
    ensures LookedUp(s, mapAddr) && (forall a <- known :: a in mapAddr)
    ensures err == 0 ==> s.mapInfo[n].addr in mapAddr
  {
    mapAddr := known;
    var info := s.mapInfo[n];
    if info.fInTried {
      if info.nLastSuccess == 0 {
        return -1, mapAddr;
      }
      if info.nRefCount != 0 {
        return -2, mapAddr;
      }
    } else {
      if info.nRefCount < 0 || info.nRefCount > NEW_BUCKETS_PER_ADDRESS {
        return -3, mapAddr;
      }
      if info.nRefCount == 0 {
        return -4, mapAddr;
      }
    }
    if info.addr !in mapAddr {
      mapAddr := mapAddr[info.addr := 0];
    }
    if mapAddr[info.addr] != n {
      return -5, mapAddr;
    }
    if info.nRandomPos < 0 || info.nRandomPos >= |s.vRandom| || s.vRandom[info.nRandomPos] != n {
      return -14, mapAddr;
    }
    if info.nLastTry < 0 {
      return -6, mapAddr;
    }
    if info.nLastSuccess < 0 {
      return -8, mapAddr;
    }
    err := 0;
  }

  lemma OneMoreAmong(m: map<Id, Info>, ids: seq<Id>, n: Id)
    requires n in m
    ensures TriedAmong(m, ids + [n]) == TriedAmong(m, ids) + if m[n].fInTried then {n} else {}
    ensures CountsAmong(m, ids + [n])
              == if m[n].fInTried then CountsAmong(m, ids) else CountsAmong(m, ids)[n := m[n].nRefCount]
  {
    forall id ensures id in ids + [n] <==> id in ids || id == n {
    }
  }

  lemma AllAmong(m: map<Id, Info>, order: seq<Id>)
    requires forall id :: id in m.Keys ==> id in order
    ensures TriedAmong(m, order) == TriedIds(m) && CountsAmong(m, order) == RefCounts(m)
    ensures |RefCounts(m)| == |NewIds(m)|
  {
    forall id | id in m ensures id in order {
      assert id in m.Keys;
    }
    assert RefCounts(m).Keys == NewIds(m);
    assert |RefCounts(m)| == |RefCounts(m).Keys|;
  }

  // ---- tried buckets ----

  method CheckTried(s: Tables, all: set<Id>) returns (err: int, setTried: set<Id>)
    ensures err == 0 <==> Distinct(Flat(s.vvTried)) && Elements(Flat(s.vvTried)) <= all
    ensures err == 0 ==> setTried == all - Elements(Flat(s.vvTried))
  {
    hide Distinct, Elements, Flat;
    setTried := all;
    NothingMet();
    var n := 0;
    while n < |s.vvTried|
      invariant n <= |s.vvTried|
      invariant MetOnce(all, setTried, Flat(s.vvTried[..n]))
    {
      FlatStep(s.vvTried, n);
      ghost var before := Flat(s.vvTried[..n]);
      var j := 0;
      assert before + s.vvTried[n][..0] == before;
      while j < |s.vvTried[n]|
        invariant j <= |s.vvTried[n]|
        invariant MetOnce(all, setTried, before + s.vvTried[n][..j])
      {
        var id := s.vvTried[n][j];
        ghost var met := before + s.vvTried[n][..j];
        assert before + s.vvTried[n][..j + 1] == met + [id];
        MeetOne(all, setTried, met, id);
        if id !in setTried {
          FlatPrefix(s.vvTried, n, j + 1);
          PartMetOnce(all, met + [id], Flat(s.vvTried));
          return -11, setTried;
        }
        setTried := setTried - {id};
        j := j + 1;
      }
      assert s.vvTried[n][..j] == s.vvTried[n];
      n := n + 1;
    }
    assert s.vvTried[..n] == s.vvTried;
    err := 0;
  }

  /** Those of `all` not among `met`, in which nothing comes twice and nothing else, are left. */
  ghost predicate MetOnce(all: set<Id>, left: set<Id>, met: seq<Id>) {
    Distinct(met) && Elements(met) <= all && left == all - Elements(met)
  }

  lemma NothingMet()
    ensures Distinct([]) && Elements([]) == {} && Flat([]) == []
  {
  }

  lemma MeetOne(all: set<Id>, left: set<Id>, met: seq<Id>, id: Id)
    requires MetOnce(all, left, met)
    ensures if id in left then MetOnce(all, left - {id}, met + [id])
            else !(Distinct(met + [id]) && Elements(met + [id]) <= all)
  {
    var more := met + [id];
    assert more[|met|] == id && id in Elements(more);
    forall x ensures x in Elements(more) <==> x in Elements(met) || x == id {
      if x in Elements(met) {
        var i :| 0 <= i < |met| && met[i] == x;
        assert more[i] == x;
      }
    }
    if id in Elements(met) {
      var i :| 0 <= i < |met| && met[i] == id;
      assert more[i] == more[|met|];
    }
  }

  lemma PartMetOnce(all: set<Id>, some: seq<Id>, ids: seq<Id>)
    requires some <= ids
    ensures Distinct(ids) && Elements(ids) <= all ==> Distinct(some) && Elements(some) <= all
  {
    if Distinct(ids) && Elements(ids) <= all {
      forall x | x in Elements(some) ensures x in all {
        var i :| 0 <= i < |some| && some[i] == x;
        assert ids[i] == x && x in Elements(ids);
      }
      assert forall i :: 0 <= i < |some| ==> some[i] == ids[i];
    }
  }

  lemma FlatStep(vv: seq<seq<Id>>, n: nat)
    requires n < |vv|
    ensures Flat(vv[..n + 1]) == Flat(vv[..n]) + vv[n]
  {
    assert vv[..n + 1][..n] == vv[..n];
  }

  lemma {:induction false} FlatGrows(vv: seq<seq<Id>>, n: nat)
    requires n <= |vv|
    ensures Flat(vv[..n]) <= Flat(vv)
    decreases |vv|
  {
    if n == |vv| {
      assert vv[..n] == vv;
    } else {
      var k := |vv| - 1;
      FlatGrows(vv[..k], n);
      assert vv[..k][..n] == vv[..n];
    }
  }

  lemma {:induction false} FlatPrefix(vv: seq<seq<Id>>, n: nat, j: nat)
    requires n < |vv| && j <= |vv[n]|
    ensures Flat(vv[..n]) + vv[n][..j] <= Flat(vv)
  {
    FlatStep(vv, n);
    FlatGrows(vv, n + 1);
  }

  // ---- new buckets ----

  function Count(counts: map<Id, int>, id: Id): int {
    if id in counts then counts[id] else 0
  }

  /** What is left of the counts once each entry has been met as often as `met` says. */
  ghost predicate LeftOf(all: map<Id, int>, left: map<Id, int>, met: Id -> int) {
    forall id :: (id in left <==> Count(left, id) > 0) && Count(left, id) == Count(all, id) - met(id)
      && Count(left, id) >= 0
  }

  /** How often an entry has been met in the first `n` buckets and the first `j` of the next one. */
  function Met(vvNew: seq<set<Id>>, n: nat, order: seq<Id>, j: nat): Id -> int
    requires n <= |vvNew| && j <= |order|
  {
    id => Holders(vvNew[..n], id) + if id in order[..j] then 1 else 0
  }

  method CheckNew(s: Tables, all: map<Id, int>) returns (err: int, mapNew: map<Id, int>)
    requires forall id <- s.mapInfo :: EntryRight(s, id)
    requires all == RefCounts(s.mapInfo)
    ensures err == 0 <==> forall id :: Holders(s.vvNew, id) <= Count(all, id)
    ensures err == 0 ==> forall id :: (id in mapNew <==> Count(all, id) > Holders(s.vvNew, id))
  {
    hide LeftOf, Holders, EntryRight;
    mapNew := all;
    AllLeft(s, all);
    var n := 0;
    while n < |s.vvNew|
      invariant n <= |s.vvNew| && LeftOf(all, mapNew, Met(s.vvNew, n, [], 0))
    {
      var order := InOrder(s.vvNew[n]);
      var j := 0;
      OtherOrder(s.vvNew, n, order, all, mapNew);
      while j < |order|
        invariant j <= |order| && LeftOf(all, mapNew, Met(s.vvNew, n, order, j))
      {
        var id := order[j];
        MeetNew(s.vvNew, n, order, j, all, mapNew);
        if id !in mapNew {
          MetTooOften(s.vvNew, n, order, j, all, mapNew);
          return -12, mapNew;
        }
        mapNew := mapNew[id := mapNew[id] - 1];
        if mapNew[id] == 0 {
          mapNew := mapNew - {id};
        }
        j := j + 1;
      }
      BucketMet(s.vvNew, n, order, all, mapNew);
      n := n + 1;
    }
    AllMet(s.vvNew, all, mapNew);
    err := 0;
  }

  lemma AllLeft(s: Tables, all: map<Id, int>)
    requires (forall id <- s.mapInfo :: EntryRight(s, id)) && all == RefCounts(s.mapInfo)
    ensures LeftOf(all, all, Met(s.vvNew, 0, [], 0))
  {
    assert s.vvNew[..0] == [];
    forall id ensures (id in all <==> Count(all, id) > 0) && Count(all, id) >= 0 {
      assert id in all ==> id in s.mapInfo && EntryRight(s, id);
    }
  }

  lemma OtherOrder(vvNew: seq<set<Id>>, n: nat, order: seq<Id>, all: map<Id, int>, left: map<Id, int>)
    requires n <= |vvNew| && LeftOf(all, left, Met(vvNew, n, [], 0))
    ensures LeftOf(all, left, Met(vvNew, n, order, 0))
  {
    forall id ensures Met(vvNew, n, order, 0)(id) == Met(vvNew, n, [], 0)(id) {
    }
  }

  /** After one more reference to `id` was met. */
  function Counted(mapNew: map<Id, int>, id: Id): map<Id, int>
    requires id in mapNew
  {
    if mapNew[id] - 1 == 0 then mapNew[id := mapNew[id] - 1] - {id} else mapNew[id := mapNew[id] - 1]
  }

  lemma MeetNew(vvNew: seq<set<Id>>, n: nat, order: seq<Id>, j: nat, all: map<Id, int>, left: map<Id, int>)
    requires n < |vvNew| && j < |order| && LeftOf(all, left, Met(vvNew, n, order, j))
    requires forall i, k :: 0 <= i < k < |order| ==> order[i] < order[k]
    ensures order[j] in left ==> LeftOf(all, Counted(left, order[j]), Met(vvNew, n, order, j + 1))
  {
    hide Holders;
    var id := order[j];
    assert id !in order[..j] && order[..j + 1] == order[..j] + [id];
    if id in left {
      var after := Counted(left, id);
      forall x ensures Met(vvNew, n, order, j + 1)(x) == Met(vvNew, n, order, j)(x) + if x == id then 1 else 0 {
        assert x in order[..j + 1] <==> x in order[..j] || x == id;
      }
      forall x
        ensures Count(after, x) == Count(left, x) - (if x == id then 1 else 0) && (x in after <==> Count(after, x) > 0)
      {
        assert Count(left, x) == Count(all, x) - Met(vvNew, n, order, j)(x);
        assert x in left <==> Count(left, x) > 0;
      }
    }
  }

  lemma {:induction false} MetTooOften(vvNew: seq<set<Id>>, n: nat, order: seq<Id>, j: nat, all: map<Id, int>,
                                       left: map<Id, int>)
    requires n < |vvNew| && j < |order| && LeftOf(all, left, Met(vvNew, n, order, j)) && order[j] !in left
    requires order[j] in vvNew[n] && forall i, k :: 0 <= i < k < |order| ==> order[i] < order[k]
    ensures Holders(vvNew, order[j]) > Count(all, order[j])
  {
    var id := order[j];
    assert id !in order[..j] && Count(left, id) == Count(all, id) - Met(vvNew, n, order, j)(id);
    HoldersGrow(vvNew, n + 1, id);
    assert vvNew[..n + 1][..n] == vvNew[..n];
  }

  lemma BucketMet(vvNew: seq<set<Id>>, n: nat, order: seq<Id>, all: map<Id, int>, left: map<Id, int>)
    requires n < |vvNew| && LeftOf(all, left, Met(vvNew, n, order, |order|))
    requires (forall i :: 0 <= i < |order| ==> order[i] in vvNew[n]) && forall x :: x in vvNew[n] ==> x in order
    ensures LeftOf(all, left, Met(vvNew, n + 1, [], 0))
  {
    assert vvNew[..n + 1][..n] == vvNew[..n];
    forall id ensures Met(vvNew, n + 1, [], 0)(id) == Met(vvNew, n, order, |order|)(id) {
      assert id in order <==> id in vvNew[n];
      assert order[..|order|] == order;
    }
    hide Holders, Met;
    forall id ensures Count(left, id) == Count(all, id) - Met(vvNew, n + 1, [], 0)(id) {
      assert Count(left, id) == Count(all, id) - Met(vvNew, n, order, |order|)(id);
    }
  }

  lemma {:induction false} AllMet(vvNew: seq<set<Id>>, all: map<Id, int>, left: map<Id, int>)
    requires LeftOf(all, left, Met(vvNew, |vvNew|, [], 0))
    ensures forall id :: Holders(vvNew, id) <= Count(all, id) && (id in left <==> Count(all, id) > Holders(vvNew, id))
  {
    hide Holders;
    assert vvNew[..|vvNew|] == vvNew;
    forall id ensures Holders(vvNew, id) <= Count(all, id) && (id in left <==> Count(all, id) > Holders(vvNew, id)) {
      assert Count(left, id) == Count(all, id) - Met(vvNew, |vvNew|, [], 0)(id);
    }
  }

  lemma {:induction false} HoldersGrow(vvNew: seq<set<Id>>, n: nat, id: Id)
    requires n <= |vvNew|
    ensures Holders(vvNew[..n], id) <= Holders(vvNew, id)
    decreases |vvNew|
  {
    if n == |vvNew| {
      assert vvNew[..n] == vvNew;
    } else {
      var k := |vvNew| - 1;
      HoldersGrow(vvNew[..k], n, id);
      assert vvNew[..k][..n] == vvNew[..n];
    }
  }

  lemma AllCounted(s: Tables, mapNew: map<Id, int>)
    requires forall id :: Holders(s.vvNew, id) <= Count(RefCounts(s.mapInfo), id)
    requires forall id :: (id in mapNew <==> Count(RefCounts(s.mapInfo), id) > Holders(s.vvNew, id))
    ensures mapNew == map[] <==> forall id :: Holders(s.vvNew, id) == RefCount(s.mapInfo, id)
  {
    hide Holders;
    CountsAre(s);
    if mapNew != map[] {
      assert mapNew.Keys != {};
      var id := Any(mapNew.Keys);
      assert Holders(s.vvNew, id) != RefCount(s.mapInfo, id);
    } else {
      forall id ensures Holders(s.vvNew, id) == RefCount(s.mapInfo, id) {
        assert id !in mapNew;
      }
    }
  }

  lemma CountsAre(s: Tables)
    ensures forall id :: Count(RefCounts(s.mapInfo), id) == RefCount(s.mapInfo, id)
  {
  }
}
