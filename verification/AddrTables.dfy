/** The address manager's tables as a value, their invariant, and what the basic changes do to it. */
module AddrTables {

  const TRIED_BUCKET_COUNT: nat := 64
  const TRIED_BUCKET_SIZE: nat := 64
  const NEW_BUCKET_COUNT: nat := 256
  const NEW_BUCKET_SIZE: nat := 64
  const NEW_BUCKETS_PER_ADDRESS: nat := 4

  /** A network address without port. */
  type NetAddr = nat

  /** Identifies an entry; never given twice. */
  type Id = int

  datatype Info = Info(
    addr: NetAddr, port: nat, nServices: bv64, nTime: nat, nLastTry: int,
    source: NetAddr, nLastSuccess: int, nAttempts: int,
    nRefCount: int, fInTried: bool, nRandomPos: int)

  datatype Tables = Tables(
    nIdCount: int, mapInfo: map<Id, Info>, mapAddr: map<NetAddr, Id>, vRandom: seq<Id>,
    nTried: int, vvTried: seq<seq<Id>>, nNew: int, vvNew: seq<set<Id>>)

  /** The secret hashes that choose buckets: of an address with port, and of an address and the source that told of it.
      */
  datatype Hashes = Hashes(triedHash: (NetAddr, nat) -> nat, newHash: (NetAddr, NetAddr) -> nat)

  function TriedBucket(h: Hashes, info: Info): (b: nat)
    ensures b < TRIED_BUCKET_COUNT
  {
    h.triedHash(info.addr, info.port) % TRIED_BUCKET_COUNT
  }

  function NewBucket(h: Hashes, info: Info, source: NetAddr): (b: nat)
    ensures b < NEW_BUCKET_COUNT
  {
    h.newHash(info.addr, source) % NEW_BUCKET_COUNT
  }

  /** There are 64 tried buckets and 256 new ones. */
  lemma BucketsAre(h: Hashes, info: Info, source: NetAddr)
    ensures TriedBucket(h, info) == h.triedHash(info.addr, info.port) % 64
    ensures NewBucket(h, info, source) == h.newHash(info.addr, source) % 256
  {
  }

  // ---- the invariant ----

  /** In how many of the buckets `id` is. */
  function Holders(vvNew: seq<set<Id>>, id: Id): nat {
    if vvNew == [] then 0
    else Holders(vvNew[..|vvNew| - 1], id) + if id in vvNew[|vvNew| - 1] then 1 else 0
  }

  function TriedIds(mapInfo: map<Id, Info>): set<Id> {
    set id | id in mapInfo && mapInfo[id].fInTried
  }

  function NewIds(mapInfo: map<Id, Info>): set<Id> {
    set id | id in mapInfo && !mapInfo[id].fInTried
  }

  ghost predicate IdsOk(s: Tables) {
    forall id <- s.mapInfo :: 0 <= id < s.nIdCount
  }

  ghost predicate AddrOk(s: Tables) {
    && (forall id <- s.mapInfo :: s.mapInfo[id].addr in s.mapAddr && s.mapAddr[s.mapInfo[id].addr] == id)
    && (forall a <- s.mapAddr :: s.mapAddr[a] in s.mapInfo && s.mapInfo[s.mapAddr[a]].addr == a)
  }

  ghost predicate RandomOk(s: Tables) {
    && (forall id <- s.mapInfo ::
          0 <= s.mapInfo[id].nRandomPos < |s.vRandom| && s.vRandom[s.mapInfo[id].nRandomPos] == id)
    && (forall i :: 0 <= i < |s.vRandom| ==> s.vRandom[i] in s.mapInfo && s.mapInfo[s.vRandom[i]].nRandomPos == i)
  }

  ghost predicate CountsOk(s: Tables) {
    && s.nTried == |TriedIds(s.mapInfo)| && s.nNew == |NewIds(s.mapInfo)|
    && |s.vRandom| == s.nTried + s.nNew
  }

  ghost predicate StatsOk(s: Tables) {
    forall id <- s.mapInfo :: StatOk(s.mapInfo[id])
  }

  predicate StatOk(info: Info) {
    info.nLastTry >= 0 && info.nLastSuccess >= 0 && (info.fInTried ==> info.nLastSuccess != 0)
  }

  ghost predicate RefOk(s: Tables, pending: int, x: Id)
    requires x in s.mapInfo
  {
    && s.mapInfo[x].nRefCount == Holders(s.vvNew, x) + (if x == pending then 1 else 0)
    && (if s.mapInfo[x].fInTried then s.mapInfo[x].nRefCount == 0
        else 1 <= s.mapInfo[x].nRefCount <= NEW_BUCKETS_PER_ADDRESS)
  }

  /** `pending` has been counted once more than it is held: it is about to enter a bucket. */
  ghost predicate RefsOk(s: Tables, pending: int) {
    forall id <- s.mapInfo :: RefOk(s, pending, id)
  }

  ghost predicate NewOk(s: Tables) {
    && |s.vvNew| == NEW_BUCKET_COUNT
    && forall b :: 0 <= b < |s.vvNew| ==> s.vvNew[b] <= s.mapInfo.Keys && |s.vvNew[b]| <= NEW_BUCKET_SIZE
  }

  predicate Distinct(ids: seq<Id>) {
    forall i, j :: 0 <= i < j < |ids| ==> ids[i] != ids[j]
  }

  ghost predicate TriedOk(s: Tables, h: Hashes) {
    && |s.vvTried| == TRIED_BUCKET_COUNT
    && (forall b :: 0 <= b < |s.vvTried| ==> |s.vvTried[b]| <= TRIED_BUCKET_SIZE && Distinct(s.vvTried[b]))
    && (forall b, id :: 0 <= b < |s.vvTried| && id in s.vvTried[b] ==>
          id in s.mapInfo && s.mapInfo[id].fInTried && TriedBucket(h, s.mapInfo[id]) == b)
    && (forall id <- s.mapInfo :: s.mapInfo[id].fInTried ==> id in s.vvTried[TriedBucket(h, s.mapInfo[id])])
  }

  const NOBODY: int := -1

  /** Everything that the consistency check tests, and the bucket sizes and places besides. */
  ghost predicate Consistent(s: Tables, h: Hashes, pending: int) {
    Linked(s, h, pending) && StatsOk(s)
  }

  /** The same but for the entries' statistics. */
  ghost predicate Linked(s: Tables, h: Hashes, pending: int) {
    && IdsOk(s) && AddrOk(s) && RandomOk(s) && CountsOk(s)
    && RefsOk(s, pending) && NewOk(s) && TriedOk(s, h)
  }

  lemma ConsistentIsLinked(s: Tables, h: Hashes, pending: int)
    requires Consistent(s, h, pending)
    ensures Linked(s, h, pending) && StatsOk(s)
  {
  }

  // ---- basic changes ----

  /** Same entry but for its statistics. */
  predicate SameRole(a: Info, b: Info) {
    && a.addr == b.addr && a.port == b.port && a.source == b.source
    && a.nRefCount == b.nRefCount && a.fInTried == b.fInTried && a.nRandomPos == b.nRandomPos
  }

  function Put(s: Tables, id: Id, info: Info): Tables {
    s.(mapInfo := s.mapInfo[id := info])
  }

  function Create(s: Tables, info: Info): Tables {
    s.(nIdCount := s.nIdCount + 1,
       mapInfo := s.mapInfo[s.nIdCount := info.(nRandomPos := |s.vRandom|)],
       mapAddr := s.mapAddr[info.addr := s.nIdCount],
       vRandom := s.vRandom + [s.nIdCount])
  }

  function Swap(s: Tables, p: nat, q: nat): Tables
    requires p < |s.vRandom| && q < |s.vRandom| && s.vRandom[p] in s.mapInfo && s.vRandom[q] in s.mapInfo
  {
    if p == q then s
    else
      var (a, b) := (s.vRandom[p], s.vRandom[q]);
      var m := s.mapInfo[a := s.mapInfo[a].(nRandomPos := q)];
      var m := m[b := m[b].(nRandomPos := p)];
      s.(mapInfo := m, vRandom := s.vRandom[p := b][q := a])
  }

  /** Forgets an entry: its place in `vRandom` goes to the last one. */
  function Erase(s: Tables, id: Id): Tables
    requires RandomOk(s) && id in s.mapInfo
  {
    var t := Swap(s, s.mapInfo[id].nRandomPos, |s.vRandom| - 1);
    t.(vRandom := t.vRandom[..|t.vRandom| - 1], mapAddr := t.mapAddr - {s.mapInfo[id].addr},
       mapInfo := t.mapInfo - {id}, nNew := t.nNew - 1)
  }

  /** Takes one reference away, and forgets the entry with the last one. */
  function Unref(s: Tables, bucket: nat, id: Id): Tables
    requires bucket < |s.vvNew| && RandomOk(s) && id in s.mapInfo
  {
    var t := Put(s, id, s.mapInfo[id].(nRefCount := s.mapInfo[id].nRefCount - 1));
    PutKeepsRandom(s, id, s.mapInfo[id].(nRefCount := s.mapInfo[id].nRefCount - 1));
    var t := if t.mapInfo[id].nRefCount == 0 then Erase(t, id) else t;
    t.(vvNew := t.vvNew[bucket := t.vvNew[bucket] - {id}])
  }

  lemma PutKeepsRandom(s: Tables, id: Id, info: Info)
    requires RandomOk(s) && id in s.mapInfo && info.nRandomPos == s.mapInfo[id].nRandomPos
    ensures RandomOk(Put(s, id, info))
  {
  }

  // ---- counting ----

  lemma {:induction false} HoldersSet(vvNew: seq<set<Id>>, b: nat, ids: set<Id>, id: Id)
    requires b < |vvNew|
    ensures Holders(vvNew[b := ids], id)
         == Holders(vvNew, id) - (if id in vvNew[b] then 1 else 0) + (if id in ids then 1 else 0)
  {
    var k := |vvNew| - 1;
    if b < k {
      HoldersSet(vvNew[..k], b, ids, id);
      assert vvNew[b := ids][..k] == vvNew[..k][b := ids];
    } else {
      assert vvNew[b := ids][..k] == vvNew[..k];
    }
  }

  lemma {:induction false} HoldersZero(vvNew: seq<set<Id>>, id: Id)
    ensures Holders(vvNew, id) == 0 <==> forall b :: 0 <= b < |vvNew| ==> id !in vvNew[b]
    ensures Holders(vvNew, id) <= |vvNew|
  {
    if vvNew != [] {
      var k := |vvNew| - 1;
      HoldersZero(vvNew[..k], id);
      assert forall b :: 0 <= b < |vvNew| ==> b == k || vvNew[b] == vvNew[..k][b];
    }
  }

  lemma {:induction false} HoldersSame(a: seq<set<Id>>, b: seq<set<Id>>, id: Id)
    requires |a| == |b| && forall i :: 0 <= i < |a| ==> (id in a[i] <==> id in b[i])
    ensures Holders(a, id) == Holders(b, id)
  {
    if a != [] {
      HoldersSame(a[..|a| - 1], b[..|b| - 1], id);
    }
  }

  // ---- the basic changes keep the invariant ----

  lemma PutKeeps(s: Tables, h: Hashes, pending: int, id: int, info: Info)
    requires Consistent(s, h, pending) && id in s.mapInfo && SameRole(s.mapInfo[id], info)
    ensures Linked(Put(s, id, info), h, pending)
    ensures Consistent(Put(s, id, info), h, pending) <==> StatOk(info)
  {
    hide TriedOk, Holders;
    var t := Put(s, id, info);
    assert TriedIds(t.mapInfo) == TriedIds(s.mapInfo) && NewIds(t.mapInfo) == NewIds(s.mapInfo);
    PutKeepsTried(s, h, id, info);
  }

  lemma PutKeepsTried(s: Tables, h: Hashes, id: int, info: Info)
    requires TriedOk(s, h) && id in s.mapInfo && SameRole(s.mapInfo[id], info)
    ensures TriedOk(Put(s, id, info), h)
  {
    hide Distinct;
    assert TriedBucket(h, info) == TriedBucket(h, s.mapInfo[id]);
  }

  /** Entries that differ in their place in `vRandom` only. */
  ghost predicate SameButPlaces(a: map<Id, Info>, b: map<Id, Info>) {
    a.Keys == b.Keys && forall id <- a :: id in b && b[id] == a[id].(nRandomPos := b[id].nRandomPos)
  }

  lemma SwapKeepsRandom(s: Tables, p: nat, q: nat)
    requires RandomOk(s) && p < |s.vRandom| && q < |s.vRandom|
    ensures var t := Swap(s, p, q);
            && RandomOk(t) && t.mapInfo.Keys == s.mapInfo.Keys
            && t == s.(vRandom := t.vRandom, mapInfo := t.mapInfo)
            && t.vRandom == s.vRandom[p := s.vRandom[q]][q := s.vRandom[p]]
            && SameButPlaces(s.mapInfo, t.mapInfo)
  {
    if p != q {
      var t := Swap(s, p, q);
      var (a, b) := (s.vRandom[p], s.vRandom[q]);
      assert a != b;
      forall i | 0 <= i < |t.vRandom| ensures t.vRandom[i] in t.mapInfo && t.mapInfo[t.vRandom[i]].nRandomPos == i {
        assert s.mapInfo[s.vRandom[i]].nRandomPos == i;
      }
    }
  }

  lemma PlacesDoNotMatter(s: Tables, t: Tables, h: Hashes, pending: int)
    requires Consistent(s, h, pending) && RandomOk(t) && SameButPlaces(s.mapInfo, t.mapInfo)
    requires t == s.(vRandom := t.vRandom, mapInfo := t.mapInfo) && |t.vRandom| == |s.vRandom|
    ensures Consistent(t, h, pending)
  {
    hide TriedOk, CountsOk, RandomOk, Holders;
    PlacesKeepCounts(s, t);
    PlacesKeepTried(s, t, h);
    SameKeys(s.mapInfo, t.mapInfo);
    forall id | id in t.mapInfo
      ensures RefOk(t, pending, id) && id in s.mapInfo
      ensures t.mapInfo[id] == s.mapInfo[id].(nRandomPos := t.mapInfo[id].nRandomPos)
    {
      assert RefOk(s, pending, id);
    }
    forall a | a in t.mapAddr ensures t.mapAddr[a] in t.mapInfo && t.mapInfo[t.mapAddr[a]].addr == a {
      var id := s.mapAddr[a];
      assert id in s.mapInfo && s.mapInfo[id].addr == a;
      assert id in t.mapInfo;
    }
  }

  lemma PlacesTransitive(a: map<Id, Info>, b: map<Id, Info>, c: map<Id, Info>)
    requires SameButPlaces(a, b) && SameButPlaces(b, c)
    ensures SameButPlaces(a, c)
  {
    SameKeys(a, b);
    SameKeys(b, c);
    forall id | id in a ensures id in c && c[id] == a[id].(nRandomPos := c[id].nRandomPos) {
      assert id in b && b[id] == a[id].(nRandomPos := b[id].nRandomPos);
      assert c[id] == b[id].(nRandomPos := c[id].nRandomPos);
    }
  }

  lemma PlaceAt(a: map<Id, Info>, b: map<Id, Info>, id: Id)
    requires SameButPlaces(a, b) && id in a
    ensures id in b && b[id].addr == a[id].addr
  {
  }

  lemma SameKeys(a: map<Id, Info>, b: map<Id, Info>)
    requires a.Keys == b.Keys
    ensures forall id :: id in a <==> id in b
  {
    forall id ensures id in a <==> id in b {
      assert id in a.Keys <==> id in b.Keys;
    }
  }

  lemma PlacesKeepCounts(s: Tables, t: Tables)
    requires CountsOk(s) && SameButPlaces(s.mapInfo, t.mapInfo)
    requires t == s.(vRandom := t.vRandom, mapInfo := t.mapInfo) && |t.vRandom| == |s.vRandom|
    ensures CountsOk(t)
  {
    SameKeys(s.mapInfo, t.mapInfo);
    forall id | id in s.mapInfo ensures t.mapInfo[id].fInTried == s.mapInfo[id].fInTried {
      assert t.mapInfo[id] == s.mapInfo[id].(nRandomPos := t.mapInfo[id].nRandomPos);
    }
    assert TriedIds(t.mapInfo) == TriedIds(s.mapInfo);
    assert NewIds(t.mapInfo) == NewIds(s.mapInfo);
  }

  lemma PlacesKeepTried(s: Tables, t: Tables, h: Hashes)
    requires TriedOk(s, h) && SameButPlaces(s.mapInfo, t.mapInfo)
    requires t == s.(vRandom := t.vRandom, mapInfo := t.mapInfo)
    ensures TriedOk(t, h)
  {
    hide Distinct;
    forall id | id in s.mapInfo
      ensures id in t.mapInfo && t.mapInfo[id].fInTried == s.mapInfo[id].fInTried
      ensures TriedBucket(h, t.mapInfo[id]) == TriedBucket(h, s.mapInfo[id])
    {
      assert t.mapInfo[id] == s.mapInfo[id].(nRandomPos := t.mapInfo[id].nRandomPos);
    }
  }

  lemma SwapKeeps(s: Tables, h: Hashes, pending: int, p: nat, q: nat)
    requires Consistent(s, h, pending) && p < |s.vRandom| && q < |s.vRandom|
    ensures Consistent(Swap(s, p, q), h, pending)
  {
    SwapKeepsRandom(s, p, q);
    PlacesDoNotMatter(s, Swap(s, p, q), h, pending);
  }

  /** A new entry, before it has entered its first bucket. */
  lemma CreateKeeps(s: Tables, h: Hashes, info: Info)
    requires Consistent(s, h, NOBODY) && s.nIdCount >= 0 && info.addr !in s.mapAddr
    requires info.nRefCount == 1 && !info.fInTried && info.nLastTry == 0 && info.nLastSuccess == 0
    ensures var t := Create(s, info); Consistent(t.(nNew := t.nNew + 1), h, s.nIdCount)
  {
    hide AddrOk, RandomOk, TriedOk, CountsOk, RefsOk, TriedIds, NewIds, Holders;
    CreateIndexes(s, info);
    CreateTried(s, h, info);
    CreateCounts(s, info);
  }

  lemma OneMore(m: map<Id, Info>, id: Id, info: Info)
    requires id !in m
    ensures TriedIds(m[id := info]) == TriedIds(m) + if info.fInTried then {id} else {}
    ensures NewIds(m[id := info]) == NewIds(m) + if info.fInTried then {} else {id}
  {
  }

  lemma CountOne(t: Tables, info: Info)
    requires IdsOk(t) && CountsOk(t)
    ensures var u := Create(t, info);
            CountsOk(if info.fInTried then u.(nTried := t.nTried + 1) else u.(nNew := t.nNew + 1))
  {
    var id := t.nIdCount;
    assert id !in t.mapInfo;
    assert id !in TriedIds(t.mapInfo) && id !in NewIds(t.mapInfo);
    OneMore(t.mapInfo, id, info.(nRandomPos := |t.vRandom|));
  }

  lemma CreateCounts(s: Tables, info: Info)
    requires IdsOk(s) && CountsOk(s) && RefsOk(s, NOBODY) && NewOk(s) && s.nIdCount >= 0
    requires info.nRefCount == 1 && !info.fInTried
    ensures var t := Create(s, info).(nNew := s.nNew + 1); CountsOk(t) && RefsOk(t, s.nIdCount)
  {
    hide RefsOk, NewOk, IdsOk, CountsOk;
    CountOne(s, info);
    CreateRefs(s, info);
  }

  lemma CreateRefs(s: Tables, info: Info)
    requires IdsOk(s) && RefsOk(s, NOBODY) && NewOk(s) && s.nIdCount >= 0
    requires info.nRefCount == 1 && !info.fInTried
    ensures RefsOk(Create(s, info).(nNew := s.nNew + 1), s.nIdCount)
  {
    var id := s.nIdCount;
    var t := Create(s, info).(nNew := s.nNew + 1);
    assert id !in s.mapInfo;
    HoldersZero(s.vvNew, id);
    forall x | x in t.mapInfo ensures RefOk(t, id, x) {
      assert x != id ==> RefOk(s, NOBODY, x);
    }
  }

  lemma CreateIndexes(s: Tables, info: Info)
    requires IdsOk(s) && AddrOk(s) && RandomOk(s) && info.addr !in s.mapAddr
    ensures var t := Create(s, info).(nNew := s.nNew + 1); AddrOk(t) && RandomOk(t)
  {
    assert s.nIdCount !in s.mapInfo;
  }

  lemma CreateTried(s: Tables, h: Hashes, info: Info)
    requires IdsOk(s) && TriedOk(s, h) && !info.fInTried
    ensures TriedOk(Create(s, info).(nNew := s.nNew + 1), h)
  {
    hide Distinct, TriedBucket;
    assert s.nIdCount !in s.mapInfo;
  }

  /** Erasing an entry that no bucket holds any more. */
  lemma {:induction false} EraseKeeps(s: Tables, h: Hashes, pending: int, id: Id)
    requires IdsOk(s) && AddrOk(s) && RandomOk(s) && CountsOk(s) && StatsOk(s) && NewOk(s) && TriedOk(s, h)
    requires id in s.mapInfo && id != pending && !s.mapInfo[id].fInTried && Holders(s.vvNew, id) == 0
    requires forall x <- s.mapInfo :: x != id ==> RefOk(s, pending, x)
    ensures Consistent(Erase(s, id), h, pending)
  {
    hide AddrOk, RandomOk, TriedOk, CountsOk, Erase;
    var t := Erase(s, id);
    EraseEffect(s, id);
    HoldersZero(s.vvNew, id);
    EraseCounts(s, t, id);
    EraseAddr(s, t, id);
    EraseTried(s, t, h, id);
    forall x | x in t.mapInfo ensures x in s.mapInfo && x != id && RefOk(s, pending, x) && SameButPlace(s, t, x) {
    }
  }

  predicate SameButPlace(s: Tables, t: Tables, x: Id)
    requires x in s.mapInfo && x in t.mapInfo
  {
    t.mapInfo[x] == s.mapInfo[x].(nRandomPos := t.mapInfo[x].nRandomPos)
  }

  lemma EraseEffect(s: Tables, id: Id)
    requires RandomOk(s) && id in s.mapInfo
    ensures var t := Erase(s, id);
            && RandomOk(t)
            && t == s.(vRandom := t.vRandom, mapAddr := s.mapAddr - {s.mapInfo[id].addr}, mapInfo := t.mapInfo,
                       nNew := s.nNew - 1)
            && t.mapInfo.Keys == s.mapInfo.Keys - {id} && |t.vRandom| == |s.vRandom| - 1
            && forall x <- t.mapInfo :: SameButPlace(s, t, x)
  {
    var p, last := s.mapInfo[id].nRandomPos, |s.vRandom| - 1;
    SwapKeepsRandom(s, p, last);
    var u := Swap(s, p, last);
    assert u.mapInfo[id].nRandomPos == last;
  }

  lemma EraseCounts(s: Tables, t: Tables, id: Id)
    requires CountsOk(s) && id in s.mapInfo && !s.mapInfo[id].fInTried
    requires t.mapInfo.Keys == s.mapInfo.Keys - {id} && t.nNew == s.nNew - 1 && t.nTried == s.nTried
    requires |t.vRandom| == |s.vRandom| - 1
    requires forall x <- t.mapInfo :: SameButPlace(s, t, x)
    ensures CountsOk(t)
  {
    forall x ensures x in s.mapInfo && x != id <==> x in t.mapInfo {
      assert x in t.mapInfo.Keys <==> x in s.mapInfo.Keys - {id};
    }
    assert TriedIds(t.mapInfo) == TriedIds(s.mapInfo);
    assert NewIds(t.mapInfo) == NewIds(s.mapInfo) - {id};
  }

  lemma EraseAddr(s: Tables, t: Tables, id: Id)
    requires AddrOk(s) && id in s.mapInfo
    requires t.mapInfo.Keys == s.mapInfo.Keys - {id} && t.mapAddr == s.mapAddr - {s.mapInfo[id].addr}
    requires forall x <- t.mapInfo :: SameButPlace(s, t, x)
    ensures AddrOk(t)
  {
    forall x | x in t.mapInfo ensures t.mapInfo[x].addr in t.mapAddr {
      assert SameButPlace(s, t, x);
      assert s.mapAddr[s.mapInfo[x].addr] == x;
    }
  }

  lemma EraseTried(s: Tables, t: Tables, h: Hashes, id: Id)
    requires TriedOk(s, h) && id in s.mapInfo && !s.mapInfo[id].fInTried && t.vvTried == s.vvTried
    requires t.mapInfo.Keys == s.mapInfo.Keys - {id}
    requires forall x <- t.mapInfo :: SameButPlace(s, t, x)
    ensures TriedOk(t, h)
  {
    hide Distinct;
    forall x | x in t.mapInfo
      ensures t.mapInfo[x].fInTried == s.mapInfo[x].fInTried
      ensures TriedBucket(h, t.mapInfo[x]) == TriedBucket(h, s.mapInfo[x])
    {
      assert SameButPlace(s, t, x);
    }
  }

  /** Taking an entry out of one of its new buckets. */
  lemma UnrefKeeps(s: Tables, h: Hashes, pending: int, b: nat, id: Id)
    requires Consistent(s, h, pending) && b < NEW_BUCKET_COUNT && id in s.vvNew[b] && id != pending
    ensures Consistent(Unref(s, b, id), h, pending)
    ensures Unref(s, b, id).vvNew == s.vvNew[b := s.vvNew[b] - {id}]
  {
    hide IdsOk, AddrOk, RandomOk, TriedOk, CountsOk, StatsOk, Erase, RefOk, Holders;
    var r := s.mapInfo[id].nRefCount - 1;
    var u := s.(mapInfo := s.mapInfo[id := s.mapInfo[id].(nRefCount := r)], vvNew := s.vvNew[b := s.vvNew[b] - {id}]);
    UnrefParts(s, u, h, id, b);
    UnrefCounts(s, u, pending, id, b);
    if r == 0 {
      EraseKeeps(u, h, pending, id);
      EraseElsewhere(s, id, b);
    }
  }

  lemma EraseElsewhere(s: Tables, id: Id, b: nat)
    requires RandomOk(s) && id in s.mapInfo && b < |s.vvNew|
    ensures var s1 := Put(s, id, s.mapInfo[id].(nRefCount := s.mapInfo[id].nRefCount - 1));
            && RandomOk(s1)
            && var vvNew := s.vvNew[b := s.vvNew[b] - {id}];
            && RandomOk(s1.(vvNew := vvNew))
            && Erase(s1, id).(vvNew := vvNew) == Erase(s1.(vvNew := vvNew), id) && Erase(s1, id).vvNew == s.vvNew
  {
    hide Erase, RandomOk;
    PutKeepsRandom(s, id, s.mapInfo[id].(nRefCount := s.mapInfo[id].nRefCount - 1));
    var s1 := Put(s, id, s.mapInfo[id].(nRefCount := s.mapInfo[id].nRefCount - 1));
    EraseIgnoresBuckets(s1, id, s.vvNew[b := s.vvNew[b] - {id}]);
  }

  lemma EraseIgnoresBuckets(s: Tables, id: Id, vvNew: seq<set<Id>>)
    requires RandomOk(s) && id in s.mapInfo
    ensures RandomOk(s.(vvNew := vvNew))
    ensures Erase(s, id).(vvNew := vvNew) == Erase(s.(vvNew := vvNew), id) && Erase(s, id).vvNew == s.vvNew
  {
  }

  lemma {:induction false} UnrefCounts(s: Tables, u: Tables, pending: int, id: Id, b: nat)
    requires RefsOk(s, pending) && id in s.mapInfo && id != pending && b < |s.vvNew| && id in s.vvNew[b]
    requires u == s.(mapInfo := s.mapInfo[id := s.mapInfo[id].(nRefCount := s.mapInfo[id].nRefCount - 1)],
                     vvNew := s.vvNew[b := s.vvNew[b] - {id}])
    ensures forall x <- u.mapInfo :: x != id ==> RefOk(u, pending, x)
    ensures !u.mapInfo[id].fInTried && u.mapInfo[id].nRefCount == Holders(u.vvNew, id)
    ensures u.mapInfo[id].nRefCount != 0 ==> RefOk(u, pending, id)
  {
    HoldersZero(s.vvNew, id);
    assert RefOk(s, pending, id);
    forall x ensures Holders(u.vvNew, x) == Holders(s.vvNew, x) - if x == id then 1 else 0 {
      HoldersSet(s.vvNew, b, s.vvNew[b] - {id}, x);
    }
    forall x | x in u.mapInfo && x != id ensures RefOk(u, pending, x) {
      assert RefOk(s, pending, x);
    }
  }

  lemma UnrefParts(s: Tables, u: Tables, h: Hashes, id: Id, b: nat)
    requires IdsOk(s) && AddrOk(s) && RandomOk(s) && CountsOk(s) && StatsOk(s) && NewOk(s) && TriedOk(s, h)
    requires id in s.mapInfo && b < NEW_BUCKET_COUNT && id in s.vvNew[b]
    requires u == s.(mapInfo := s.mapInfo[id := s.mapInfo[id].(nRefCount := s.mapInfo[id].nRefCount - 1)],
                     vvNew := s.vvNew[b := s.vvNew[b] - {id}])
    ensures IdsOk(u) && AddrOk(u) && RandomOk(u) && CountsOk(u) && StatsOk(u) && NewOk(u) && TriedOk(u, h)
  {
    hide Distinct;
    assert TriedIds(u.mapInfo) == TriedIds(s.mapInfo);
    assert NewIds(u.mapInfo) == NewIds(s.mapInfo);
    assert TriedBucket(h, u.mapInfo[id]) == TriedBucket(h, s.mapInfo[id]);
  }

  /** The pending entry enters its bucket. */
  lemma EnterKeeps(s: Tables, h: Hashes, b: nat, id: Id)
    requires Consistent(s, h, id) && id in s.mapInfo && b < NEW_BUCKET_COUNT
    requires id !in s.vvNew[b] && |s.vvNew[b]| < NEW_BUCKET_SIZE
    ensures Consistent(s.(vvNew := s.vvNew[b := s.vvNew[b] + {id}]), h, NOBODY)
  {
    var u := s.(vvNew := s.vvNew[b := s.vvNew[b] + {id}]);
    forall x ensures Holders(u.vvNew, x) == Holders(s.vvNew, x) + if x == id then 1 else 0 {
      HoldersSet(s.vvNew, b, s.vvNew[b] + {id}, x);
    }
  }

  /** An entry is counted once more, about to enter another bucket. */
  lemma CountKeeps(s: Tables, h: Hashes, id: Id)
    requires Consistent(s, h, NOBODY) && id in s.mapInfo && !s.mapInfo[id].fInTried
    requires s.mapInfo[id].nRefCount < NEW_BUCKETS_PER_ADDRESS
    ensures Consistent(Put(s, id, s.mapInfo[id].(nRefCount := s.mapInfo[id].nRefCount + 1)), h, id)
  {
    hide Distinct;
    var u := Put(s, id, s.mapInfo[id].(nRefCount := s.mapInfo[id].nRefCount + 1));
    assert TriedIds(u.mapInfo) == TriedIds(s.mapInfo);
    assert NewIds(u.mapInfo) == NewIds(s.mapInfo);
    assert TriedBucket(h, u.mapInfo[id]) == TriedBucket(h, s.mapInfo[id]);
  }

  // ---- from new to tried ----

  function Cleared(vvNew: seq<set<Id>>, id: Id): seq<set<Id>> {
    seq(|vvNew|, b requires 0 <= b < |vvNew| => vvNew[b] - {id})
  }

  /** The entry is taken out of all new buckets and into a tried bucket with room. */
  function PromoteFree(s: Tables, h: Hashes, id: Id): Tables
    requires id in s.mapInfo && |s.vvTried| == TRIED_BUCKET_COUNT
  {
    var k := TriedBucket(h, s.mapInfo[id]);
    s.(vvNew := Cleared(s.vvNew, id), nNew := s.nNew - 1,
       vvTried := s.vvTried[k := s.vvTried[k] + [id]], nTried := s.nTried + 1,
       mapInfo := s.mapInfo[id := s.mapInfo[id].(nRefCount := 0, fInTried := true)])
  }

  /** Where the entry that is evicted from a tried bucket goes. */
  function EvictTarget(s: Tables, h: Hashes, id: Id, origin: nat, victim: Id): nat
    requires victim in s.mapInfo && |s.vvNew| == NEW_BUCKET_COUNT
  {
    var b := NewBucket(h, s.mapInfo[victim], s.mapInfo[victim].source);
    if |s.vvNew[b] - {id}| < NEW_BUCKET_SIZE then b else origin
  }

  /** The tried bucket, shuffled to `vTried`, is full: the entry at `pos` makes room and goes back to a new bucket. */
  function PromoteEvict(s: Tables, h: Hashes, id: Id, origin: nat, vTried: seq<Id>, pos: nat): Tables
    requires id in s.mapInfo && |s.vvTried| == TRIED_BUCKET_COUNT && |s.vvNew| == NEW_BUCKET_COUNT
    requires origin < NEW_BUCKET_COUNT
    requires pos < |vTried| && vTried[pos] in s.mapInfo
  {
    var k, victim := TriedBucket(h, s.mapInfo[id]), vTried[pos];
    var b := EvictTarget(s, h, id, origin, victim);
    var vvNew := Cleared(s.vvNew, id);
    s.(vvNew := vvNew[b := vvNew[b] + {victim}], vvTried := s.vvTried[k := vTried[pos := id]],
       mapInfo := s.mapInfo[id := s.mapInfo[id].(nRefCount := 0, fInTried := true)]
                           [victim := s.mapInfo[victim].(nRefCount := 1, fInTried := false)])
  }

  lemma {:induction false} ClearedHolders(vvNew: seq<set<Id>>, id: Id, x: Id)
    ensures Holders(Cleared(vvNew, id), x) == if x == id then 0 else Holders(vvNew, x)
  {
    var t := Cleared(vvNew, id);
    if x == id {
      HoldersZero(t, x);
    } else {
      HoldersSame(t, vvNew, x);
    }
  }

  lemma ClearedSizes(vvNew: seq<set<Id>>, id: Id)
    ensures forall b :: 0 <= b < |vvNew| ==> Cleared(vvNew, id)[b] <= vvNew[b] && |Cleared(vvNew, id)[b]| <= |vvNew[b]|
    ensures forall b :: 0 <= b < |vvNew| && id in vvNew[b] ==> |Cleared(vvNew, id)[b]| == |vvNew[b]| - 1
  {
    forall b | 0 <= b < |vvNew| && id !in vvNew[b] ensures vvNew[b] - {id} == vvNew[b] {
    }
  }

  lemma SameElements(a: seq<Id>, b: seq<Id>)
    requires multiset(a) == multiset(b)
    ensures |a| == |b| && forall x :: x in a <==> x in b
    ensures Distinct(a) ==> Distinct(b)
  {
    assert |multiset(a)| == |multiset(b)|;
    forall x ensures x in a <==> x in b {
      assert x in multiset(a) <==> x in multiset(b);
    }
    if Distinct(a) {
      forall x ensures multiset(b)[x] <= 1 {
        DistinctOnce(a, x);
      }
      OnceDistinct(b);
    }
  }

  lemma {:induction false} DistinctOnce(a: seq<Id>, x: Id)
    requires Distinct(a)
    ensures multiset(a)[x] <= 1
  {
    if a != [] {
      var k := |a| - 1;
      DistinctOnce(a[..k], x);
      assert a == a[..k] + [a[k]];
      assert a[k] !in a[..k];
    }
  }

  lemma {:induction false} OnceDistinct(b: seq<Id>)
    requires forall x :: multiset(b)[x] <= 1
    ensures Distinct(b)
  {
    forall i, j | 0 <= i < j < |b| ensures b[i] != b[j] {
      assert b == b[..j] + b[j..];
      assert b[i] in b[..j] && b[j] in b[j..];
      assert multiset(b)[b[i]] == multiset(b[..j])[b[i]] + multiset(b[j..])[b[i]];
    }
  }

  lemma PromoteFreeKeeps(s: Tables, h: Hashes, id: Id)
    requires Linked(s, h, NOBODY) && id in s.mapInfo && !s.mapInfo[id].fInTried
    requires |s.vvTried| == TRIED_BUCKET_COUNT && |s.vvTried[TriedBucket(h, s.mapInfo[id])]| < TRIED_BUCKET_SIZE
    ensures Linked(PromoteFree(s, h, id), h, NOBODY)
  {
    hide TriedOk, RefsOk, CountsOk, Cleared, TriedBucket, TriedIds, NewIds, Holders;
    var t := PromoteFree(s, h, id);
    ClearedSizes(s.vvNew, id);
    assert NewOk(t) by { ClearedLength(s.vvNew, id); }
    PromoteFreeTried(s, h, id);
    PromoteFreeCounts(s, h, id);
  }

  lemma ClearedLength(vvNew: seq<set<Id>>, id: Id)
    ensures |Cleared(vvNew, id)| == |vvNew|
  {
  }

  lemma PromoteFreeCounts(s: Tables, h: Hashes, id: Id)
    requires IdsOk(s) && CountsOk(s) && RefsOk(s, NOBODY) && id in s.mapInfo && !s.mapInfo[id].fInTried
    requires |s.vvTried| == TRIED_BUCKET_COUNT
    ensures CountsOk(PromoteFree(s, h, id)) && RefsOk(PromoteFree(s, h, id), NOBODY)
  {
    hide Cleared, Holders;
    var t := PromoteFree(s, h, id);
    assert TriedIds(t.mapInfo) == TriedIds(s.mapInfo) + {id};
    assert NewIds(t.mapInfo) == NewIds(s.mapInfo) - {id};
    forall x | x in t.mapInfo ensures RefOk(t, NOBODY, x) {
      assert RefOk(s, NOBODY, x);
      ClearedHolders(s.vvNew, id, x);
    }
  }

  lemma PromoteFreeTried(s: Tables, h: Hashes, id: Id)
    requires TriedOk(s, h) && id in s.mapInfo && !s.mapInfo[id].fInTried
    requires |s.vvTried[TriedBucket(h, s.mapInfo[id])]| < TRIED_BUCKET_SIZE
    ensures TriedOk(PromoteFree(s, h, id), h)
  {
    var t := PromoteFree(s, h, id);
    var k := TriedBucket(h, s.mapInfo[id]);
    assert TriedBucket(h, t.mapInfo[id]) == k;
    assert id !in s.vvTried[k];
    assert Distinct(t.vvTried[k]);
    hide Distinct, TriedBucket;
  }

  lemma PromoteEvictKeeps(s: Tables, h: Hashes, id: Id, origin: nat, vTried: seq<Id>, pos: nat)
    requires Linked(s, h, NOBODY) && id in s.mapInfo && !s.mapInfo[id].fInTried
    requires origin < NEW_BUCKET_COUNT && id in s.vvNew[origin]
    requires multiset(vTried) == multiset(s.vvTried[TriedBucket(h, s.mapInfo[id])]) && pos < |vTried|
    ensures vTried[pos] in s.mapInfo && s.mapInfo[vTried[pos]].fInTried
    ensures Linked(PromoteEvict(s, h, id, origin, vTried, pos), h, NOBODY)
  {
    hide RefsOk, CountsOk, Cleared, TriedBucket, NewBucket, TriedIds, NewIds, Holders;
    SameElements(s.vvTried[TriedBucket(h, s.mapInfo[id])], vTried);
    var victim := vTried[pos];
    assert victim in s.vvTried[TriedBucket(h, s.mapInfo[id])];
    PromoteEvictNew(s, h, id, origin, vTried, pos);
    PromoteEvictTried(s, h, id, origin, vTried, pos);
    PromoteEvictCounts(s, h, id, origin, vTried, pos);
  }

  lemma PromoteEvictNew(s: Tables, h: Hashes, id: Id, origin: nat, vTried: seq<Id>, pos: nat)
    requires NewOk(s) && |s.vvTried| == TRIED_BUCKET_COUNT && id in s.mapInfo && origin < NEW_BUCKET_COUNT
    requires id in s.vvNew[origin]
    requires pos < |vTried| && vTried[pos] in s.mapInfo
    ensures NewOk(PromoteEvict(s, h, id, origin, vTried, pos))
  {
    hide TriedBucket, NewBucket;
    ClearedSizes(s.vvNew, id);
  }

  lemma PromoteEvictCounts(s: Tables, h: Hashes, id: Id, origin: nat, vTried: seq<Id>, pos: nat)
    requires IdsOk(s) && CountsOk(s) && RefsOk(s, NOBODY) && NewOk(s) && |s.vvTried| == TRIED_BUCKET_COUNT
    requires id in s.mapInfo && !s.mapInfo[id].fInTried && origin < NEW_BUCKET_COUNT
    requires pos < |vTried| && vTried[pos] in s.mapInfo && s.mapInfo[vTried[pos]].fInTried
    ensures var t := PromoteEvict(s, h, id, origin, vTried, pos); CountsOk(t) && RefsOk(t, NOBODY)
  {
    hide Cleared, Holders, TriedBucket, NewBucket;
    var t := PromoteEvict(s, h, id, origin, vTried, pos);
    var victim := vTried[pos];
    assert TriedIds(t.mapInfo) == TriedIds(s.mapInfo) + {id} - {victim};
    assert NewIds(t.mapInfo) == NewIds(s.mapInfo) - {id} + {victim};
    var b := EvictTarget(s, h, id, origin, victim);
    var vvNew := Cleared(s.vvNew, id);
    ClearedLength(s.vvNew, id);
    assert RefOk(s, NOBODY, victim);
    HoldersZero(s.vvNew, victim);
    ClearedHolders(s.vvNew, id, victim);
    HoldersZero(vvNew, victim);
    forall x | x in t.mapInfo ensures RefOk(t, NOBODY, x) {
      assert RefOk(s, NOBODY, x);
      ClearedHolders(s.vvNew, id, x);
      HoldersSet(vvNew, b, vvNew[b] + {victim}, x);
    }
  }

  lemma PromoteEvictTried(s: Tables, h: Hashes, id: Id, origin: nat, vTried: seq<Id>, pos: nat)
    requires TriedOk(s, h) && NewOk(s) && id in s.mapInfo && !s.mapInfo[id].fInTried && origin < NEW_BUCKET_COUNT
    requires multiset(vTried) == multiset(s.vvTried[TriedBucket(h, s.mapInfo[id])]) && pos < |vTried|
    requires vTried[pos] in s.mapInfo && s.mapInfo[vTried[pos]].fInTried
    ensures TriedOk(PromoteEvict(s, h, id, origin, vTried, pos), h)
  {
    hide Cleared, EvictTarget;
    var t := PromoteEvict(s, h, id, origin, vTried, pos);
    var k, victim := TriedBucket(h, s.mapInfo[id]), vTried[pos];
    SameElements(s.vvTried[k], vTried);
    assert id !in vTried;
    EvictOne(vTried, pos, id);
    forall x | x in t.mapInfo ensures TriedBucket(h, t.mapInfo[x]) == TriedBucket(h, s.mapInfo[x]) {
    }
    hide Distinct, TriedBucket;
  }

  lemma EvictOne(vTried: seq<Id>, pos: nat, id: Id)
    requires Distinct(vTried) && id !in vTried && pos < |vTried|
    ensures Distinct(vTried[pos := id])
    ensures forall x :: x in vTried[pos := id] <==> x == id || (x in vTried && x != vTried[pos])
  {
    var v := vTried[pos := id];
    forall x ensures x in v <==> x == id || (x in vTried && x != vTried[pos]) {
      if x in vTried && x != vTried[pos] {
        var i :| 0 <= i < |vTried| && vTried[i] == x;
        assert v[i] == x;
      }
      if x == id {
        assert v[pos] == x;
      }
    }
  }

  lemma {:induction false} NewEntryFacts(s: Tables, h: Hashes, id: Id)
    requires Linked(s, h, NOBODY) && id in s.mapInfo && !s.mapInfo[id].fInTried
    ensures |s.vvTried| == TRIED_BUCKET_COUNT && |s.vvNew| == NEW_BUCKET_COUNT
    ensures 1 <= s.mapInfo[id].nRefCount == Holders(s.vvNew, id) <= NEW_BUCKETS_PER_ADDRESS
    ensures forall b, x :: 0 <= b < |s.vvTried| && x in s.vvTried[b] ==> x in s.mapInfo && x != id
  {
    assert RefOk(s, NOBODY, id);
    assert forall b, x :: 0 <= b < |s.vvTried| && x in s.vvTried[b] ==> x in s.mapInfo && s.mapInfo[x].fInTried;
  }

  lemma SamePlace(h: Hashes, a: Info, b: Info)
    requires a.addr == b.addr && a.port == b.port
    ensures TriedBucket(h, a) == TriedBucket(h, b)
  {
  }

  lemma ClearedAt(vvNew: seq<set<Id>>, id: Id)
    ensures |Cleared(vvNew, id)| == |vvNew|
    ensures forall b :: 0 <= b < |vvNew| ==> Cleared(vvNew, id)[b] == vvNew[b] - {id}
  {
  }

  /** `t` is `s` after entry `id` has moved to its tried bucket, one entry of which has made room if it was full. */
  ghost predicate Promoted(s: Tables, t: Tables, h: Hashes, id: Id)
    requires id in s.mapInfo && |s.vvTried| == TRIED_BUCKET_COUNT && |s.vvNew| == NEW_BUCKET_COUNT
  {
    var bucket := s.vvTried[TriedBucket(h, s.mapInfo[id])];
    if |bucket| < TRIED_BUCKET_SIZE then t == PromoteFree(s, h, id)
    else exists origin: nat, vTried, pos: nat :: Evicted(s, t, h, id, origin, vTried, pos)
  }

  ghost predicate Evicted(s: Tables, t: Tables, h: Hashes, id: Id, origin: nat, vTried: seq<Id>, pos: nat)
    requires id in s.mapInfo && |s.vvTried| == TRIED_BUCKET_COUNT && |s.vvNew| == NEW_BUCKET_COUNT
  {
    && origin < NEW_BUCKET_COUNT && id in s.vvNew[origin]
    && multiset(vTried) == multiset(s.vvTried[TriedBucket(h, s.mapInfo[id])])
    && pos < |vTried| && vTried[pos] in s.mapInfo && s.mapInfo[vTried[pos]].fInTried
    && t == PromoteEvict(s, h, id, origin, vTried, pos)
  }

  /** Promoting an entry forgets nobody, and moves no other entry but at most one: an entry of the same tried bucket,
      which was full, and which is then in exactly one new bucket. The statistics are in order afterwards if they were
      before, and the entry is one that has been reached. */
  lemma PromotedMeans(s: Tables, t: Tables, h: Hashes, id: Id)
    requires Linked(s, h, NOBODY) && id in s.mapInfo && !s.mapInfo[id].fInTried
    requires |s.vvTried| == TRIED_BUCKET_COUNT && |s.vvNew| == NEW_BUCKET_COUNT && Promoted(s, t, h, id)
    ensures t.mapInfo.Keys == s.mapInfo.Keys && Linked(t, h, NOBODY)
    ensures t.mapInfo[id].fInTried && t.mapInfo[id].nLastSuccess == s.mapInfo[id].nLastSuccess
    ensures StatsOk(s) && s.mapInfo[id].nLastSuccess != 0 ==> Consistent(t, h, NOBODY)
    ensures forall x, y :: Moved(s, t, x) && Moved(s, t, y) && x != id && y != id ==> x == y
    ensures forall x :: Moved(s, t, x) && x != id ==>
              && |s.vvTried[TriedBucket(h, s.mapInfo[id])]| >= TRIED_BUCKET_SIZE
              && s.mapInfo[x].fInTried && TriedBucket(h, s.mapInfo[x]) == TriedBucket(h, s.mapInfo[id])
              && !t.mapInfo[x].fInTried && Holders(t.vvNew, x) == 1
  {
    hide Linked, PromoteEvict, TriedBucket, Holders, Distinct;
    if |s.vvTried[TriedBucket(h, s.mapInfo[id])]| < TRIED_BUCKET_SIZE {
      PromoteFreeKeeps(s, h, id);
    } else {
      var origin: nat, vTried, pos: nat :| Evicted(s, t, h, id, origin, vTried, pos);
      PromoteEvictKeeps(s, h, id, origin, vTried, pos);
      EvictedMeans(s, t, h, id, origin, vTried, pos);
    }
    if StatsOk(s) && s.mapInfo[id].nLastSuccess != 0 {
      PromotedStats(s, t, h, id);
    }
  }

  /** The evicted entry, in numbers: it goes to the new bucket that its own hash chooses, or if that has 64 entries
      already to the one that the promoted entry came from; in every other bucket only the promoted entry is missing. */
  lemma EvictedGoesTo(s: Tables, t: Tables, h: Hashes, id: Id, origin: nat, vTried: seq<Id>, pos: nat)
    requires id in s.mapInfo && |s.vvTried| == TRIED_BUCKET_COUNT && |s.vvNew| == NEW_BUCKET_COUNT
    requires Evicted(s, t, h, id, origin, vTried, pos)
    ensures var victim := vTried[pos];
            var home := h.newHash(s.mapInfo[victim].addr, s.mapInfo[victim].source) % 256;
            var to := if |s.vvNew[home] - {id}| < 64 then home else origin;
            && |t.vvNew| == 256 && forall b :: 0 <= b < 256 ==>
                 t.vvNew[b] == if b == to then s.vvNew[b] - {id} + {victim} else s.vvNew[b] - {id}
    ensures t.mapInfo[vTried[pos]].nRefCount == 1 && !t.mapInfo[vTried[pos]].fInTried
  {
    hide TriedBucket, Cleared;
    ClearedAt(s.vvNew, id);
  }

  lemma PromotedStats(s: Tables, t: Tables, h: Hashes, id: Id)
    requires id in s.mapInfo && StatsOk(s) && s.mapInfo[id].nLastSuccess != 0
    requires |s.vvTried| == TRIED_BUCKET_COUNT && |s.vvNew| == NEW_BUCKET_COUNT && Promoted(s, t, h, id)
    ensures StatsOk(t)
  {
    hide TriedBucket, EvictTarget, Cleared;
  }

  ghost predicate Moved(s: Tables, t: Tables, x: Id) {
    x in s.mapInfo && x in t.mapInfo && t.mapInfo[x] != s.mapInfo[x]
  }

  lemma EvictedMeans(s: Tables, t: Tables, h: Hashes, id: Id, origin: nat, vTried: seq<Id>, pos: nat)
    requires Linked(s, h, NOBODY) && id in s.mapInfo && !s.mapInfo[id].fInTried && |s.vvTried| == TRIED_BUCKET_COUNT
    requires |s.vvNew| == NEW_BUCKET_COUNT && Evicted(s, t, h, id, origin, vTried, pos) && Linked(t, h, NOBODY)
    ensures t.mapInfo.Keys == s.mapInfo.Keys && t.mapInfo[id] == s.mapInfo[id].(nRefCount := 0, fInTried := true)
    ensures t.mapInfo[vTried[pos]] == s.mapInfo[vTried[pos]].(nRefCount := 1, fInTried := false)
    ensures forall x :: Moved(s, t, x) && x != id ==> x == vTried[pos]
    ensures var x := vTried[pos];
            && s.mapInfo[x].fInTried && TriedBucket(h, s.mapInfo[x]) == TriedBucket(h, s.mapInfo[id])
            && !t.mapInfo[x].fInTried && Holders(t.vvNew, x) == 1
  {
    hide TriedBucket, Holders, Cleared, EvictTarget;
    var k, x := TriedBucket(h, s.mapInfo[id]), vTried[pos];
    SameElements(s.vvTried[k], vTried);
    assert x in s.vvTried[k];
    assert RefOk(t, NOBODY, x);
  }

  /** The `k`-th bucket, counted from the `r`-th on. */
  function FromBucket(k: nat, r: nat): nat {
    (k + r) % NEW_BUCKET_COUNT
  }

  lemma EveryResidue(b: nat, r: nat)
    requires b < NEW_BUCKET_COUNT && r < NEW_BUCKET_COUNT
    ensures exists k: nat :: k < NEW_BUCKET_COUNT && FromBucket(k, r) == b
  {
    var k := if b >= r then b - r else b + NEW_BUCKET_COUNT - r;
    assert FromBucket(k, r) == b;
  }

  /** Evicting on top of the cleared tables is what `PromoteEvict` says. */
  lemma EvictComposes(s: Tables, m: Tables, t: Tables, h: Hashes, id: Id, origin: nat, vTried: seq<Id>, pos: nat)
    requires id in s.mapInfo && |s.vvTried| == TRIED_BUCKET_COUNT && |s.vvNew| == NEW_BUCKET_COUNT
    requires origin < NEW_BUCKET_COUNT
    requires pos < |vTried| && vTried[pos] in s.mapInfo && vTried[pos] != id
    requires var k := TriedBucket(h, s.mapInfo[id]);
             m == s.(vvNew := Cleared(s.vvNew, id), nNew := s.nNew - 1, vvTried := s.vvTried[k := vTried],
                     mapInfo := s.mapInfo[id := s.mapInfo[id].(nRefCount := 0)])
    requires var k, victim := TriedBucket(h, s.mapInfo[id]), vTried[pos];
             var info := m.mapInfo[victim];
             var b := NewBucket(h, info, info.source);
             var b := if |m.vvNew[b]| < NEW_BUCKET_SIZE then b else origin;
             t == m.(vvNew := m.vvNew[b := m.vvNew[b] + {victim}], nNew := m.nNew + 1,
                     vvTried := m.vvTried[k := m.vvTried[k][pos := id]],
                     mapInfo := m.mapInfo[victim := info.(nRefCount := 1, fInTried := false)]
                                         [id := m.mapInfo[id].(fInTried := true)])
    ensures t == PromoteEvict(s, h, id, origin, vTried, pos)
  {
    hide Cleared, TriedBucket, NewBucket;
    ClearedAt(s.vvNew, id);
    var victim := vTried[pos];
    assert t.mapInfo == s.mapInfo[id := s.mapInfo[id].(nRefCount := 0, fInTried := true)]
                                 [victim := s.mapInfo[victim].(nRefCount := 1, fInTried := false)];
  }

  // ---- ordered iteration ----

  ghost function Any<T>(s: set<T>): (x: T)
    requires s != {}
    ensures x in s
  {
    var x :| x in s;
    x
  }

  predicate IsLeast(x: Id, ids: set<Id>) {
    x in ids && forall y :: y in ids ==> x <= y
  }

  lemma {:induction false} HasLeast(ids: set<Id>, z: Id)
    requires z in ids
    ensures exists x :: IsLeast(x, ids)
    decreases |ids|
  {
    if y :| y in ids && y < z {
      var rest := ids - {z};
      HasLeast(rest, y);
      var x :| IsLeast(x, rest);
      assert y in rest && ids == rest + {z};
      assert IsLeast(x, ids);
    } else {
      assert IsLeast(z, ids);
    }
  }

  /** The elements of an ordered set, as iteration meets them. */
  method InOrder(ids: set<Id>) returns (r: seq<Id>)
    ensures |r| == |ids| && (forall i :: 0 <= i < |r| ==> r[i] in ids) && (forall x :: x in ids ==> x in r)
    ensures forall i, j :: 0 <= i < j < |r| ==> r[i] < r[j]
  {
    r := [];
    var rest := ids;
    while rest != {}
      invariant rest <= ids && |r| + |rest| == |ids|
      invariant forall i :: 0 <= i < |r| ==> r[i] in ids
      invariant forall x :: x in ids ==> x in r || x in rest
      invariant forall i, j :: 0 <= i < j < |r| ==> r[i] < r[j]
      invariant forall i, y :: 0 <= i < |r| && y in rest ==> r[i] < y
      decreases |rest|
    {
      HasLeast(rest, Any(rest));
      var x :| IsLeast(x, rest);
      r := r + [x];
      rest := rest - {x};
    }
  }
}
