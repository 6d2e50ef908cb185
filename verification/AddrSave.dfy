/** Writing the address manager to disk and reading it back. */
module AddrSave {
  import opened AddrTables

  /** The part of an entry that is written. */
  datatype Record = Record(addr: NetAddr, port: nat, nServices: bv64, nTime: nat,
                           source: NetAddr, nLastSuccess: int, nAttempts: int)

  /** The file: counts, the records of the new entries and then of the tried ones, and for each new bucket
      the positions of its entries among the new ones. */
  datatype File = File(nNew: int, nTried: int, infos: seq<Record>, buckets: seq<seq<int>>)

  function ToRecord(info: Info): Record {
    Record(info.addr, info.port, info.nServices, info.nTime, info.source, info.nLastSuccess, info.nAttempts)
  }

  /** An entry just read. */
  function FromRecord(r: Record): Info {
    Info(r.addr, r.port, r.nServices, r.nTime, 0, r.source, r.nLastSuccess, r.nAttempts, 0, false, -1)
  }

  /** The entries in the order in which they are written: all new ones, then all tried ones. */
  ghost predicate Order(s: Tables, ids: seq<Id>) {
    && |ids| == s.nNew + s.nTried && s.nNew >= 0 && s.nTried >= 0 && Distinct(ids)
    && (forall k :: 0 <= k < |ids| ==> ids[k] in s.mapInfo && (s.mapInfo[ids[k]].fInTried <==> k >= s.nNew))
    && (forall id <- s.mapInfo :: id in ids)
  }

  ghost predicate Written(s: Tables, ids: seq<Id>, f: File)
    requires Order(s, ids)
  {
    && f.nNew == s.nNew && f.nTried == s.nTried
    && |f.infos| == |ids| && (forall k :: 0 <= k < |ids| ==> f.infos[k] == ToRecord(s.mapInfo[ids[k]]))
    && |f.buckets| == |s.vvNew|
    && forall b :: 0 <= b < |f.buckets| ==>
         && Distinct(f.buckets[b])
         && (forall i :: 0 <= i < |f.buckets[b]| ==>
               0 <= f.buckets[b][i] < s.nNew && ids[f.buckets[b][i]] in s.vvNew[b])
         && (forall k :: 0 <= k < s.nNew && ids[k] in s.vvNew[b] ==> k in f.buckets[b])
  }

  /** `t` is `s` with entry `ids[k]` renamed to `k`: same records, same status, same buckets. */
  ghost predicate Renamed(s: Tables, ids: seq<Id>, t: Tables)
    requires Order(s, ids)
  {
    && t.nIdCount == |ids| && t.nNew == s.nNew && t.nTried == s.nTried
    && (forall k :: k in t.mapInfo <==> 0 <= k < |ids|)
    && (forall k :: 0 <= k < |ids| ==>
          && ToRecord(t.mapInfo[k]) == ToRecord(s.mapInfo[ids[k]])
          && t.mapInfo[k].fInTried == s.mapInfo[ids[k]].fInTried
          && t.mapInfo[k].nRefCount == s.mapInfo[ids[k]].nRefCount)
    && |t.vvNew| == |s.vvNew| && |t.vvTried| == |s.vvTried|
    && (forall b, k :: 0 <= b < |s.vvNew| && 0 <= k < |ids| ==> (k in t.vvNew[b] <==> ids[k] in s.vvNew[b]))
    && (forall b, k :: 0 <= b < |s.vvTried| && 0 <= k < |ids| ==> (k in t.vvTried[b] <==> ids[k] in s.vvTried[b]))
  }

  /** All of an entry is the same but for its key, its place in the random order, and when it was last tried. */
  lemma EntryRenamed(s: Tables, ids: seq<Id>, t: Tables, k: nat)
    requires Order(s, ids) && Renamed(s, ids, t) && k < |ids|
    ensures k in t.mapInfo && ids[k] in s.mapInfo
    ensures var was, now := s.mapInfo[ids[k]], t.mapInfo[k];
            now == was.(nLastTry := now.nLastTry, nRandomPos := now.nRandomPos)
  {
  }

  /** The file holds the tables, in some order. */
  ghost predicate Saved(s: Tables, f: File) {
    exists ids :: Order(s, ids) && Written(s, ids, f)
  }

  /** The tables are the same but for the keys of their entries. */
  ghost predicate SameButKeys(s: Tables, t: Tables) {
    exists ids :: Order(s, ids) && Renamed(s, ids, t)
  }

  // ---- reading, entry by entry ----

  const EMPTY := Tables(0, map[], map[], [], 0, seq(TRIED_BUCKET_COUNT, _ => []), 0, seq(NEW_BUCKET_COUNT, _ => {}))

  /** Reading the record of a new entry. */
  function ReadNew(t: Tables, r: Record): Tables {
    var u := Create(t, FromRecord(r));
    u.(nNew := t.nNew + 1)
  }

  /** Reading the record of a tried entry whose bucket has room. */
  function ReadTried(t: Tables, h: Hashes, r: Record): Tables
    requires |t.vvTried| == TRIED_BUCKET_COUNT
  {
    var info := FromRecord(r).(fInTried := true);
    var b := TriedBucket(h, info);
    var u := Create(t, info);
    u.(nTried := t.nTried + 1, vvTried := t.vvTried[b := t.vvTried[b] + [t.nIdCount]])
  }

  /** What holds while records are read: `k` of them so far. */
  ghost predicate Reading(s: Tables, ids: seq<Id>, t: Tables, h: Hashes, k: nat)
    requires Order(s, ids) && k <= |ids|
  {
    && IdsOk(t) && AddrOk(t) && RandomOk(t) && CountsOk(t) && TriedOk(t, h)
    && t.nIdCount == k && t.nNew == (if k < s.nNew then k else s.nNew) && t.nTried == k - t.nNew
    && (forall x :: x in t.mapInfo <==> 0 <= x < k)
    && (forall x :: 0 <= x < k ==>
          t.mapInfo[x]
            == FromRecord(ToRecord(s.mapInfo[ids[x]])).(fInTried := s.mapInfo[ids[x]].fInTried, nRandomPos := x))
    && t.vRandom == seq(k, i => i)
    && t.vvNew == EMPTY.vvNew
  }

  lemma AddressUnused(s: Tables, ids: seq<Id>, t: Tables, h: Hashes, k: nat)
    requires Consistent(s, h, NOBODY) && Order(s, ids) && k < |ids| && Reading(s, ids, t, h, k)
    ensures s.mapInfo[ids[k]].addr !in t.mapAddr
  {
    forall x | 0 <= x < k ensures t.mapInfo[x].addr != s.mapInfo[ids[k]].addr {
      assert s.mapAddr[s.mapInfo[ids[x]].addr] == ids[x] && ids[x] != ids[k];
    }
  }

  lemma ReadNewKeeps(s: Tables, ids: seq<Id>, t: Tables, h: Hashes, k: nat)
    requires Consistent(s, h, NOBODY) && Order(s, ids) && k < s.nNew && Reading(s, ids, t, h, k)
    ensures Reading(s, ids, ReadNew(t, ToRecord(s.mapInfo[ids[k]])), h, k + 1)
  {
    hide AddrOk, RandomOk, TriedOk, CountsOk, Distinct;
    var info := FromRecord(ToRecord(s.mapInfo[ids[k]]));
    AddressUnused(s, ids, t, h, k);
    CreateIndexes(t, info);
    CreateTried(t, h, info);
    CountOne(t, info);
  }

  lemma CreateTriedParts(t: Tables, h: Hashes, r: Record)
    requires IdsOk(t) && AddrOk(t) && RandomOk(t) && CountsOk(t) && r.addr !in t.mapAddr
    requires |t.vvTried| == TRIED_BUCKET_COUNT
    ensures var u := ReadTried(t, h, r); AddrOk(u) && RandomOk(u) && CountsOk(u)
  {
    hide TriedIds, NewIds;
    CreateIndexes(t, FromRecord(r).(fInTried := true));
    CountOne(t, FromRecord(r).(fInTried := true));
  }

  lemma CreateTriedEntry(t: Tables, h: Hashes, r: Record)
    requires IdsOk(t) && TriedOk(t, h)
    requires |t.vvTried[TriedBucket(h, FromRecord(r))]| < TRIED_BUCKET_SIZE
    ensures TriedOk(ReadTried(t, h, r), h)
  {
    var info := FromRecord(r).(fInTried := true);
    var b, id := TriedBucket(h, info), t.nIdCount;
    var u := ReadTried(t, h, r);
    assert id !in t.mapInfo;
    assert id !in t.vvTried[b];
    assert Distinct(u.vvTried[b]);
    assert TriedBucket(h, u.mapInfo[id]) == b;
    hide Distinct, TriedBucket;
  }

  lemma {:induction false} Pigeonhole(a: seq<Id>, b: seq<Id>)
    requires Distinct(a) && forall i :: 0 <= i < |a| ==> a[i] in b
    ensures |a| <= |b|
    decreases |a|
  {
    if a != [] {
      var k := |a| - 1;
      var j :| 0 <= j < |b| && b[j] == a[k];
      var c := b[..j] + b[j + 1..];
      forall i | 0 <= i < k ensures a[..k][i] in c {
        var m :| 0 <= m < |b| && b[m] == a[i];
        assert m < j ==> c[m] == a[i];
        assert m > j ==> c[m - 1] == a[i];
      }
      Pigeonhole(a[..k], c);
    }
  }

  /** A tried bucket that is being refilled still has room: it holds fewer entries than when it was written. */
  lemma RoomLeft(s: Tables, ids: seq<Id>, t: Tables, h: Hashes, k: nat)
    requires Consistent(s, h, NOBODY) && Order(s, ids) && s.nNew <= k < |ids| && Reading(s, ids, t, h, k)
    ensures |t.vvTried[TriedBucket(h, s.mapInfo[ids[k]])]| < TRIED_BUCKET_SIZE
  {
    var b := TriedBucket(h, s.mapInfo[ids[k]]);
    var now := t.vvTried[b];
    forall i | 0 <= i < |now| ensures 0 <= now[i] < k && ids[now[i]] in s.vvTried[b] {
      StoodThere(s, ids, t, h, k, b, now[i]);
    }
    TriedAt(s, h, ids[k], b);
    var before := NamesOf(ids, now) + [ids[k]];
    assert Distinct(before) by {
      assert Distinct(now);
      forall i, j | 0 <= i < j < |before| ensures before[i] != before[j] {
        if j < |now| {
          assert now[i] != now[j];
        }
      }
    }
    Pigeonhole(before, s.vvTried[b]);
  }

  function NamesOf(ids: seq<Id>, positions: seq<Id>): (r: seq<Id>)
    requires forall i :: 0 <= i < |positions| ==> 0 <= positions[i] < |ids|
    ensures |r| == |positions| && forall i :: 0 <= i < |r| ==> r[i] == ids[positions[i]]
  {
    seq(|positions|, i requires 0 <= i < |positions| => ids[positions[i]])
  }

  lemma StoodThere(s: Tables, ids: seq<Id>, t: Tables, h: Hashes, k: nat, b: nat, x: Id)
    requires TriedOk(s, h) && Order(s, ids) && k <= |ids| && Reading(s, ids, t, h, k)
    requires b < |t.vvTried| && x in t.vvTried[b]
    ensures 0 <= x < k && b < |s.vvTried| && ids[x] in s.vvTried[b]
  {
    hide Distinct, TriedBucket;
    assert x in t.mapInfo;
    TriedAt(t, h, x, b);
    TriedAt(s, h, ids[x], b);
    SamePlace(h, t.mapInfo[x], s.mapInfo[ids[x]]);
  }

  lemma ReadTriedKeeps(s: Tables, ids: seq<Id>, t: Tables, h: Hashes, k: nat)
    requires Consistent(s, h, NOBODY) && Order(s, ids) && s.nNew <= k < |ids| && Reading(s, ids, t, h, k)
    ensures |t.vvTried| == TRIED_BUCKET_COUNT
    ensures |t.vvTried[TriedBucket(h, FromRecord(ToRecord(s.mapInfo[ids[k]])))]| < TRIED_BUCKET_SIZE
    ensures Reading(s, ids, ReadTried(t, h, ToRecord(s.mapInfo[ids[k]])), h, k + 1)
  {
    hide AddrOk, RandomOk, CountsOk, Distinct, TriedBucket;
    var r := ToRecord(s.mapInfo[ids[k]]);
    var info := FromRecord(r).(fInTried := true);
    AddressUnused(s, ids, t, h, k);
    RoomLeft(s, ids, t, h, k);
    SamePlace(h, FromRecord(r), s.mapInfo[ids[k]]);
    SamePlace(h, FromRecord(r), info);
    CreateTriedParts(t, h, r);
    CreateTriedEntry(t, h, r);
    var u := ReadTried(t, h, r);
    assert u.vRandom == seq(k + 1, i => i);
  }

  // ---- reading the new buckets ----

  /** Reading that entry `k` is in new bucket `b`. */
  function ReadRef(t: Tables, b: nat, k: Id): Tables
    requires b < |t.vvNew| && k in t.mapInfo
  {
    t.(mapInfo := t.mapInfo[k := t.mapInfo[k].(nRefCount := t.mapInfo[k].nRefCount + 1)],
       vvNew := t.vvNew[b := t.vvNew[b] + {k}])
  }

  /** What holds while new buckets are read: every reference counted stands in a bucket, where it stood before. */
  ghost predicate Refilling(s: Tables, ids: seq<Id>, t: Tables, h: Hashes)
    requires Order(s, ids)
  {
    && IdsOk(t) && AddrOk(t) && RandomOk(t) && CountsOk(t) && TriedOk(t, h)
    && t.nIdCount == |ids| && t.nNew == s.nNew && t.nTried == s.nTried && |t.vvNew| == |s.vvNew|
    && (forall x :: x in t.mapInfo <==> 0 <= x < |ids|)
    && (forall x :: 0 <= x < |ids| ==>
          && ToRecord(t.mapInfo[x]) == ToRecord(s.mapInfo[ids[x]])
          && t.mapInfo[x].fInTried == s.mapInfo[ids[x]].fInTried && t.mapInfo[x].nLastTry == 0
          && t.mapInfo[x].nRefCount == Holders(t.vvNew, x))
    && (forall b, x :: 0 <= b < |t.vvNew| && x in t.vvNew[b] ==> 0 <= x < s.nNew && ids[x] in s.vvNew[b])
    && (forall b :: 0 <= b < |t.vvNew| ==> t.vvNew[b] <= t.mapInfo.Keys)
  }

  lemma {:induction false} HoldersFewer(a: seq<set<Id>>, b: seq<set<Id>>, x: Id, y: Id)
    requires |a| == |b| && forall i :: 0 <= i < |a| && x in a[i] ==> y in b[i]
    ensures Holders(a, x) <= Holders(b, y)
  {
    if a != [] {
      HoldersFewer(a[..|a| - 1], b[..|b| - 1], x, y);
    }
  }

  /** The limit of references per entry is never in the way of reading back what was written. */
  lemma ReadRefKeeps(s: Tables, ids: seq<Id>, t: Tables, h: Hashes, b: nat, k: Id)
    requires Consistent(s, h, NOBODY) && Order(s, ids) && Refilling(s, ids, t, h)
    requires b < |t.vvNew| && 0 <= k < s.nNew && ids[k] in s.vvNew[b] && k !in t.vvNew[b]
    ensures t.mapInfo[k].nRefCount < NEW_BUCKETS_PER_ADDRESS
    ensures Refilling(s, ids, ReadRef(t, b, k), h)
  {
    hide AddrOk, RandomOk, CountsOk, TriedOk, Distinct, TriedIds, NewIds;
    var u := ReadRef(t, b, k);
    forall x ensures Holders(u.vvNew, x) == Holders(t.vvNew, x) + if x == k then 1 else 0 {
      HoldersSet(t.vvNew, b, t.vvNew[b] + {k}, x);
    }
    HoldersFewer(u.vvNew, s.vvNew, k, ids[k]);
    assert RefOk(s, NOBODY, ids[k]);
    ReadRefParts(t, h, b, k);
  }

  lemma ReadRefParts(t: Tables, h: Hashes, b: nat, k: Id)
    requires IdsOk(t) && AddrOk(t) && RandomOk(t) && CountsOk(t) && TriedOk(t, h) && b < |t.vvNew| && k in t.mapInfo
    ensures var u := ReadRef(t, b, k); IdsOk(u) && AddrOk(u) && RandomOk(u) && CountsOk(u) && TriedOk(u, h)
  {
    hide Distinct;
    var u := ReadRef(t, b, k);
    assert TriedIds(u.mapInfo) == TriedIds(t.mapInfo);
    assert NewIds(u.mapInfo) == NewIds(t.mapInfo);
    assert TriedBucket(h, u.mapInfo[k]) == TriedBucket(h, t.mapInfo[k]);
  }

  // ---- the round trip ----

  lemma RecordsRead(s: Tables, ids: seq<Id>, t: Tables, h: Hashes)
    requires Consistent(s, h, NOBODY) && Order(s, ids) && Reading(s, ids, t, h, |ids|)
    ensures Refilling(s, ids, t, h)
  {
    hide AddrOk, RandomOk, CountsOk, TriedOk, Distinct;
    forall x ensures Holders(t.vvNew, x) == 0 {
      HoldersZero(t.vvNew, x);
    }
    forall x | 0 <= x < |ids|
      ensures ToRecord(t.mapInfo[x]) == ToRecord(s.mapInfo[ids[x]]) && t.mapInfo[x].nRefCount == 0
    {
    }
  }

  /** Once all buckets are read, the manager is consistent and the same as the one that was written, but for the
      names of its entries. */
  lemma RoundTrip(s: Tables, ids: seq<Id>, t: Tables, h: Hashes)
    requires Consistent(s, h, NOBODY) && Order(s, ids) && Refilling(s, ids, t, h)
    requires forall b, k :: 0 <= b < |s.vvNew| && 0 <= k < s.nNew && ids[k] in s.vvNew[b] ==> k in t.vvNew[b]
    ensures Consistent(t, h, NOBODY) && Renamed(s, ids, t)
  {
    hide AddrOk, RandomOk, CountsOk, TriedOk, Distinct;
    hide Holders;
    forall x | 0 <= x < |ids| ensures RefsMatch(s, ids, t, x) {
      AllRefsRead(s, ids, t, h, x);
    }
    forall b | 0 <= b < |t.vvNew| ensures |t.vvNew[b]| <= |s.vvNew[b]| {
      SetPigeonhole(ids, t.vvNew[b], s.vvNew[b]);
    }
    TriedKept(s, ids, t, h);
    StatsKept(s, ids, t, h);
    forall x | x in t.mapInfo ensures RefOk(t, NOBODY, x) {
      assert RefsMatch(s, ids, t, x);
      SameRecord(s, ids, t, h, x);
    }
    forall k | 0 <= k < |ids|
      ensures ToRecord(t.mapInfo[k]) == ToRecord(s.mapInfo[ids[k]])
      ensures t.mapInfo[k].fInTried == s.mapInfo[ids[k]].fInTried
      ensures t.mapInfo[k].nRefCount == s.mapInfo[ids[k]].nRefCount
    {
      assert RefsMatch(s, ids, t, k);
    }
    forall b, k | 0 <= b < |s.vvNew| && 0 <= k < |ids| ensures k in t.vvNew[b] <==> ids[k] in s.vvNew[b] {
      assert RefsMatch(s, ids, t, k);
    }
  }

  /** Entry `x` is where it was, in as many buckets, which is as many as it counts. */
  ghost predicate RefsMatch(s: Tables, ids: seq<Id>, t: Tables, x: int)
    requires Order(s, ids) && 0 <= x < |ids|
  {
    && |t.vvNew| == |s.vvNew| && (forall b :: 0 <= b < |s.vvNew| ==> (x in t.vvNew[b] <==> ids[x] in s.vvNew[b]))
    && Holders(t.vvNew, x) == Holders(s.vvNew, ids[x]) == s.mapInfo[ids[x]].nRefCount && RefOk(s, NOBODY, ids[x])
  }

  lemma AllRefsRead(s: Tables, ids: seq<Id>, t: Tables, h: Hashes, x: int)
    requires Consistent(s, h, NOBODY) && Order(s, ids) && Refilling(s, ids, t, h) && 0 <= x < |ids|
    requires forall b, k :: 0 <= b < |s.vvNew| && 0 <= k < s.nNew && ids[k] in s.vvNew[b] ==> k in t.vvNew[b]
    ensures RefsMatch(s, ids, t, x)
  {
    hide AddrOk, RandomOk, CountsOk, TriedOk, Distinct;
    assert ids[x] in s.mapInfo;
    assert 0 <= ids[x];
    RefOkAt(s, ids[x]);
    forall b | 0 <= b < |s.vvNew| ensures x in t.vvNew[b] <==> ids[x] in s.vvNew[b] {
      if ids[x] in s.vvNew[b] {
        HeldIsNew(s, ids[x], b);
      }
    }
    HoldersFewer(t.vvNew, s.vvNew, x, ids[x]);
    HoldersFewer(s.vvNew, t.vvNew, ids[x], x);
  }

  lemma RefOkAt(s: Tables, id: Id)
    requires RefsOk(s, NOBODY) && id in s.mapInfo
    ensures RefOk(s, NOBODY, id)
  {
  }

  lemma HeldIsNew(s: Tables, id: Id, b: nat)
    requires RefsOk(s, NOBODY) && IdsOk(s) && id in s.mapInfo && b < |s.vvNew| && id in s.vvNew[b]
    ensures !s.mapInfo[id].fInTried
  {
    RefOkAt(s, id);
    HoldersZero(s.vvNew, id);
  }

  lemma {:induction false} SetPigeonhole(ids: seq<Id>, a: set<Id>, b: set<Id>)
    requires Distinct(ids) && forall x :: x in a ==> 0 <= x < |ids| && ids[x] in b
    ensures |a| <= |b|
    decreases |a|
  {
    if a != {} {
      var x := Any(a);
      SetPigeonhole(ids, a - {x}, b - {ids[x]});
    }
  }

  lemma TriedKept(s: Tables, ids: seq<Id>, t: Tables, h: Hashes)
    requires TriedOk(s, h) && Order(s, ids) && Refilling(s, ids, t, h)
    ensures |t.vvTried| == |s.vvTried|
    ensures forall b, k :: 0 <= b < |s.vvTried| && 0 <= k < |ids| ==> (k in t.vvTried[b] <==> ids[k] in s.vvTried[b])
  {
    hide Distinct, TriedBucket, AddrOk, RandomOk, CountsOk, Holders;
    forall b, k | 0 <= b < |s.vvTried| && 0 <= k < |ids| ensures k in t.vvTried[b] <==> ids[k] in s.vvTried[b] {
      TriedAt(s, h, ids[k], b);
      TriedAt(t, h, k, b);
      SameRecord(s, ids, t, h, k);
    }
  }

  lemma SameRecord(s: Tables, ids: seq<Id>, t: Tables, h: Hashes, k: int)
    requires Order(s, ids) && Refilling(s, ids, t, h) && 0 <= k < |ids|
    ensures k in t.mapInfo && ids[k] in s.mapInfo && TriedBucket(h, t.mapInfo[k]) == TriedBucket(h, s.mapInfo[ids[k]])
    ensures t.mapInfo[k].fInTried == s.mapInfo[ids[k]].fInTried && t.mapInfo[k].nLastTry == 0
    ensures t.mapInfo[k].nLastSuccess == s.mapInfo[ids[k]].nLastSuccess
  {
    hide Distinct, TriedBucket, AddrOk, RandomOk, CountsOk, TriedOk, Holders;
    assert ToRecord(t.mapInfo[k]) == ToRecord(s.mapInfo[ids[k]]);
    SamePlace(h, t.mapInfo[k], s.mapInfo[ids[k]]);
  }

  lemma TriedAt(s: Tables, h: Hashes, id: Id, b: nat)
    requires TriedOk(s, h) && b < |s.vvTried| && id in s.mapInfo
    ensures id in s.vvTried[b] <==> s.mapInfo[id].fInTried && TriedBucket(h, s.mapInfo[id]) == b
  {
  }

  lemma StatsAt(s: Tables, id: Id)
    requires StatsOk(s) && id in s.mapInfo
    ensures s.mapInfo[id].nLastSuccess >= 0 && (s.mapInfo[id].fInTried ==> s.mapInfo[id].nLastSuccess != 0)
  {
  }

  lemma StatsKept(s: Tables, ids: seq<Id>, t: Tables, h: Hashes)
    requires StatsOk(s) && Order(s, ids) && Refilling(s, ids, t, h)
    ensures StatsOk(t)
  {
    hide Distinct, TriedBucket, AddrOk, RandomOk, CountsOk, TriedOk, Holders;
    forall x | x in t.mapInfo
      ensures t.mapInfo[x].nLastTry >= 0 && t.mapInfo[x].nLastSuccess >= 0
      ensures t.mapInfo[x].fInTried ==> t.mapInfo[x].nLastSuccess != 0
    {
      assert 0 <= x < |ids|;
      SameRecord(s, ids, t, h, x);
      StatsAt(s, ids[x]);
    }
  }

  // ---- the loops that write ----

  /** Distinct members of a finite set are all of it exactly when they are as many. */
  lemma {:induction false} AllMet(a: seq<Id>, ids: set<Id>)
    requires Distinct(a) && forall i :: 0 <= i < |a| ==> a[i] in ids
    ensures |a| <= |ids|
    ensures |a| == |ids| <==> forall x :: x in ids ==> x in a
  {
    if a == [] {
      if ids != {} {
        var y := Any(ids);
        assert y in ids && y !in a;
      }
    } else {
      var k := |a| - 1;
      AllMet(a[..k], ids - {a[k]});
      assert a == a[..k] + [a[k]];
      assert (forall x :: x in ids ==> x in a) <==> (forall x :: x in ids - {a[k]} ==> x in a[..k]);
    }
  }

  /** Meets every entry once. */
  ghost predicate Walk(m: map<Id, Info>, order: seq<Id>) {
    Distinct(order) && (forall i :: 0 <= i < |order| ==> order[i] in m) && forall x <- m :: x in order
  }

  /** Writes the entries that are counted in some new bucket, up to `nNew` of them, and numbers them. */
  method WriteNew(m: map<Id, Info>, order: seq<Id>, nNew: int)
      returns (infos: seq<Record>, mapUnkIds: map<Id, int>, ghost ids: seq<Id>)
    requires Walk(m, order)
    requires nNew == |NewIds(m)| && forall x <- m :: m[x].nRefCount != 0 <==> !m[x].fInTried
    ensures |ids| == nNew == |infos| && Distinct(ids) && (forall x <- m :: !m[x].fInTried ==> x in ids)
    ensures forall k :: 0 <= k < nNew ==>
              && ids[k] in m && !m[ids[k]].fInTried && infos[k] == ToRecord(m[ids[k]])
              && ids[k] in mapUnkIds && mapUnkIds[ids[k]] == k
  {
    infos, mapUnkIds, ids := [], map[], [];
    var nIds := 0;
    var i := 0;
    while i < |order|
      invariant i <= |order| && |ids| == |infos| == nIds && Distinct(ids)
      invariant forall k :: 0 <= k < nIds ==>
                  && ids[k] in m && !m[ids[k]].fInTried && infos[k] == ToRecord(m[ids[k]])
                  && ids[k] in mapUnkIds && mapUnkIds[ids[k]] == k
      invariant forall k :: 0 <= k < nIds ==> ids[k] in order[..i]
      invariant forall j :: 0 <= j < i && !m[order[j]].fInTried ==> order[j] in ids
    {
      if nIds == nNew {
        break;
      }
      var id := order[i];
      assert id !in order[..i];
      mapUnkIds := mapUnkIds[id := nIds];
      if m[id].nRefCount != 0 {
        infos, ids := infos + [ToRecord(m[id])], ids + [id];
        nIds := nIds + 1;
      }
      i := i + 1;
    }
    AllMet(ids, NewIds(m));
  }

  /** Writes the tried entries, up to `nTried` of them. */
  method WriteTried(m: map<Id, Info>, order: seq<Id>, nTried: int) returns (infos: seq<Record>, ghost ids: seq<Id>)
    requires Walk(m, order)
    requires nTried == |TriedIds(m)|
    ensures |ids| == nTried == |infos| && Distinct(ids) && (forall x <- m :: m[x].fInTried ==> x in ids)
    ensures forall k :: 0 <= k < nTried ==> ids[k] in m && m[ids[k]].fInTried && infos[k] == ToRecord(m[ids[k]])
  {
    infos, ids := [], [];
    var i := 0;
    while i < |order|
      invariant i <= |order| && |ids| == |infos| && Distinct(ids)
      invariant forall k :: 0 <= k < |ids| ==>
                  ids[k] in m && m[ids[k]].fInTried && infos[k] == ToRecord(m[ids[k]]) && ids[k] in order[..i]
      invariant forall j :: 0 <= j < i && m[order[j]].fInTried ==> order[j] in ids
    {
      if |infos| == nTried {
        break;
      }
      var id := order[i];
      assert id !in order[..i];
      if m[id].fInTried {
        infos, ids := infos + [ToRecord(m[id])], ids + [id];
      }
      i := i + 1;
    }
    AllMet(ids, TriedIds(m));
  }

  lemma NumberThere(bucket: set<Id>, mapUnkIds: map<Id, int>, x: Id)
    requires x in bucket && forall y :: y in bucket ==> y in mapUnkIds
    ensures x in mapUnkIds
  {
  }

  /** Writes one bucket: the numbers of its entries. */
  method WriteBucket(bucket: set<Id>, mapUnkIds: map<Id, int>) returns (r: seq<int>)
    requires forall x :: x in bucket ==> x in mapUnkIds
    requires forall x, y :: x in bucket && y in bucket && mapUnkIds[x] == mapUnkIds[y] ==> x == y
    ensures Distinct(r) && (forall i :: 0 <= i < |r| ==> exists x :: x in bucket && mapUnkIds[x] == r[i])
    ensures forall x :: x in bucket ==> mapUnkIds[x] in r
  {
    var order := InOrder(bucket);
    r := [];
    forall i | 0 <= i < |order| ensures order[i] in mapUnkIds {
      NumberThere(bucket, mapUnkIds, order[i]);
    }
    while |r| < |order|
      invariant |r| <= |order|
      invariant forall i :: 0 <= i < |order| ==> order[i] in mapUnkIds
      invariant forall i :: 0 <= i < |r| ==> r[i] == mapUnkIds[order[i]]
    {
      r := r + [mapUnkIds[order[|r|]]];
    }
    forall x | x in bucket ensures mapUnkIds[x] in r {
      var i :| 0 <= i < |order| && order[i] == x;
      assert r[i] == mapUnkIds[x];
    }
    forall i, j | 0 <= i < j < |r| ensures r[i] != r[j] {
      assert order[i] in bucket && order[j] in bucket;
    }
    forall i | 0 <= i < |r| ensures exists x :: x in bucket && mapUnkIds[x] == r[i] {
      assert order[i] in bucket && mapUnkIds[order[i]] == r[i];
    }
  }
}
