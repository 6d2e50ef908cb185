/** The address manager: an object whose tables are updated in place. */
module AddrMan {
  import opened Options
  import opened AddrTables
  import opened AddrChoice
  import opened AddrSave
  import AddrCheck
  import Powers

  /** An address as received: where, what it offers, when it was last seen. */
  datatype Address = Address(addr: NetAddr, port: nat, nServices: bv64, nTime: nat)

  const TRIED_ENTRIES_INSPECT_ON_EVICT: nat := 4
  const GETADDR_MAX_PCT: nat := 23
  const GETADDR_MAX: nat := 2500

  /** Conversion to a 32-bit unsigned integer. */
  function ToUint32(v: int): nat {
    v % 0x1_0000_0000
  }

  class CAddrMan {
    const hashes: Hashes

    var nIdCount: int
    var mapInfo: map<Id, Info>
    var mapAddr: map<NetAddr, Id>
    var vRandom: seq<Id>
    var nTried: int
    var vvTried: seq<seq<Id>>
    var nNew: int
    var vvNew: seq<set<Id>>

    function State(): Tables
      reads this
    {
      Tables(nIdCount, mapInfo, mapAddr, vRandom, nTried, vvTried, nNew, vvNew)
    }

    ghost predicate Valid()
      reads this
    {
      nIdCount >= 0 && Consistent(State(), hashes, NOBODY)
    }

    constructor (hashes: Hashes)
      ensures Valid() && mapInfo == map[] && this.hashes == hashes
    {
      this.hashes := hashes;
      nIdCount, mapInfo, mapAddr, vRandom := 0, map[], map[], [];
      nTried, vvTried := 0, seq(TRIED_BUCKET_COUNT, _ => []);
      nNew, vvNew := 0, seq(NEW_BUCKET_COUNT, _ => {});
    }

    method Find(addr: NetAddr) returns (id: Option<Id>)
      requires Valid()
      ensures id.None? ==> forall x <- mapInfo :: mapInfo[x].addr != addr
      ensures id.Some? ==> id.value in mapInfo && mapInfo[id.value].addr == addr
      ensures id == if addr in mapAddr then Some(mapAddr[addr]) else None
    {
      if addr !in mapAddr {
        return None;
      }
      assert mapInfo[mapAddr[addr]].addr == addr;
      id := Some(mapAddr[addr]);
    }

    /** The self-check: finds nothing exactly if what it tests is in order. It enters addresses that it
        does not find. */
    method Check() returns (err: int)
      modifies this`mapAddr
      ensures err == 0 <==> AddrCheck.Passes(old(State()))
      ensures State() == old(State()).(mapAddr := mapAddr) && AddrCheck.LookedUp(old(State()), mapAddr)
      ensures old(Valid()) <==> nIdCount >= 0 && err == 0 && AddrCheck.Untested(old(State()), hashes)
      ensures Valid() <==> nIdCount >= 0 && err == 0 && AddrCheck.Untested(State(), hashes)
      ensures old(Valid()) ==> State() == old(State())
    {
      hide Consistent, AddrCheck.Passes, AddrCheck.Untested;
      ghost var s := State();
      AddrCheck.WhatIsTested(s, hashes);
      err, mapAddr := AddrCheck.Check(State());
      AddrCheck.LookingUpTestsAlike(s, State());
      AddrCheck.WhatIsTested(State(), hashes);
      if Consistent(s, hashes, NOBODY) {
        AddrCheck.NothingLookedUp(s, mapAddr, hashes);
      }
    }

    method SwapRandom(nRndPos1: nat, nRndPos2: nat)
      requires nRndPos1 < |vRandom| && nRndPos2 < |vRandom|
      requires vRandom[nRndPos1] in mapInfo && vRandom[nRndPos2] in mapInfo
      modifies this`mapInfo, this`vRandom
      ensures State() == Swap(old(State()), nRndPos1, nRndPos2)
    {
      if nRndPos1 == nRndPos2 {
        return;
      }
      var nId1, nId2 := vRandom[nRndPos1], vRandom[nRndPos2];
      mapInfo := mapInfo[nId1 := mapInfo[nId1].(nRandomPos := nRndPos2)];
      mapInfo := mapInfo[nId2 := mapInfo[nId2].(nRandomPos := nRndPos1)];
      vRandom := vRandom[nRndPos1 := nId2];
      vRandom := vRandom[nRndPos2 := nId1];
    }

    /** Shuffles the first few entries of a tried bucket and returns a position in it. */
    method SelectTried(nKBucket: nat) returns (nOldestPos: int, ghost draws: seq<nat>)
      requires nKBucket < |vvTried| && forall x :: x in vvTried[nKBucket] ==> x in mapInfo
      modifies this`vvTried
      ensures var bucket := old(vvTried[nKBucket]);
              && |draws| == (if |bucket| < TRIED_ENTRIES_INSPECT_ON_EVICT then |bucket|
                             else TRIED_ENTRIES_INSPECT_ON_EVICT)
              && DrawsOk(draws, |bucket|)
              && vvTried == old(vvTried)[nKBucket := Inspect(mapInfo, bucket, draws).vTried]
              && nOldestPos == Inspect(mapInfo, bucket, draws).nOldestPos
    {
      hide Inspect;
      var vTried := vvTried[nKBucket];
      ghost var before := vTried;
      var nOldest: Option<Id> := None;
      nOldestPos, draws := -1, [];
      NothingInspected(mapInfo, before);
      var i := 0;
      while i < TRIED_ENTRIES_INSPECT_ON_EVICT && i < |vTried|
        invariant vvTried == old(vvTried) && i == |draws| <= |vTried| == |before| && DrawsOk(draws, |before|)
        invariant i <= TRIED_ENTRIES_INSPECT_ON_EVICT
        invariant var r := Inspect(mapInfo, before, draws);
                  (r.vTried, r.nOldest, r.nOldestPos) == (vTried, nOldest, nOldestPos)
      {
        var nPos :| i <= nPos < |vTried|;
        Inspected(mapInfo, before, draws, nPos);
        draws := draws + [nPos];
        var nTemp := vTried[nPos];
        vTried := vTried[nPos := vTried[i]];
        vTried := vTried[i := nTemp];
        if nOldest.None? || mapInfo[nTemp].nLastSuccess < mapInfo[nOldest.value].nLastSuccess {
          nOldest := Some(nTemp);
          nOldestPos := nPos;
        }
        i := i + 1;
      }
      vvTried := vvTried[nKBucket := vTried];
    }

    /** Forgets an entry. */
    method EraseEntry(id: Id)
      requires RandomOk(State()) && id in mapInfo
      modifies this
      ensures State() == Erase(old(State()), id) && vvNew == old(vvNew)
    {
      var addr := mapInfo[id].addr;
      SwapRandom(mapInfo[id].nRandomPos, |vRandom| - 1);
      vRandom := vRandom[..|vRandom| - 1];
      mapAddr := mapAddr - {addr};
      mapInfo := mapInfo - {id};
      nNew := nNew - 1;
    }

    /** Drops `id`, which a bucket has held, from that bucket, and altogether if no other holds it. */
    method DropFrom(nUBucket: nat, id: Id, ghost pending: int)
      requires Consistent(State(), hashes, pending) && nUBucket < NEW_BUCKET_COUNT && id in vvNew[nUBucket]
      requires id != pending
      modifies this
      ensures State() == Unref(old(State()), nUBucket, id) && Consistent(State(), hashes, pending)
    {
      hide Erase, IdsOk, AddrOk, CountsOk, StatsOk, RefsOk, TriedOk, RandomOk;
      UnrefKeeps(State(), hashes, pending, nUBucket, id);
      PutKeepsRandom(State(), id, mapInfo[id].(nRefCount := mapInfo[id].nRefCount - 1));
      mapInfo := mapInfo[id := mapInfo[id].(nRefCount := mapInfo[id].nRefCount - 1)];
      if mapInfo[id].nRefCount == 0 {
        EraseEntry(id);
      }
      vvNew := vvNew[nUBucket := vvNew[nUBucket] - {id}];
    }

    /** Makes room in a new bucket: the first entry that may simply be dropped goes, or else the longest unseen
        of four drawn at random. */
    method ShrinkNew(nUBucket: nat, nNow: int, ghost pending: int) returns (r: int, ghost victim: Id,
                     ghost drawn: set<Id>)
      requires Consistent(State(), hashes, pending) && nUBucket < NEW_BUCKET_COUNT && vvNew[nUBucket] != {}
      requires pending !in vvNew[nUBucket]
      modifies this
      ensures old(vvNew[nUBucket]) <= old(mapInfo).Keys
      ensures Leaves(old(mapInfo), old(vvNew[nUBucket]), nNow, drawn, victim)
      ensures State() == Unref(old(State()), nUBucket, victim)
      ensures Consistent(State(), hashes, pending)
      ensures r == if HasTerrible(old(mapInfo), old(vvNew[nUBucket]), nNow) then 0 else 1
      ensures Goes(old(mapInfo), old(vvNew[nUBucket]), nNow, drawn, victim, r)
    {
      hide IdsOk, AddrOk, CountsOk, StatsOk, RefsOk, TriedOk, IsTerrible, Unref, Goes;
      ghost var s := State();
      var vNew := InOrder(vvNew[nUBucket]);
      assert forall k :: 0 <= k < |vNew| ==> vNew[k] in vvNew[nUBucket];
      drawn := {};
      var i := 0;
      while i < |vNew|
        invariant i <= |vNew| && State() == s
        invariant forall k :: 0 <= k < |vNew| ==> vNew[k] in mapInfo
        invariant forall k :: 0 <= k < i ==> !IsTerrible(mapInfo[vNew[k]], nNow)
      {
        if IsTerrible(mapInfo[vNew[i]], nNow) {
          victim := vNew[i];
          LeavesAndGoes(mapInfo, vvNew[nUBucket], nNow, drawn, victim);
          DropFrom(nUBucket, vNew[i], pending);
          return 0, victim, drawn;
        }
        i := i + 1;
      }
      var n0: nat, n1: nat, n2: nat, n3: nat :| n0 < |vNew| && n1 < |vNew| && n2 < |vNew| && n3 < |vNew|;
      drawn := {vNew[n0], vNew[n1], vNew[n2], vNew[n3]};
      var oldest := OldestDrawn(vNew, n0, n1, n2, n3);
      victim := oldest;
      LeavesAndGoes(mapInfo, vvNew[nUBucket], nNow, drawn, victim);
      DropFrom(nUBucket, oldest, pending);
      r := 1;
    }

    /** The longest unseen of those at the four places. */
    method OldestDrawn(vNew: seq<Id>, n0: nat, n1: nat, n2: nat, n3: nat) returns (r: Id)
      requires n0 < |vNew| && n1 < |vNew| && n2 < |vNew| && n3 < |vNew|
      requires (forall i :: 0 <= i < |vNew| ==> vNew[i] in mapInfo)
      requires forall i, j :: 0 <= i < j < |vNew| ==> vNew[i] < vNew[j]
      ensures var drawn := {vNew[n0], vNew[n1], vNew[n2], vNew[n3]};
              r in drawn && r in mapInfo && drawn <= mapInfo.Keys && OldestAmong(mapInfo, drawn, r)
    {
      var nOldest: Option<Id> := None;
      var nI := 0;
      while nI < |vNew|
        invariant nI <= |vNew|
        invariant nOldest.None? ==> n0 >= nI && n1 >= nI && n2 >= nI && n3 >= nI
        invariant nOldest.Some? ==> nOldest.value in {vNew[n0], vNew[n1], vNew[n2], vNew[n3]}
        invariant nOldest.Some? ==> exists k :: 0 <= k < nI && vNew[k] == nOldest.value
        invariant nOldest.Some? ==> forall k :: 0 <= k < nI && (k == n0 || k == n1 || k == n2 || k == n3) ==>
                    NoLater(mapInfo, nOldest.value, vNew[k])
      {
        if nI == n0 || nI == n1 || nI == n2 || nI == n3 {
          if nOldest.None? || mapInfo[vNew[nI]].nTime < mapInfo[nOldest.value].nTime {
            nOldest := Some(vNew[nI]);
          }
        }
        nI := nI + 1;
      }
      r := nOldest.value;
    }

    /** Takes an entry out of every new bucket. */
    method ClearNew(id: Id)
      requires id in mapInfo && |vvNew| == NEW_BUCKET_COUNT && mapInfo[id].nRefCount == Holders(vvNew, id)
      modifies this`vvNew, this`mapInfo
      ensures vvNew == Cleared(old(vvNew), id)
      ensures mapInfo == old(mapInfo)[id := old(mapInfo)[id].(nRefCount := 0)]
    {
      ghost var info := mapInfo[id];
      for b := 0 to |vvNew|
        invariant |vvNew| == |old(vvNew)|
        invariant forall k :: 0 <= k < |vvNew| ==> vvNew[k] == if k < b then old(vvNew)[k] - {id} else old(vvNew)[k]
        invariant id in mapInfo && mapInfo == old(mapInfo)[id := info.(nRefCount := Holders(vvNew, id))]
      {
        HoldersSet(vvNew, b, vvNew[b] - {id}, id);
        if id in vvNew[b] {
          vvNew := vvNew[b := vvNew[b] - {id}];
          mapInfo := mapInfo[id := mapInfo[id].(nRefCount := mapInfo[id].nRefCount - 1)];
        }
      }
      HoldersZero(vvNew, id);
      assert mapInfo[id].nRefCount == 0;
    }

    /** Moves an entry from its new buckets to its tried bucket. If that one is full, one of its entries,
        `vTried[nPos]`, goes back to a new bucket. */
    method MakeTried(nId: Id, nOrigin: nat) returns (ghost vTried: seq<Id>, ghost nPos: nat, ghost draws: seq<nat>)
      requires nIdCount >= 0 && Linked(State(), hashes, NOBODY) && nId in mapInfo && !mapInfo[nId].fInTried
      requires nOrigin < NEW_BUCKET_COUNT && nId in vvNew[nOrigin]
      modifies this
      ensures nIdCount >= 0 && Linked(State(), hashes, NOBODY)
      ensures var bucket := old(vvTried)[TriedBucket(hashes, old(mapInfo)[nId])];
              if |bucket| < 64 then State() == PromoteFree(old(State()), hashes, nId)
              else && multiset(vTried) == multiset(bucket) && nPos < |vTried| && vTried[nPos] in old(mapInfo)
                   && old(mapInfo)[vTried[nPos]].fInTried
                   && State() == PromoteEvict(old(State()), hashes, nId, nOrigin, vTried, nPos)
                   && |draws| == 4 && DrawsOk(draws, |bucket|) && (forall x :: x in bucket ==> x in old(mapInfo))
                   && vTried == Inspect(old(mapInfo), bucket, draws).vTried
                   && nPos == Inspect(old(mapInfo), bucket, draws).nOldestPos
    {
      hide Linked, Cleared, Distinct, TriedBucket, NewBucket, Holders, Inspect;
      ghost var s := State();
      vTried, nPos, draws := [], 0, [];
      NewEntryFacts(s, hashes, nId);
      ClearedAt(s.vvNew, nId);
      ClearNew(nId);
      nNew := nNew - 1;
      assert mapInfo[nId].nRefCount == 0;
      var nKBucket := TriedBucket(hashes, mapInfo[nId]);
      SamePlace(hashes, mapInfo[nId], s.mapInfo[nId]);
      if |vvTried[nKBucket]| < TRIED_BUCKET_SIZE {
        PromoteFreeKeeps(s, hashes, nId);
        vvTried := vvTried[nKBucket := vvTried[nKBucket] + [nId]];
        nTried := nTried + 1;
        mapInfo := mapInfo[nId := mapInfo[nId].(fInTried := true)];
        assert mapInfo == s.mapInfo[nId := s.mapInfo[nId].(nRefCount := 0, fInTried := true)];
        assert State() == PromoteFree(s, hashes, nId);
        return;
      }
      ghost var bucket := vvTried[nKBucket];
      var pos;
      pos, draws := SelectTried(nKBucket);
      TriedDistinct(s, hashes, nKBucket);
      InspectedAlike(s.mapInfo, mapInfo, bucket, draws);
      NamesOldestIff(mapInfo, bucket, draws);
      vTried, nPos := vvTried[nKBucket], pos;
      PromoteEvictKeeps(s, hashes, nId, nOrigin, vTried, nPos);
      ghost var m := State();
      Evict(nId, nOrigin, nKBucket, pos);
      EvictComposes(s, m, State(), hashes, nId, nOrigin, vTried, nPos);
    }

    /** Puts `nId` in the place of a tried entry, which goes to its own new bucket or else to `nOrigin`. */
    method Evict(nId: Id, nOrigin: nat, nKBucket: nat, nPos: nat)
      requires nKBucket < |vvTried| && nPos < |vvTried[nKBucket]| && vvTried[nKBucket][nPos] in mapInfo
      requires nId in mapInfo && nId != vvTried[nKBucket][nPos] && |vvNew| == NEW_BUCKET_COUNT
      requires nOrigin < NEW_BUCKET_COUNT
      modifies this
      ensures var nOld := old(vvTried[nKBucket][nPos]);
              var info := old(mapInfo)[nOld];
              var b := NewBucket(hashes, info, info.source);
              var b := if |old(vvNew)[b]| < NEW_BUCKET_SIZE then b else nOrigin;
              State() == old(State()).(
                vvNew := old(vvNew)[b := old(vvNew)[b] + {nOld}], nNew := old(nNew) + 1,
                vvTried := old(vvTried)[nKBucket := old(vvTried)[nKBucket][nPos := nId]],
                mapInfo := old(mapInfo)[nOld := info.(nRefCount := 1, fInTried := false)]
                                       [nId := old(mapInfo)[nId].(fInTried := true)])
    {
      hide NewBucket;
      var nOld := vvTried[nKBucket][nPos];
      var nUBucket := NewBucket(hashes, mapInfo[nOld], mapInfo[nOld].source);
      mapInfo := mapInfo[nOld := mapInfo[nOld].(fInTried := false, nRefCount := 1)];
      if |vvNew[nUBucket]| < NEW_BUCKET_SIZE {
        vvNew := vvNew[nUBucket := vvNew[nUBucket] + {nOld}];
      } else {
        vvNew := vvNew[nOrigin := vvNew[nOrigin] + {nOld}];
      }
      nNew := nNew + 1;
      var bucket: seq<Id> := vvTried[nKBucket][nPos := nId];
      vvTried := vvTried[nKBucket := bucket];
      mapInfo := mapInfo[nId := mapInfo[nId].(fInTried := true)];
    }

    /** Marks an address as good, and moves it to the tried tables if it is not there yet. */
    method Good(addr: NetAddr, port: nat, nTime: int)
      requires Valid()
      modifies this
      ensures nIdCount >= 0 && Linked(State(), hashes, NOBODY)
      ensures if addr in old(mapAddr) && old(mapInfo)[old(mapAddr)[addr]].port == port then
                var id := old(mapAddr)[addr];
                var s1 := Put(old(State()), id, Refreshed(old(mapInfo)[id], nTime));
                && (if s1.mapInfo[id].fInTried then State() == s1 else Promoted(s1, State(), hashes, id))
                && (Valid() <==> nTime > 0)
              else State() == old(State())
    {
      hide Linked, Consistent, PromoteFree, PromoteEvict, Distinct, TriedBucket, Holders;
      AddrFacts(State(), hashes);
      ConsistentIsLinked(State(), hashes, NOBODY);
      var found := Find(addr);
      if found.None? || mapInfo[found.value].port != port {
        return;
      }
      var nId := found.value;
      PutKeeps(State(), hashes, NOBODY, nId, Refreshed(mapInfo[nId], nTime));
      mapInfo := mapInfo[nId := mapInfo[nId].(nLastSuccess := nTime, nLastTry := nTime, nTime := ToUint32(nTime),
                                              nAttempts := 0)];
      if mapInfo[nId].fInTried {
        return;
      }
      NewEntryFacts(State(), hashes, nId);
      var nUBucket := FindBucket(nId);
      ghost var s1 := State();
      ghost var vTried, nPos, _ := MakeTried(nId, nUBucket);
      if |s1.vvTried[TriedBucket(hashes, s1.mapInfo[nId])]| >= TRIED_BUCKET_SIZE {
        assert Evicted(s1, State(), hashes, nId, nUBucket, vTried, nPos);
      }
      PromotedMeans(s1, State(), hashes, nId);
      ConsistentStats(s1, State(), hashes, nId);
    }

    /** Some new bucket that holds the entry, searched from a random one on. Never does it find none. */
    method FindBucket(nId: Id) returns (nUBucket: nat)
      requires |vvNew| == NEW_BUCKET_COUNT && Holders(vvNew, nId) >= 1
      ensures nUBucket < |vvNew| && nId in vvNew[nUBucket]
    {
      var nRnd: nat :| nRnd < |vvNew|;
      var n := 0;
      while n < |vvNew|
        invariant n <= |vvNew| && forall k: nat :: k < n ==> nId !in vvNew[FromBucket(k, nRnd)]
      {
        var nB := FromBucket(n, nRnd);
        if nId in vvNew[nB] {
          return nB;
        }
        n := n + 1;
      }
      forall b | 0 <= b < |vvNew| ensures nId !in vvNew[b] {
        EveryResidue(b, nRnd);
      }
      HoldersZero(vvNew, nId);
      assert false;
    }

    /** Marks an address as tried without saying how it ended. */
    method Attempt(addr: NetAddr, port: nat, nTime: int)
      requires Valid()
      modifies this`mapInfo
      ensures nIdCount >= 0 && Linked(State(), hashes, NOBODY)
      ensures if addr in old(mapAddr) && old(mapInfo)[old(mapAddr)[addr]].port == port then
                var id := old(mapAddr)[addr];
                var info := old(mapInfo)[id];
                && mapInfo == old(mapInfo)[id := info.(nLastTry := nTime, nAttempts := info.nAttempts + 1)]
                && (Valid() <==> nTime >= 0)
              else mapInfo == old(mapInfo)
    {
      hide Consistent, Linked;
      AddrFacts(State(), hashes);
      ConsistentIsLinked(State(), hashes, NOBODY);
      var found := Find(addr);
      if found.None? || mapInfo[found.value].port != port {
        return;
      }
      var info := mapInfo[found.value];
      PutKeeps(State(), hashes, NOBODY, found.value, info.(nLastTry := nTime, nAttempts := info.nAttempts + 1));
      mapInfo := mapInfo[found.value := info.(nLastTry := nTime, nAttempts := info.nAttempts + 1)];
    }

    /** Marks an address as connected to at this moment. */
    method Connected(addr: NetAddr, port: nat, nTime: int)
      requires Valid()
      modifies this`mapInfo
      ensures Valid()
      ensures if addr in old(mapAddr) && old(mapInfo)[old(mapAddr)[addr]].port == port
                 && nTime - old(mapInfo)[old(mapAddr)[addr]].nTime > 20 * 60 then
                var id := old(mapAddr)[addr];
                mapInfo == old(mapInfo)[id := old(mapInfo)[id].(nTime := ToUint32(nTime))]
              else mapInfo == old(mapInfo)
    {
      hide Consistent;
      AddrFacts(State(), hashes);
      var found := Find(addr);
      if found.None? || mapInfo[found.value].port != port {
        return;
      }
      var info := mapInfo[found.value];
      if nTime - info.nTime > 20 * 60 {
        PutKeeps(State(), hashes, NOBODY, found.value, info.(nTime := ToUint32(nTime)));
        mapInfo := mapInfo[found.value := info.(nTime := ToUint32(nTime))];
      }
    }

    method Create(addr: Address, source: NetAddr) returns (nId: Id)
      requires nIdCount >= 0 && nIdCount !in mapInfo
      modifies this
      ensures nId == old(nIdCount) && State() == AddrTables.Create(old(State()), NewInfo(addr, source))
    {
      nId := nIdCount;
      nIdCount := nIdCount + 1;
      mapInfo := mapInfo[nId := NewInfo(addr, source)];
      mapAddr := mapAddr[addr.addr := nId];
      mapInfo := mapInfo[nId := mapInfo[nId].(nRandomPos := |vRandom|)];
      vRandom := vRandom + [nId];
      assert mapInfo == old(mapInfo)[nId := NewInfo(addr, source).(nRandomPos := |old(vRandom)|)];
    }

    /** Lets an entry into a new bucket, from which another may have to go. */
    method Enter(nId: Id, nUBucket: nat, nNow: int)
      requires nId in mapInfo && |vvNew| == NEW_BUCKET_COUNT && nUBucket < NEW_BUCKET_COUNT && nIdCount >= 0
      requires if nId in vvNew[nUBucket] then Valid()
               else Consistent(Put(State(), nId, mapInfo[nId].(nRefCount := mapInfo[nId].nRefCount + 1)), hashes, nId)
      modifies this
      ensures Valid() && Entered(old(State()), State(), nId, nUBucket, nNow)
    {
      hide Consistent, Unref, Holders;
      if nId in vvNew[nUBucket] {
        return;
      }
      mapInfo := mapInfo[nId := mapInfo[nId].(nRefCount := mapInfo[nId].nRefCount + 1)];
      ghost var s1 := State();
      PendingFacts(s1, hashes, nId);
      if |vvNew[nUBucket]| == NEW_BUCKET_SIZE {
        var r; ghost var victim, drawn;
        r, victim, drawn := ShrinkNew(nUBucket, nNow, nId);
        UnrefKeeps(s1, hashes, nId, nUBucket, victim);
        UnrefOther(s1, nUBucket, victim, nId);
        assert MadeRoom(s1, State().(vvNew := vvNew[nUBucket := vvNew[nUBucket] + {nId}]), nUBucket, nNow, drawn,
                        victim, nId);
      }
      EnterKeeps(State(), hashes, nUBucket, nId);
      vvNew := vvNew[nUBucket := vvNew[nUBucket] + {nId}];
    }

    /** Hears of an address from `source`. `fRoutable` and `nNow` are the address's routability and the adjusted time.
        */
    method Add(addr: Address, fRoutable: bool, source: NetAddr, nTimePenalty: int, nNow: int)
      returns (fNew: bool, ghost nRand: nat)
      requires Valid()
      modifies this
      ensures Valid()
      ensures fNew == (fRoutable && addr.addr !in old(mapAddr))
      ensures !fRoutable ==> State() == old(State())
      ensures fNew ==>
                var info := Penalized(NewInfo(addr, source), nTimePenalty);
                var s := AddrTables.Create(old(State()), info);
                Entered(s.(nNew := s.nNew + 1), State(), old(nIdCount), NewBucket(hashes, info, source), nNow)
      ensures fRoutable && !fNew ==>
                var id := old(mapAddr)[addr.addr];
                var info := Heard(old(mapInfo)[id], addr, nTimePenalty, nNow);
                var s := Put(old(State()), id, info);
                && nRand < Powers.Pow2(if info.nRefCount > 0 then info.nRefCount else 0)
                && if IsNews(info, addr) && nRand == 0
                   then Entered(s, State(), id, NewBucket(hashes, info, source), nNow) else State() == s
    {
      hide Consistent, Unref, Holders, Entered, NewBucket;
      fNew, nRand := false, 0;
      if !fRoutable {
        return;
      }
      AddrFacts(State(), hashes);
      var found := Find(addr.addr);
      var nId;
      if found.Some? {
        nId := found.value;
        PutKeeps(State(), hashes, NOBODY, nId, Heard(mapInfo[nId], addr, nTimePenalty, nNow));
        mapInfo := mapInfo[nId := Heard(mapInfo[nId], addr, nTimePenalty, nNow)];
        var info := mapInfo[nId];
        if !IsNews(info, addr) {
          return;
        }
        NewEntryFacts(State(), hashes, nId);
        var nFactor := 1;
        for n := 0 to info.nRefCount
          invariant nFactor == Powers.Pow2(n)
        {
          nFactor := nFactor * 2;
        }
        var drawn: nat :| drawn < nFactor;
        nRand := drawn;
        if nFactor > 1 && drawn != 0 {
          return;
        }
        CountKeeps(State(), hashes, nId);
        var nUBucket := NewBucket(hashes, info, source);
        Enter(nId, nUBucket, nNow);
      } else {
        ghost var s := State();
        FreshId(s, hashes);
        var info := Penalized(NewInfo(addr, source), nTimePenalty);
        nId := Create(addr, source);
        mapInfo := mapInfo[nId := mapInfo[nId].(nTime := info.nTime)];
        nNew := nNew + 1;
        fNew := true;
        CreateKeeps(s, hashes, info.(nRefCount := 1));
        ghost var t := AddrTables.Create(s, info);
        assert State() == t.(nNew := t.nNew + 1);
        assert mapInfo[nId := mapInfo[nId].(nRefCount := mapInfo[nId].nRefCount + 1)]
            == AddrTables.Create(s, info.(nRefCount := 1)).mapInfo;
        SameNewBucket(hashes, mapInfo[nId], info, source);
        var nUBucket := NewBucket(hashes, mapInfo[nId], source);
        Enter(nId, nUBucket, nNow);
      }
    }

    /** Writes everything but the keys of the entries, which are numbered anew. */
    method Save() returns (f: File)
      requires Valid()
      ensures Saved(State(), f)
    {
      hide Consistent, Order, Written, Distinct, Walk, RecordsAre, BucketWritten;
      var order := InOrder(mapInfo.Keys);
      SaveFacts(State(), hashes, order);
      var infos, mapUnkIds, ids1 := WriteNew(mapInfo, order, nNew);
      var infos2, ids2 := WriteTried(mapInfo, order, nTried);
      ghost var ids := ids1 + ids2;
      OrderIs(State(), ids1, ids2, infos, infos2);
      var buckets := SaveBuckets(mapUnkIds, ids, ids1);
      f := File(nNew, nTried, infos + infos2, buckets);
      WrittenIs(State(), ids, f);
    }

    method SaveBuckets(mapUnkIds: map<Id, int>, ghost ids: seq<Id>,
                       ghost ids1: seq<Id>) returns (buckets: seq<seq<int>>)
      requires Valid() && Order(State(), ids) && |ids1| == nNew && ids1 <= ids
      requires forall x <- mapInfo :: !mapInfo[x].fInTried ==> x in ids1
      requires forall k :: 0 <= k < nNew ==> ids1[k] in mapUnkIds && mapUnkIds[ids1[k]] == k
      ensures |buckets| == |vvNew| && forall b :: 0 <= b < |buckets| ==> BucketWritten(State(), ids, b, buckets[b])
    {
      hide Consistent, Order, Distinct;
      buckets := [];
      while |buckets| < |vvNew|
        invariant |buckets| <= |vvNew| && forall b :: 0 <= b < |buckets| ==> BucketWritten(State(), ids, b, buckets[b])
      {
        var b := |buckets|;
        forall x | x in vvNew[b] ensures x in mapUnkIds && 0 <= mapUnkIds[x] < nNew && ids[mapUnkIds[x]] == x {
          HeldIsNumbered(State(), hashes, ids1, b, x);
        }
        var bucket := WriteBucket(vvNew[b], mapUnkIds);
        assert BucketWritten(State(), ids, b, bucket);
        buckets := buckets + [bucket];
      }
    }

    /** Reads back what was written: the same manager but for the keys of its entries. */
    method Load(f: File, ghost s: Tables)
      requires Consistent(s, hashes, NOBODY) && Saved(s, f)
      modifies this
      ensures Valid() && SameButKeys(s, State())
    {
      hide Consistent, Reading, Refilling, Order, Written, BucketRead, Renamed;
      ghost var ids :| Order(s, ids) && Written(s, ids, f);
      ghost var t := LoadNew(f, s, ids);
      LoadTried(f, s, ids, t);
      RecordsRead(s, ids, State(), hashes);
      EmptyBuckets(s, ids, State(), hashes, f);
      LoadBuckets(f, s, ids);
      AllBucketsRead(s, ids, State(), f);
      RoundTrip(s, ids, State(), hashes);
    }

    method LoadBuckets(f: File, ghost s: Tables, ghost ids: seq<Id>)
      requires Consistent(s, hashes, NOBODY) && Order(s, ids) && Written(s, ids, f)
      requires Refilling(s, ids, State(), hashes)
      requires |vvNew| == |f.buckets| == NEW_BUCKET_COUNT && forall b :: 0 <= b < |vvNew| ==> vvNew[b] == {}
      modifies this`mapInfo, this`vvNew
      ensures Refilling(s, ids, State(), hashes) && nIdCount == old(nIdCount)
      ensures |vvNew| == |f.buckets|
      ensures forall b :: 0 <= b < |vvNew| ==> BucketRead(f.buckets[b], |f.buckets[b]|, vvNew[b])
    {
      hide Consistent, Refilling, Order, Written, BucketRead;
      var b := 0;
      while b < NEW_BUCKET_COUNT
        invariant b <= NEW_BUCKET_COUNT == |vvNew| && Refilling(s, ids, State(), hashes)
        invariant forall c :: 0 <= c < b ==> BucketRead(f.buckets[c], |f.buckets[c]|, vvNew[c])
        invariant forall c :: b <= c < NEW_BUCKET_COUNT ==> vvNew[c] == {}
      {
        LoadBucket(f, b, s, ids);
        b := b + 1;
      }
    }

    method LoadBucket(f: File, b: nat, ghost s: Tables, ghost ids: seq<Id>)
      requires Consistent(s, hashes, NOBODY) && Order(s, ids) && Written(s, ids, f)
      requires Refilling(s, ids, State(), hashes)
      requires b < |vvNew| == |f.buckets| && vvNew[b] == {}
      modifies this`mapInfo, this`vvNew
      ensures Refilling(s, ids, State(), hashes) && |vvNew| == |old(vvNew)|
      ensures BucketRead(f.buckets[b], |f.buckets[b]|, vvNew[b])
      ensures forall c :: 0 <= c < |vvNew| && c != b ==> vvNew[c] == old(vvNew[c])
    {
      hide Consistent, Refilling, Order, Written, BucketRead;
      NoneRead(f.buckets[b]);
      var n := 0;
      while n < |f.buckets[b]|
        invariant n <= |f.buckets[b]| && |vvNew| == |old(vvNew)| && Refilling(s, ids, State(), hashes)
        invariant BucketRead(f.buckets[b], n, vvNew[b])
        invariant forall c :: 0 <= c < |vvNew| && c != b ==> vvNew[c] == old(vvNew[c])
      {
        var nIndex := f.buckets[b][n];
        NextRef(s, ids, State(), hashes, f, b, n);
        if mapInfo[nIndex].nRefCount < NEW_BUCKETS_PER_ADDRESS {
          mapInfo := mapInfo[nIndex := mapInfo[nIndex].(nRefCount := mapInfo[nIndex].nRefCount + 1)];
          vvNew := vvNew[b := vvNew[b] + {nIndex}];
        }
        n := n + 1;
      }
    }

    /** Reads the records of the new entries. */
    method LoadNew(f: File, ghost s: Tables, ghost ids: seq<Id>) returns (ghost t: Tables)
      requires Consistent(s, hashes, NOBODY) && Order(s, ids) && Written(s, ids, f)
      modifies this
      ensures nNew == s.nNew && nTried == s.nTried
      ensures t == State().(nTried := 0) && Reading(s, ids, t, hashes, nNew)
    {
      hide Consistent, Distinct, IdsOk, AddrOk, RandomOk, CountsOk, TriedOk, Reading, Written, Order;
      WrittenAt(s, ids, f);
      nNew, nTried, nIdCount := f.nNew, f.nTried, 0;
      mapInfo, mapAddr, vRandom := map[], map[], [];
      vvTried, vvNew := seq(TRIED_BUCKET_COUNT, _ => []), seq(NEW_BUCKET_COUNT, _ => {});
      t := EMPTY;
      StartReading(s, ids, hashes);
      var n := 0;
      while n < nNew
        invariant 0 <= n <= nNew == s.nNew && nTried == s.nTried && nIdCount == 0
        invariant t == State().(nIdCount := n, nNew := n, nTried := 0) && Reading(s, ids, t, hashes, n)
      {
        ReadNewKeeps(s, ids, t, hashes, n);
        t := ReadNew(t, f.infos[n]);
        var info := FromRecord(f.infos[n]);
        mapAddr := mapAddr[info.addr := n];
        mapInfo := mapInfo[n := info.(nRandomPos := |vRandom|)];
        vRandom := vRandom + [n];
        n := n + 1;
      }
      nIdCount := nNew;
    }

    /** Reads the records of the tried entries; none is lost, since the bucket of each had room for it. */
    method LoadTried(f: File, ghost s: Tables, ghost ids: seq<Id>, ghost t0: Tables)
      requires Consistent(s, hashes, NOBODY) && Order(s, ids) && Written(s, ids, f)
      requires nNew == s.nNew && nTried == s.nTried
      requires t0 == State().(nTried := 0) && Reading(s, ids, t0, hashes, nNew)
      modifies this
      ensures Reading(s, ids, State(), hashes, |ids|)
    {
      hide Consistent, Distinct, IdsOk, AddrOk, RandomOk, CountsOk, TriedOk, Reading, Written, Order;
      WrittenAt(s, ids, f);
      ghost var t := t0;
      var n, nLost := 0, 0;
      while n < nTried
        invariant 0 <= n <= nTried == s.nTried && nNew == s.nNew && nLost == 0
        invariant t == State().(nTried := n) && Reading(s, ids, t, hashes, nNew + n)
      {
        ReadTriedKeeps(s, ids, t, hashes, nNew + n);
        t := ReadTried(t, hashes, f.infos[nNew + n]);
        var info := FromRecord(f.infos[nNew + n]);
        var k := TriedBucket(hashes, info);
        SamePlace(hashes, info, info.(fInTried := true));
        if |vvTried[k]| < TRIED_BUCKET_SIZE {
          info := info.(nRandomPos := |vRandom|, fInTried := true);
          vRandom := vRandom + [nIdCount];
          mapInfo := mapInfo[nIdCount := info];
          mapAddr := mapAddr[info.addr := nIdCount];
          vvTried := vvTried[k := vvTried[k] + [nIdCount]];
          nIdCount := nIdCount + 1;
        } else {
          nLost := nLost + 1;
        }
        n := n + 1;
      }
      nTried := nTried - nLost;
    }

    /** Hands out some of the addresses, chosen at random. */
    method GetAddr() returns (vAddr: seq<NetAddr>)
      requires Valid()
      modifies this`mapInfo, this`vRandom
      ensures Valid() && SameButPlaces(old(mapInfo), mapInfo)
      ensures |vRandom| == |old(vRandom)|
      ensures |vAddr| == if 23 * |vRandom| / 100 <= 2500 then 23 * |vRandom| / 100 else 2500
      ensures forall i :: 0 <= i < |vAddr| ==> vAddr[i] in mapAddr
      ensures forall i, j :: 0 <= i < j < |vAddr| ==> vAddr[i] != vAddr[j]
    {
      hide Consistent, Swap, SameButPlaces;
      PlacesDiffer(State(), hashes);
      SamePlacesRefl(mapInfo);
      var nNodes := GetAddrCount(|vRandom|);
      vAddr := [];
      for n := 0 to nNodes
        invariant Valid() && |vRandom| == |old(vRandom)| && SameButPlaces(old(mapInfo), mapInfo)
        invariant |vAddr| == n <= |vRandom| && forall i :: 0 <= i < |vRandom| ==> vRandom[i] in mapInfo
        invariant forall i :: 0 <= i < n ==> vAddr[i] == mapInfo[vRandom[i]].addr
      {
        var nRndPos :| n <= nRndPos < |vRandom|;
        ShuffleStep(State(), hashes, old(mapInfo), n, nRndPos);
        SwapRandom(n, nRndPos);
        vAddr := vAddr + [mapInfo[vRandom[n]].addr];
      }
      PlacesDiffer(State(), hashes);
    }
  }

  function GetAddrCount(size: nat): (n: nat)
    ensures n <= size
  {
    var nNodes := GETADDR_MAX_PCT * size / 100;
    if nNodes > GETADDR_MAX then GETADDR_MAX else nNodes
  }

  function NewInfo(addr: Address, source: NetAddr): Info {
    Info(addr.addr, addr.port, addr.nServices, addr.nTime, 0, source, 0, 0, 0, false, -1)
  }

  function Penalized(info: Info, nTimePenalty: int): Info {
    info.(nTime := ToUint32(if info.nTime - nTimePenalty > 0 then info.nTime - nTimePenalty else 0))
  }

  /** A known entry after its address was heard of again. */
  function Heard(info: Info, addr: Address, nTimePenalty: int, nNow: int): Info {
    var nUpdateInterval := if nNow - addr.nTime < 24 * 60 * 60 then 60 * 60 else 24 * 60 * 60;
    var nTime := if addr.nTime != 0 && (info.nTime == 0 || info.nTime < addr.nTime - nUpdateInterval - nTimePenalty)
                 then ToUint32(if addr.nTime - nTimePenalty > 0 then addr.nTime - nTimePenalty else 0) else info.nTime;
    info.(nTime := nTime, nServices := info.nServices | addr.nServices)
  }

  /** Hearing of the address again may be worth another new bucket. */
  predicate IsNews(info: Info, addr: Address) {
    && addr.nTime != 0 && !(info.nTime != 0 && addr.nTime <= info.nTime)
    && !info.fInTried && info.nRefCount != NEW_BUCKETS_PER_ADDRESS
  }

  /** In seconds: an entry that is heard of again is taken to have been seen at the time told less the penalty, if it
      had no time, or that is later by more than an hour and the penalty, or by more than a day and the penalty if the
      time told is a day ago. */
  lemma HeardIs(info: Info, addr: Address, nTimePenalty: int, nNow: int)
    ensures var late := addr.nTime - info.nTime - nTimePenalty > if nNow - addr.nTime < 86_400 then 3_600 else 86_400;
            var told := (if addr.nTime > nTimePenalty then addr.nTime - nTimePenalty else 0) % 4_294_967_296;
            Heard(info, addr, nTimePenalty, nNow)
            == info.(nTime := if addr.nTime != 0 && (info.nTime == 0 || late) then told else info.nTime,
                     nServices := info.nServices | addr.nServices)
  {
  }

  /** It may enter another new bucket if it was heard of with a later time, is not tried, and is in fewer than four. */
  lemma IsNewsIff(info: Info, addr: Address)
    requires info.nRefCount <= 4
    ensures IsNews(info, addr) <==>
              addr.nTime > 0 && (info.nTime == 0 || info.nTime < addr.nTime) && !info.fInTried && info.nRefCount < 4
  {
  }

  lemma PenalizedIs(info: Info, nTimePenalty: int)
    ensures Penalized(info, nTimePenalty)
         == info.(nTime := (if info.nTime > nTimePenalty then info.nTime - nTimePenalty else 0) % 4_294_967_296)
  {
  }

  /** An entry found good has been tried, reached and seen then, and has no failed attempts. */
  lemma RefreshedIs(info: Info, nTime: int)
    ensures var r := Refreshed(info, nTime);
            && r.nLastSuccess == nTime == r.nLastTry && r.nTime == nTime % 4_294_967_296 && r.nAttempts == 0
            && info == r.(nLastSuccess := info.nLastSuccess, nLastTry := info.nLastTry, nTime := info.nTime,
                          nAttempts := info.nAttempts)
  {
  }

  ghost predicate BucketWritten(s: Tables, ids: seq<Id>, b: nat, r: seq<int>)
    requires Order(s, ids) && b < |s.vvNew|
  {
    && Distinct(r)
    && (forall i :: 0 <= i < |r| ==> 0 <= r[i] < s.nNew && ids[r[i]] in s.vvNew[b])
    && (forall k :: 0 <= k < s.nNew && ids[k] in s.vvNew[b] ==> k in r)
  }

  ghost predicate RecordsAre(s: Tables, ids: seq<Id>, infos: seq<Record>) {
    |infos| == |ids| && forall k :: 0 <= k < |ids| ==> ids[k] in s.mapInfo && infos[k] == ToRecord(s.mapInfo[ids[k]])
  }

  lemma WrittenIs(s: Tables, ids: seq<Id>, f: File)
    requires Order(s, ids) && f.nNew == s.nNew && f.nTried == s.nTried && RecordsAre(s, ids, f.infos)
    requires |f.buckets| == |s.vvNew|
    requires forall b :: 0 <= b < |s.vvNew| ==> BucketWritten(s, ids, b, f.buckets[b])
    ensures Written(s, ids, f)
  {
    hide Distinct;
    forall b | 0 <= b < |f.buckets| ensures BucketWritten(s, ids, b, f.buckets[b]) {
    }
  }

  lemma WrittenAt(s: Tables, ids: seq<Id>, f: File)
    requires Order(s, ids) && Written(s, ids, f)
    ensures f.nNew == s.nNew >= 0 && f.nTried == s.nTried >= 0 && |f.infos| == |ids| == s.nNew + s.nTried
    ensures forall k :: 0 <= k < |ids| ==> ids[k] in s.mapInfo && f.infos[k] == ToRecord(s.mapInfo[ids[k]])
    ensures |f.buckets| == |s.vvNew|
  {
  }

  /** A bucket that holds the first `n` of the numbers written for it. */
  ghost predicate BucketRead(r: seq<int>, n: nat, bucket: set<Id>) {
    n <= |r| && (forall i :: 0 <= i < n ==> r[i] in bucket) && (forall x :: x in bucket ==> x in r[..n])
  }

  lemma NoneRead(r: seq<int>)
    ensures BucketRead(r, 0, {})
  {
  }

  lemma NextRef(s: Tables, ids: seq<Id>, t: Tables, h: Hashes, f: File, b: nat, n: nat)
    requires Consistent(s, h, NOBODY) && Order(s, ids) && Written(s, ids, f) && Refilling(s, ids, t, h)
    requires b < |t.vvNew| == |f.buckets| && n < |f.buckets[b]| && BucketRead(f.buckets[b], n, t.vvNew[b])
    ensures var k := f.buckets[b][n];
            && k in t.mapInfo && t.mapInfo[k].nRefCount < NEW_BUCKETS_PER_ADDRESS
            && Refilling(s, ids, ReadRef(t, b, k), h) && BucketRead(f.buckets[b], n + 1, ReadRef(t, b, k).vvNew[b])
  {
    hide Consistent, IdsOk, AddrOk, RandomOk, CountsOk, TriedOk, Holders;
    var r := f.buckets[b];
    var k := r[n];
    assert k !in r[..n] by {
      assert Distinct(r);
    }
    assert r[..n + 1] == r[..n] + [k];
    assert k in t.mapInfo;
    ReadRefKeeps(s, ids, t, h, b, k);
  }

  lemma AllBucketsRead(s: Tables, ids: seq<Id>, t: Tables, f: File)
    requires Order(s, ids) && Written(s, ids, f) && |t.vvNew| == |f.buckets|
    requires forall b :: 0 <= b < |t.vvNew| ==> BucketRead(f.buckets[b], |f.buckets[b]|, t.vvNew[b])
    ensures forall b, k :: 0 <= b < |s.vvNew| && 0 <= k < s.nNew && ids[k] in s.vvNew[b] ==> k in t.vvNew[b]
  {
    forall b, k | 0 <= b < |s.vvNew| && 0 <= k < s.nNew && ids[k] in s.vvNew[b] ensures k in t.vvNew[b] {
      assert k in f.buckets[b];
    }
  }

  lemma EmptyBuckets(s: Tables, ids: seq<Id>, t: Tables, h: Hashes, f: File)
    requires Order(s, ids) && Reading(s, ids, t, h, |ids|) && Consistent(s, h, NOBODY) && Written(s, ids, f)
    ensures t.nIdCount >= 0 && |t.vvNew| == |f.buckets| == NEW_BUCKET_COUNT
    ensures forall b :: 0 <= b < |t.vvNew| ==> t.vvNew[b] == {}
  {
  }

  lemma SaveFacts(s: Tables, h: Hashes, order: seq<Id>)
    requires Consistent(s, h, NOBODY) && (forall i :: 0 <= i < |order| ==> order[i] in s.mapInfo.Keys)
    requires (forall x :: x in s.mapInfo.Keys ==> x in order)
    requires forall i, j :: 0 <= i < j < |order| ==> order[i] < order[j]
    ensures Walk(s.mapInfo, order)
    ensures forall x <- s.mapInfo :: s.mapInfo[x].nRefCount != 0 <==> !s.mapInfo[x].fInTried
    ensures s.nNew == |NewIds(s.mapInfo)| && s.nTried == |TriedIds(s.mapInfo)|
  {
    hide AddrOk, RandomOk, TriedOk;
    forall x | x in s.mapInfo ensures x in order && (s.mapInfo[x].nRefCount != 0 <==> !s.mapInfo[x].fInTried) {
      assert x in s.mapInfo.Keys;
      assert RefOk(s, NOBODY, x);
    }
  }

  lemma OrderIs(s: Tables, ids1: seq<Id>, ids2: seq<Id>, infos1: seq<Record>, infos2: seq<Record>)
    requires |infos1| == |ids1| && |infos2| == |ids2|
    requires forall k :: 0 <= k < |ids1| ==> ids1[k] in s.mapInfo && infos1[k] == ToRecord(s.mapInfo[ids1[k]])
    requires forall k :: 0 <= k < |ids2| ==> ids2[k] in s.mapInfo && infos2[k] == ToRecord(s.mapInfo[ids2[k]])
    requires |ids1| == s.nNew && |ids2| == s.nTried && Distinct(ids1) && Distinct(ids2)
    requires forall k :: 0 <= k < |ids1| ==> ids1[k] in s.mapInfo && !s.mapInfo[ids1[k]].fInTried
    requires forall k :: 0 <= k < |ids2| ==> ids2[k] in s.mapInfo && s.mapInfo[ids2[k]].fInTried
    requires forall x <- s.mapInfo :: if s.mapInfo[x].fInTried then x in ids2 else x in ids1
    ensures Order(s, ids1 + ids2) && RecordsAre(s, ids1 + ids2, infos1 + infos2)
  {
    var ids, infos, n := ids1 + ids2, infos1 + infos2, |ids1|;
    forall k | 0 <= k < |ids|
      ensures ids[k] in s.mapInfo && infos[k] == ToRecord(s.mapInfo[ids[k]]) && (s.mapInfo[ids[k]].fInTried <==> k >= n)
    {
      assert if k < n then ids[k] == ids1[k] && infos[k] == infos1[k]
        else ids[k] == ids2[k - n] && infos[k] == infos2[k - n];
    }
  }

  lemma HeldIsNumbered(s: Tables, h: Hashes, ids1: seq<Id>, b: nat, x: Id)
    requires Consistent(s, h, NOBODY) && b < |s.vvNew| && x in s.vvNew[b]
    requires forall y <- s.mapInfo :: !s.mapInfo[y].fInTried ==> y in ids1
    ensures x in ids1
  {
    assert x in s.mapInfo;
    HeldIsNew(s, x, b);
  }

  lemma StartReading(s: Tables, ids: seq<Id>, h: Hashes)
    requires Order(s, ids)
    ensures Reading(s, ids, EMPTY, h, 0)
  {
    assert TriedIds(EMPTY.mapInfo) == {} && NewIds(EMPTY.mapInfo) == {};
  }

  lemma AddrFact(s: Tables, h: Hashes, id: Id)
    requires Consistent(s, h, NOBODY) && id in s.mapInfo
    ensures s.mapInfo[id].addr in s.mapAddr && s.mapAddr[s.mapInfo[id].addr] == id
  {
  }

  lemma SamePlacesRefl(m: map<Id, Info>)
    ensures SameButPlaces(m, m)
  {
  }

  lemma ShuffleStep(s: Tables, h: Hashes, m: map<Id, Info>, n: nat, q: nat)
    requires Consistent(s, h, NOBODY) && SameButPlaces(m, s.mapInfo) && n <= q < |s.vRandom|
    requires s.vRandom[n] in s.mapInfo && s.vRandom[q] in s.mapInfo
    ensures var t := Swap(s, n, q);
            && Consistent(t, h, NOBODY) && SameButPlaces(m, t.mapInfo) && |t.vRandom| == |s.vRandom|
            && (forall i :: 0 <= i < |t.vRandom| ==> t.vRandom[i] in t.mapInfo)
            && forall i :: 0 <= i < n ==>
                 && t.vRandom[i] in t.mapInfo && s.vRandom[i] in s.mapInfo
                 && t.mapInfo[t.vRandom[i]].addr == s.mapInfo[s.vRandom[i]].addr
  {
    hide AddrOk, CountsOk, StatsOk, RefsOk, TriedOk, NewOk, IdsOk, Swap;
    SwapKeeps(s, h, NOBODY, n, q);
    SwapKeepsRandom(s, n, q);
    var t := Swap(s, n, q);
    PlacesTransitive(m, s.mapInfo, t.mapInfo);
    forall i | 0 <= i < n ensures t.vRandom[i] == s.vRandom[i] && s.vRandom[i] in s.mapInfo
                                  && t.mapInfo[t.vRandom[i]].addr == s.mapInfo[s.vRandom[i]].addr {
      PlaceAt(s.mapInfo, t.mapInfo, s.vRandom[i]);
    }
  }

  lemma PlacesDiffer(s: Tables, h: Hashes)
    requires Consistent(s, h, NOBODY)
    ensures RandomOk(s)
    ensures forall i :: 0 <= i < |s.vRandom| ==> s.vRandom[i] in s.mapInfo && s.mapInfo[s.vRandom[i]].addr in s.mapAddr
    ensures forall i, j :: 0 <= i < j < |s.vRandom| ==> s.mapInfo[s.vRandom[i]].addr != s.mapInfo[s.vRandom[j]].addr
  {
    forall i | 0 <= i < |s.vRandom| ensures s.vRandom[i] in s.mapInfo && s.mapInfo[s.vRandom[i]].addr in s.mapAddr {
      AddrFact(s, h, s.vRandom[i]);
    }
    forall i, j | 0 <= i < j < |s.vRandom| ensures s.mapInfo[s.vRandom[i]].addr != s.mapInfo[s.vRandom[j]].addr {
      assert s.mapInfo[s.vRandom[i]].nRandomPos == i && s.mapInfo[s.vRandom[j]].nRandomPos == j;
      AddrFact(s, h, s.vRandom[i]);
      AddrFact(s, h, s.vRandom[j]);
    }
  }

  lemma SameNewBucket(h: Hashes, a: Info, b: Info, source: NetAddr)
    requires a.addr == b.addr
    ensures NewBucket(h, a, source) == NewBucket(h, b, source)
  {
  }

  lemma FreshId(s: Tables, h: Hashes)
    requires Consistent(s, h, NOBODY)
    ensures s.nIdCount !in s.mapInfo && forall b :: 0 <= b < |s.vvNew| ==> s.nIdCount !in s.vvNew[b]
  {
  }

  lemma PendingFacts(s: Tables, h: Hashes, id: Id)
    requires Consistent(s, h, id)
    ensures |s.vvNew| == NEW_BUCKET_COUNT && RandomOk(s)
    ensures forall b :: 0 <= b < |s.vvNew| ==> |s.vvNew[b]| <= NEW_BUCKET_SIZE && s.vvNew[b] <= s.mapInfo.Keys
  {
  }

  /** Dropping one entry leaves the others in the table. */
  lemma UnrefOther(s: Tables, b: nat, victim: Id, id: Id)
    requires RandomOk(s) && b < |s.vvNew| && victim in s.mapInfo && id in s.mapInfo && id != victim
    ensures id in Unref(s, b, victim).mapInfo && Unref(s, b, victim).nIdCount == s.nIdCount
  {
    PutKeepsRandom(s, victim, s.mapInfo[victim].(nRefCount := s.mapInfo[victim].nRefCount - 1));
    var s1 := Put(s, victim, s.mapInfo[victim].(nRefCount := s.mapInfo[victim].nRefCount - 1));
    EraseEffect(s1, victim);
  }

  function Refreshed(info: Info, nTime: int): Info {
    info.(nLastSuccess := nTime, nLastTry := nTime, nTime := ToUint32(nTime), nAttempts := 0)
  }

  lemma AddrFacts(s: Tables, h: Hashes)
    requires Consistent(s, h, NOBODY)
    ensures forall a <- s.mapAddr :: s.mapAddr[a] in s.mapInfo && s.mapInfo[s.mapAddr[a]].addr == a
    ensures forall id <- s.mapInfo :: s.mapInfo[id].addr in s.mapAddr && s.mapAddr[s.mapInfo[id].addr] == id
    ensures forall id <- s.mapInfo :: s.mapInfo[id].nLastTry >= 0 && s.mapInfo[id].nLastSuccess >= 0
    ensures forall id <- s.mapInfo :: s.mapInfo[id].fInTried ==> s.mapInfo[id].nLastSuccess != 0
    ensures |s.vvTried| == TRIED_BUCKET_COUNT && |s.vvNew| == NEW_BUCKET_COUNT
  {
  }

  lemma TriedDistinct(s: Tables, h: Hashes, b: nat)
    requires Linked(s, h, NOBODY) && b < |s.vvTried|
    ensures Distinct(s.vvTried[b])
  {
  }

  /** Once promoted, an entry has to have been reached. */
  lemma ConsistentStats(s: Tables, t: Tables, h: Hashes, id: Id)
    requires id in s.mapInfo && id in t.mapInfo && t.mapInfo[id].fInTried
    requires t.mapInfo[id].nLastSuccess == s.mapInfo[id].nLastSuccess
    requires Consistent(s, h, NOBODY) <==> StatOk(s.mapInfo[id])
    requires StatsOk(s) && s.mapInfo[id].nLastSuccess != 0 ==> Consistent(t, h, NOBODY)
    requires s.mapInfo[id].nLastSuccess == s.mapInfo[id].nLastTry
    ensures Consistent(t, h, NOBODY) <==> s.mapInfo[id].nLastSuccess > 0
  {
    hide Linked;
    assert StatOk(t.mapInfo[id]) ==> s.mapInfo[id].nLastSuccess > 0;
    assert Consistent(t, h, NOBODY) ==> StatOk(t.mapInfo[id]);
  }
}
