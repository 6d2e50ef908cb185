/** Which entries random draws choose: the one to leave a full tried bucket, and the one to leave a full new one. */
module AddrChoice {
  import opened Options
  import opened AddrTables

  const HORIZON_DAYS: int := 30
  const RETRIES: int := 3
  const MAX_FAILURES: int := 10
  const MIN_FAIL_DAYS: int := 7

  // ---- a full tried bucket ----

  /** State of the loop that shuffles the first entries of a tried bucket; `at` is the step that last recorded one. */
  datatype Inspection = Inspection(vTried: seq<Id>, nOldest: Option<Id>, nOldestPos: int, at: nat)

  /** Step `i` draws a place from `i` on. */
  predicate DrawsOk(draws: seq<nat>, size: nat) {
    |draws| <= size && forall i :: 0 <= i < |draws| ==> i <= draws[i] < size
  }

  function Exchanged(v: seq<Id>, i: nat, j: nat): (r: seq<Id>)
    requires i < |v| && j < |v|
    ensures |r| == |v|
  {
    v[j := v[i]][i := v[j]]
  }

  lemma ExchangedSame(v: seq<Id>, i: nat, j: nat)
    requires i < |v| && j < |v|
    ensures multiset(Exchanged(v, i, j)) == multiset(v) && forall x :: x in Exchanged(v, i, j) ==> x in v
  {
    var w := Exchanged(v, i, j);
    assert multiset(v[j := v[i]]) == multiset(v) - multiset{v[j]} + multiset{v[i]};
    assert multiset(w) == multiset(v[j := v[i]]) - multiset{v[j := v[i]][i]} + multiset{v[j]};
    SameElements(v, w);
  }

  function Inspect(infos: map<Id, Info>, vTried: seq<Id>, draws: seq<nat>): (r: Inspection)
    requires DrawsOk(draws, |vTried|) && forall x :: x in vTried ==> x in infos
    ensures multiset(r.vTried) == multiset(vTried) && |r.vTried| == |vTried| && forall x :: x in r.vTried ==> x in infos
    ensures r.nOldest.Some? ==> r.nOldest.value in infos
    decreases |draws|
  {
    if draws == [] then Inspection(vTried, None, -1, 0)
    else
      var i := |draws| - 1;
      var before := Inspect(infos, vTried, draws[..i]);
      var v := Exchanged(before.vTried, i, draws[i]);
      ExchangedSame(before.vTried, i, draws[i]);
      if before.nOldest.None? || infos[v[i]].nLastSuccess < infos[before.nOldest.value].nLastSuccess
      then Inspection(v, Some(v[i]), draws[i], i)
      else before.(vTried := v)
  }

  /** It goes by when the entries were last successful. */
  lemma {:induction false} InspectedAlike(a: map<Id, Info>, b: map<Id, Info>, vTried: seq<Id>, draws: seq<nat>)
    requires DrawsOk(draws, |vTried|)
    requires forall x :: x in vTried ==> x in a && x in b && a[x].nLastSuccess == b[x].nLastSuccess
    ensures Inspect(a, vTried, draws) == Inspect(b, vTried, draws)
    ensures Inspect(a, vTried, draws).nOldest.Some? ==> Inspect(a, vTried, draws).nOldest.value in vTried
    decreases |draws|
  {
    hide Inspect, Exchanged;
    if draws != [] {
      var i := |draws| - 1;
      InspectedAlike(a, b, vTried, draws[..i]);
      assert draws[..i] + [draws[i]] == draws;
      var before := Inspect(a, vTried, draws[..i]);
      assert |draws[..i]| == i;
      Inspected(a, vTried, draws[..i], draws[i]);
      Inspected(b, vTried, draws[..i], draws[i]);
      ExchangedSame(before.vTried, i, draws[i]);
      SameElements(vTried, before.vTried);
      var x := Exchanged(before.vTried, i, draws[i])[i];
      assert x in Exchanged(before.vTried, i, draws[i]) && x in before.vTried;
    } else {
      NothingInspected(a, vTried);
      NothingInspected(b, vTried);
    }
  }

  /** One step more of the loop. */
  lemma {:induction false} Inspected(infos: map<Id, Info>, vTried: seq<Id>, draws: seq<nat>, d: nat)
    requires DrawsOk(draws, |vTried|) && |draws| <= d < |vTried| && forall x :: x in vTried ==> x in infos
    ensures DrawsOk(draws + [d], |vTried|)
    ensures var i, before := |draws|, Inspect(infos, vTried, draws);
            var v := Exchanged(before.vTried, i, d);
            && v[i] in infos
            && Inspect(infos, vTried, draws + [d])
               == if before.nOldest.None? || infos[v[i]].nLastSuccess < infos[before.nOldest.value].nLastSuccess
                  then Inspection(v, Some(v[i]), d, i) else before.(vTried := v)
  {
    assert (draws + [d])[..|draws|] == draws;
    ExchangedSame(Inspect(infos, vTried, draws).vTried, |draws|, d);
  }

  /** The entry recorded is the least recently successful of those looked at, which then stand in the first places;
      but the position recorded is its position exactly if the draw that chose it was the place it was put in. */
  lemma {:induction false} NamesOldestIff(infos: map<Id, Info>, vTried: seq<Id>, draws: seq<nat>)
    requires DrawsOk(draws, |vTried|) && (forall x :: x in vTried ==> x in infos) && Distinct(vTried) && draws != []
    ensures var r := Inspect(infos, vTried, draws);
            && Distinct(r.vTried) && r.at < |draws| && r.nOldest == Some(r.vTried[r.at]) && r.nOldestPos == draws[r.at]
            && (forall k :: 0 <= k < |draws| ==> infos[r.vTried[r.at]].nLastSuccess <= infos[r.vTried[k]].nLastSuccess)
            && (forall k :: 0 <= k < r.at ==> infos[r.vTried[r.at]].nLastSuccess < infos[r.vTried[k]].nLastSuccess)
            && (r.vTried[r.nOldestPos] == r.nOldest.value <==> draws[r.at] == r.at)
    decreases |draws|
  {
    hide Distinct, Inspect;
    var i := |draws| - 1;
    var r := Inspect(infos, vTried, draws);
    SameElements(vTried, r.vTried);
    InspectStep(infos, vTried, draws);
    if i > 0 {
      NamesOldestIff(infos, vTried, draws[..i]);
    }
    DifferentPlaces(r.vTried, r.nOldestPos, r.at);
  }

  /** A step moves nothing that was looked at before. */
  lemma {:induction false} InspectStep(infos: map<Id, Info>, vTried: seq<Id>, draws: seq<nat>)
    requires DrawsOk(draws, |vTried|) && (forall x :: x in vTried ==> x in infos) && draws != []
    ensures var i := |draws| - 1;
            var (before, r) := (Inspect(infos, vTried, draws[..i]), Inspect(infos, vTried, draws));
            && (forall k :: 0 <= k < i ==> r.vTried[k] == before.vTried[k])
            && (if before.nOldest.None? || infos[r.vTried[i]].nLastSuccess < infos[before.nOldest.value].nLastSuccess
                then r.nOldest == Some(r.vTried[i]) && r.nOldestPos == draws[i] && r.at == i
                else r.nOldest == before.nOldest && r.nOldestPos == before.nOldestPos && r.at == before.at)
            && (i == 0 ==> before.nOldest.None?)
  {
  }

  lemma DifferentPlaces(v: seq<Id>, i: int, j: nat)
    requires Distinct(v) && 0 <= i < |v| && j < |v|
    ensures v[i] == v[j] <==> i == j
  {
  }

  /** In a bucket of any size, if the first draw is of the least recently successful entry and that one does not stand
      first, the position named is that of another entry. */
  lemma {:induction false} NamesAnother(infos: map<Id, Info>, vTried: seq<Id>, draws: seq<nat>)
    requires DrawsOk(draws, |vTried|) && (forall x :: x in vTried ==> x in infos) && Distinct(vTried)
    requires draws != [] && draws[0] != 0 && vTried[draws[0]] in infos
    requires forall x :: x in vTried ==> infos[vTried[draws[0]]].nLastSuccess <= infos[x].nLastSuccess
    ensures var r := Inspect(infos, vTried, draws);
            && r.nOldest == Some(vTried[draws[0]])
            && 0 <= r.nOldestPos < |r.vTried| && r.vTried[r.nOldestPos] != r.nOldest.value
  {
    hide Inspect, Distinct;
    NamesOldestIff(infos, vTried, draws);
    FirstRecorded(infos, vTried, draws);
  }

  /** What the first draw brings to the first place stays there, and is recorded for good if nothing is less recent. */
  lemma {:induction false} FirstRecorded(infos: map<Id, Info>, vTried: seq<Id>, draws: seq<nat>)
    requires DrawsOk(draws, |vTried|) && (forall x :: x in vTried ==> x in infos) && draws != []
    requires vTried[draws[0]] in infos
    requires forall x :: x in vTried ==> infos[vTried[draws[0]]].nLastSuccess <= infos[x].nLastSuccess
    ensures var r := Inspect(infos, vTried, draws); r.at == 0 && r.nOldest == Some(vTried[draws[0]])
    decreases |draws|
  {
    hide Inspect;
    var i := |draws| - 1;
    InspectStep(infos, vTried, draws);
    var v := Inspect(infos, vTried, draws).vTried;
    assert v[i] in multiset(v) && v[i] in multiset(vTried);
    if i > 0 {
      FirstRecorded(infos, vTried, draws[..i]);
      assert draws[..i][0] == draws[0];
      var before := Inspect(infos, vTried, draws[..i]);
      assert infos[v[i]].nLastSuccess >= infos[before.nOldest.value].nLastSuccess;
    } else {
      var d := draws[0];
      NothingInspected(infos, vTried);
      Inspected(infos, vTried, [], d);
      assert [] + [d] == draws;
      assert Exchanged(vTried, 0, d)[0] == vTried[d];
    }
  }

  lemma {:induction false} NothingInspected(infos: map<Id, Info>, vTried: seq<Id>)
    requires forall x :: x in vTried ==> x in infos
    ensures Inspect(infos, vTried, []) == Inspection(vTried, None, -1, 0)
  {
  }

  // ---- a full new bucket ----

  predicate IsTerrible(info: Info, nNow: int) {
    if info.nLastTry != 0 && info.nLastTry >= nNow - 60 then false
    else
      || info.nTime > nNow + 10 * 60
      || info.nTime == 0 || nNow - info.nTime > HORIZON_DAYS * 86400
      || (info.nLastSuccess == 0 && info.nAttempts >= RETRIES)
      || (nNow - info.nLastSuccess > MIN_FAIL_DAYS * 86400 && info.nAttempts >= MAX_FAILURES)
  }

  /** It was not tried within the last minute; and it was seen more than ten minutes ahead of time, or never, or not for
      thirty days, or never reached in three attempts, or not within a week and ten attempts. In seconds. */
  predicate Droppable(info: Info, nNow: int) {
    && (info.nLastTry == 0 || nNow - info.nLastTry > 60)
    && (|| info.nTime - nNow > 600 || info.nTime == 0 || nNow - info.nTime > 2_592_000
        || (info.nAttempts >= 3 && info.nLastSuccess == 0)
        || (info.nAttempts >= 10 && nNow - info.nLastSuccess > 604_800))
  }

  lemma TerribleIff(info: Info, nNow: int)
    ensures IsTerrible(info, nNow) <==> Droppable(info, nNow)
  {
  }

  /** Which entry leaves, and with which result: if any is droppable, the one of least number, with 0; otherwise, with
      1, of up to four drawn one that was not seen after any of them. */
  ghost predicate Goes(infos: map<Id, Info>, ids: set<Id>, nNow: int, drawn: set<Id>, victim: Id, r: int)
    requires ids <= infos.Keys
  {
    && victim in ids
    && if exists x :: x in ids && Droppable(infos[x], nNow)
       then r == 0 && Droppable(infos[victim], nNow)
            && forall x :: x in ids && Droppable(infos[x], nNow) ==> victim <= x
       else r == 1 && victim in drawn && drawn <= ids && |drawn| <= 4
            && forall x :: x in drawn ==> infos[victim].nTime <= infos[x].nTime
  }

  lemma LeavesAndGoes(infos: map<Id, Info>, ids: set<Id>, nNow: int, drawn: set<Id>, victim: Id)
    requires ids <= infos.Keys && Leaves(infos, ids, nNow, drawn, victim)
    ensures Goes(infos, ids, nNow, drawn, victim, if HasTerrible(infos, ids, nNow) then 0 else 1)
  {
    forall x | x in ids ensures IsTerrible(infos[x], nNow) <==> Droppable(infos[x], nNow) {
      TerribleIff(infos[x], nNow);
    }
    hide IsTerrible, Droppable;
    if !HasTerrible(infos, ids, nNow) {
      forall x | x in drawn ensures infos[victim].nTime <= infos[x].nTime {
        assert NoLater(infos, victim, x);
      }
    }
  }

  /** A bucket of entries that have not been tried and were seen lately loses one that was drawn. */
  lemma FreshGoesByDraw(infos: map<Id, Info>, ids: set<Id>, nNow: int, drawn: set<Id>, victim: Id, r: int)
    requires ids <= infos.Keys && Goes(infos, ids, nNow, drawn, victim, r)
    requires forall x :: x in ids ==> infos[x].nLastTry == 0 && infos[x].nAttempts == 0 && infos[x].nTime > 0
    requires forall x :: x in ids ==> nNow - 2_592_000 <= infos[x].nTime <= nNow + 600
    ensures r == 1 && victim in drawn && forall x :: x in drawn ==> infos[victim].nTime <= infos[x].nTime
  {
  }

  /** Some entry of the bucket may simply be dropped. */
  predicate HasTerrible(infos: map<Id, Info>, ids: set<Id>, nNow: int)
    requires ids <= infos.Keys
  {
    exists id :: id in ids && IsTerrible(infos[id], nNow)
  }

  /** The one to leave the bucket: the first that may simply be dropped, or else the longest unseen of up to four that
      were drawn, and of several such the first. */
  ghost predicate Leaves(infos: map<Id, Info>, ids: set<Id>, nNow: int, drawn: set<Id>, victim: Id)
    requires ids <= infos.Keys
  {
    && victim in ids
    && if HasTerrible(infos, ids, nNow)
       then IsTerrible(infos[victim], nNow) && forall x :: x in ids && x < victim ==> !IsTerrible(infos[x], nNow)
       else victim in drawn && drawn <= ids && |drawn| <= 4 && OldestAmong(infos, drawn, victim)
  }

  ghost predicate OldestAmong(infos: map<Id, Info>, drawn: set<Id>, victim: Id)
    requires drawn <= infos.Keys && victim in infos
  {
    forall x :: x in drawn ==> NoLater(infos, victim, x)
  }

  predicate NoLater(infos: map<Id, Info>, a: Id, b: Id)
    requires a in infos && b in infos
  {
    infos[a].nTime < infos[b].nTime || (infos[a].nTime == infos[b].nTime && a <= b)
  }

  /** `t` is `s` after entry `id`, unless it was there already, has entered new bucket `b`; if the bucket was full,
      an entry has left it. */
  ghost predicate Entered(s: Tables, t: Tables, id: Id, b: nat, nNow: int)
    requires id in s.mapInfo && b < |s.vvNew|
  {
    if id in s.vvNew[b] then t == s
    else
      var s1 := Put(s, id, s.mapInfo[id].(nRefCount := s.mapInfo[id].nRefCount + 1));
      if |s.vvNew[b]| != NEW_BUCKET_SIZE then t == s1.(vvNew := s.vvNew[b := s.vvNew[b] + {id}])
      else exists victim, drawn :: RandomOk(s1) && MadeRoom(s1, t, b, nNow, drawn, victim, id)
  }

  ghost predicate MadeRoom(s: Tables, t: Tables, b: nat, nNow: int, drawn: set<Id>, victim: Id, id: Id)
    requires RandomOk(s) && b < |s.vvNew|
  {
    && s.vvNew[b] <= s.mapInfo.Keys && Leaves(s.mapInfo, s.vvNew[b], nNow, drawn, victim)
    && var u := Unref(s, b, victim);
       |u.vvNew| > b && t == u.(vvNew := u.vvNew[b := u.vvNew[b] + {id}])
  }

  /** A bucket of 64 is full: then one entry goes, as said. */
  lemma EntersAt64(s: Tables, t: Tables, id: Id, b: nat, nNow: int)
    requires id in s.mapInfo && b < |s.vvNew| && id !in s.vvNew[b] && Entered(s, t, id, b, nNow)
    ensures |s.vvNew[b]| != 64 ==>
              t == Put(s, id, s.mapInfo[id].(nRefCount := s.mapInfo[id].nRefCount + 1))
                   .(vvNew := s.vvNew[b := s.vvNew[b] + {id}])
    ensures |s.vvNew[b]| == 64 ==> s.vvNew[b] <= s.mapInfo.Keys && OneGoes(s, t, id, b, nNow)
  {
    hide Goes, Unref, RandomOk;
    if |s.vvNew[b]| == 64 {
      var s1 := Put(s, id, s.mapInfo[id].(nRefCount := s.mapInfo[id].nRefCount + 1));
      var victim, drawn :| RandomOk(s1) && MadeRoom(s1, t, b, nNow, drawn, victim, id);
      LeavesAndGoes(s1.mapInfo, s.vvNew[b], nNow, drawn, victim);
      GoesAlike(s1.mapInfo, s.mapInfo, s.vvNew[b], nNow, drawn, victim,
                if HasTerrible(s1.mapInfo, s.vvNew[b], nNow) then 0 else 1);
      UnrefLeaves(s1, b, victim);
    }
  }

  /** One entry has left the bucket, and `id` is in it instead. */
  ghost predicate OneGoes(s: Tables, t: Tables, id: Id, b: nat, nNow: int)
    requires b < |s.vvNew| && s.vvNew[b] <= s.mapInfo.Keys
  {
    exists victim, drawn, r :: && Goes(s.mapInfo, s.vvNew[b], nNow, drawn, victim, r)
                               && t.vvNew == s.vvNew[b := s.vvNew[b] - {victim} + {id}]
  }

  lemma GoesAlike(a: map<Id, Info>, c: map<Id, Info>, ids: set<Id>, nNow: int, drawn: set<Id>, victim: Id, r: int)
    requires ids <= a.Keys && ids <= c.Keys && forall x :: x in ids ==> a[x] == c[x]
    requires Goes(a, ids, nNow, drawn, victim, r)
    ensures Goes(c, ids, nNow, drawn, victim, r)
  {
    hide Droppable;
  }

  lemma UnrefLeaves(s: Tables, b: nat, victim: Id)
    requires b < |s.vvNew| && RandomOk(s) && victim in s.mapInfo
    ensures Unref(s, b, victim).vvNew == s.vvNew[b := s.vvNew[b] - {victim}]
  {
  }
}
