/** The script-check queue: shared fields under one mutex, a master and any number of workers. */
module CheckQueue {
  import opened Options

  /** One queued verification and what running it returns. */
  datatype Check = Check(id: nat, result: bool)

  function Max(a: nat, b: nat): nat { if a < b then b else a }

  function Min(a: nat, b: nat): nat { if a < b then a else b }

  // ---- one critical section ----

  datatype Shared = Shared(queue: seq<Check>, nIdle: int, nTotal: int, fAllOk: bool, nTodo: int, nBatchSize: nat)

  /** Where a thread is: not in the loop, about to take the mutex for the first time, waiting on its
      condition variable, notified but not yet running, or running a batch of which `rest` is left. */
  datatype Pc = Outside | Entering | Asleep | Woken | Working(nNow: nat, rest: seq<Check>, fOk: bool)

  predicate Ready(pc: Pc) {
    pc.Entering? || pc.Woken? || (pc.Working? && pc.rest == [])
  }

  /** How a critical section ends: with a return, asleep, or with a batch. */
  datatype Exit = Exit(shared: Shared, pc: Pc, notifyMaster: bool, ret: Option<bool>)

  function Arrive(sh: Shared, pc: Pc): Shared
    requires Ready(pc)
  {
    match pc
    case Entering => sh.(nTotal := sh.nTotal + 1)
    case Woken => sh.(nIdle := sh.nIdle - 1)
    case Working(nNow, _, fOk) => sh.(fAllOk := sh.fAllOk && fOk, nTodo := sh.nTodo - nNow)
  }

  function BatchSize(sh: Shared): nat
    requires sh.nTotal + sh.nIdle + 1 > 0
  {
    Max(1, Min(sh.nBatchSize, |sh.queue| / (sh.nTotal + sh.nIdle + 1)))
  }

  /** A batch is a fair share of the queue among the threads and one more, but at most the limit and at least one
      check; and no smaller. */
  lemma BatchIsShare(sh: Shared)
    requires sh.nTotal + sh.nIdle >= 0 && sh.nBatchSize >= 1
    ensures var n, threads := BatchSize(sh), sh.nTotal + sh.nIdle + 1;
            && 1 <= n <= sh.nBatchSize
            && (n == 1 || n * threads <= |sh.queue|)
            && (n == sh.nBatchSize || (n + 1) * threads > |sh.queue|)
  {
    var threads := sh.nTotal + sh.nIdle + 1;
    var share := |sh.queue| / threads;
    assert share * threads <= |sh.queue| < (share + 1) * threads;
    if share < 1 {
      assert 2 * threads >= threads;
    }
    if BatchSize(sh) < share {
      assert BatchSize(sh) * threads <= share * threads;
    }
  }

  /** The batch: the last `n` elements of the queue, last one first. */
  function Batch(queue: seq<Check>, n: nat): seq<Check>
    requires n <= |queue|
  {
    seq(n, i requires 0 <= i < n => queue[|queue| - 1 - i])
  }

  lemma BatchFits(sh: Shared)
    requires sh.queue != [] && sh.nTotal + sh.nIdle + 1 > 0
    ensures 1 <= BatchSize(sh) <= |sh.queue|
  {
    var d := sh.nTotal + sh.nIdle + 1;
    assert |sh.queue| / d <= |sh.queue|;
  }

  function Leave(sh: Shared, fMaster: bool, notify: bool): Exit
    requires sh.nTotal + sh.nIdle + 1 > 0
  {
    if sh.queue == [] then
      if fMaster && sh.nTodo == 0 then
        Exit(sh.(nTotal := sh.nTotal - 1, fAllOk := true), Outside, notify, Some(sh.fAllOk))
      else
        Exit(sh.(nIdle := sh.nIdle + 1), Asleep, notify, None)
    else
      BatchFits(sh);
      var nNow := BatchSize(sh);
      Exit(sh.(queue := sh.queue[..|sh.queue| - nNow]), Working(nNow, Batch(sh.queue, nNow), sh.fAllOk), notify, None)
  }

  function Critical(sh: Shared, pc: Pc, fMaster: bool): Exit
    requires Ready(pc) && Arrive(sh, pc).nTotal + Arrive(sh, pc).nIdle + 1 > 0
  {
    var sh1 := Arrive(sh, pc);
    Leave(sh1, fMaster, pc.Working? && sh1.nTodo == 0 && !fMaster)
  }

  // ---- the queue object ----

  class CCheckQueue {
    var queue: seq<Check>
    var nIdle: int
    var nTotal: int
    var fAllOk: bool
    var nTodo: int
    const nBatchSize: nat

    function State(): Shared
      reads this
    {
      Shared(queue, nIdle, nTotal, fAllOk, nTodo, nBatchSize)
    }

    constructor (nBatchSizeIn: nat)
      ensures State() == Shared([], 0, 0, true, 0, nBatchSizeIn)
    {
      nIdle, nTotal, fAllOk, nTodo, nBatchSize := 0, 0, true, 0, nBatchSizeIn;
      queue := [];
    }

    /** The part of the loop that runs under the mutex: from taking it to waiting, returning or leaving with a batch. */
    method Section(pc: Pc, fMaster: bool) returns (pc': Pc, notifyMaster: bool, ret: Option<bool>)
      requires Ready(pc) && Arrive(State(), pc).nTotal + Arrive(State(), pc).nIdle + 1 > 0
      modifies this
      ensures Exit(State(), pc', notifyMaster, ret) == Critical(old(State()), pc, fMaster)
    {
      notifyMaster, ret := false, None;
      match pc {
        case Entering => nTotal := nTotal + 1;
        case Woken => nIdle := nIdle - 1;
        case Working(nNow, _, fOk) =>
          fAllOk := fAllOk && fOk;
          nTodo := nTodo - nNow;
          notifyMaster := nTodo == 0 && !fMaster;
      }
      if |queue| == 0 {
        if fMaster && nTodo == 0 {
          nTotal := nTotal - 1;
          ret := Some(fAllOk);
          fAllOk := true;
          return Outside, notifyMaster, ret;
        }
        nIdle := nIdle + 1;
        return Asleep, notifyMaster, ret;
      }
      BatchFits(State());
      var nNow := Max(1, Min(nBatchSize, |queue| / (nTotal + nIdle + 1)));
      var vChecks := Take(nNow);
      pc' := Working(nNow, vChecks, fAllOk);
    }

    method Take(nNow: nat) returns (vChecks: seq<Check>)
      requires nNow <= |queue|
      modifies this`queue
      ensures queue == old(queue)[..|old(queue)| - nNow] && vChecks == Batch(old(queue), nNow)
    {
      vChecks := [];
      for i := 0 to nNow
        invariant queue == old(queue)[..|old(queue)| - i] && vChecks == Batch(old(queue), i)
      {
        vChecks := vChecks + [queue[|queue| - 1]];
        queue := queue[..|queue| - 1];
      }
    }

    /** Runs a batch outside the mutex: once a check has failed, the rest is skipped. */
    method RunBatch(vChecks: seq<Check>, fOkIn: bool) returns (fOk: bool)
      ensures fOk <==> fOkIn && forall i :: 0 <= i < |vChecks| ==> vChecks[i].result
    {
      fOk := fOkIn;
      for i := 0 to |vChecks|
        invariant fOk <==> fOkIn && forall k :: 0 <= k < i ==> vChecks[k].result
      {
        if fOk {
          fOk := vChecks[i].result;
        }
      }
    }

    /** Adds a batch; says whether one worker or all workers are notified. */
    method Add(vChecks: seq<Check>) returns (notifyOne: bool, notifyAll: bool)
      modifies this
      ensures State() == old(State()).(queue := old(queue) + vChecks, nTodo := old(nTodo) + |vChecks|)
      ensures notifyOne == (|vChecks| == 1) && notifyAll == (|vChecks| > 1)
    {
      for i := 0 to |vChecks|
        invariant State() == old(State()).(queue := old(queue) + vChecks[..i])
      {
        queue := queue + [vChecks[i]];
      }
      nTodo := nTodo + |vChecks|;
      notifyOne, notifyAll := |vChecks| == 1, |vChecks| > 1;
    }
  }

  // ---- all threads ----

  /** `threads[0]` is the master. `added`, `ran` and `skipped` are the checks since the last `Wait` returned. */
  datatype System = System(sh: Shared, threads: seq<Pc>,
                           added: multiset<Check>, ran: multiset<Check>, skipped: multiset<Check>)

  function Init(nBatchSize: nat, nWorkers: nat): System {
    System(Shared([], 0, 0, true, 0, nBatchSize), [Outside] + seq(nWorkers, _ => Entering),
           multiset{}, multiset{}, multiset{})
  }

  /** One worker asleep at most is woken by `notify_one`. */
  ghost predicate WakesOneOf(before: seq<Pc>, after: seq<Pc>) {
    || (after == before && forall i :: 1 <= i < |before| ==> !before[i].Asleep?)
    || exists i :: 1 <= i < |before| && before[i].Asleep? && after == before[i := Woken]
  }

  function WakeAll(threads: seq<Pc>): seq<Pc> {
    seq(|threads|, i requires 0 <= i < |threads| => if i > 0 && threads[i].Asleep? then Woken else threads[i])
  }

  ghost predicate AddStep(s: System, t: System, vChecks: seq<Check>)
    requires |s.threads| > 0
  {
    && s.threads[0].Outside?
    && t.sh == s.sh.(queue := s.sh.queue + vChecks, nTodo := s.sh.nTodo + |vChecks|)
    && t.added == s.added + multiset(vChecks) && t.ran == s.ran && t.skipped == s.skipped
    && (if |vChecks| == 1 then WakesOneOf(s.threads, t.threads)
        else t.threads == if |vChecks| > 1 then WakeAll(s.threads) else s.threads)
  }

  /** The master calls `Wait`. */
  ghost predicate CallStep(s: System, t: System)
    requires |s.threads| > 0
  {
    s.threads[0].Outside? && t == s.(threads := s.threads[0 := Entering])
  }

  /** A thread runs, or skips, the next check of its batch. */
  ghost predicate RunStep(s: System, t: System, i: nat) {
    && i < |s.threads| && s.threads[i].Working? && s.threads[i].rest != []
    && var c := s.threads[i].rest[0];
    && var pc := s.threads[i];
    && t == s.(threads := s.threads[i := Working(pc.nNow, pc.rest[1..], pc.fOk && c.result)],
               ran := if pc.fOk then s.ran + multiset{c} else s.ran,
               skipped := if pc.fOk then s.skipped else s.skipped + multiset{c})
  }

  function AfterSection(s: System, i: nat, exit: Exit): System
    requires |s.threads| > 0 && i < |s.threads|
  {
    var threads := s.threads[i := exit.pc];
    var threads := if exit.notifyMaster && threads[0].Asleep? then threads[0 := Woken] else threads;
    if exit.ret.Some? then System(exit.shared, threads, multiset{}, multiset{}, multiset{})
    else s.(sh := exit.shared, threads := threads)
  }

  /** A thread goes through the critical section. */
  ghost predicate SectionStep(s: System, t: System, i: nat) {
    && i < |s.threads| && Ready(s.threads[i])
    && Arrive(s.sh, s.threads[i]).nTotal + Arrive(s.sh, s.threads[i]).nIdle + 1 > 0
    && t == AfterSection(s, i, Critical(s.sh, s.threads[i], i == 0))
  }

  /** A condition variable may also wake a thread for no reason. */
  ghost predicate SpuriousStep(s: System, t: System, i: nat) {
    i < |s.threads| && s.threads[i].Asleep? && t == s.(threads := s.threads[i := Woken])
  }

  ghost predicate Next(s: System, t: System)
    requires |s.threads| > 0
  {
    || (exists vChecks :: AddStep(s, t, vChecks))
    || CallStep(s, t)
    || (exists i: nat :: RunStep(s, t, i))
    || (exists i: nat :: SectionStep(s, t, i))
    || (exists i: nat :: SpuriousStep(s, t, i))
  }

  // ---- sums over threads ----

  function Sum(f: Pc -> int, threads: seq<Pc>): int {
    if threads == [] then 0 else Sum(f, threads[..|threads| - 1]) + f(threads[|threads| - 1])
  }

  function Rests(threads: seq<Pc>): multiset<Check> {
    if threads == [] then multiset{} else Rests(threads[..|threads| - 1]) + RestOf(threads[|threads| - 1])
  }

  function RestOf(pc: Pc): multiset<Check> { if pc.Working? then multiset(pc.rest) else multiset{} }

  function InFlight(pc: Pc): int { if pc.Working? then pc.nNow else 0 }

  function InLoop(pc: Pc): int { if pc.Asleep? || pc.Woken? || pc.Working? then 1 else 0 }

  function Idle(pc: Pc): int { if pc.Asleep? || pc.Woken? then 1 else 0 }

  lemma {:induction false} SumSet(f: Pc -> int, threads: seq<Pc>, i: nat, pc: Pc)
    requires i < |threads|
    ensures Sum(f, threads[i := pc]) == Sum(f, threads) - f(threads[i]) + f(pc)
  {
    var k := |threads| - 1;
    if i < k {
      SumSet(f, threads[..k], i, pc);
      assert threads[i := pc][..k] == threads[..k][i := pc];
    } else {
      assert threads[i := pc][..k] == threads[..k];
    }
  }

  lemma {:induction false} RestsSet(threads: seq<Pc>, i: nat, pc: Pc)
    requires i < |threads|
    ensures Rests(threads[i := pc]) + RestOf(threads[i]) == Rests(threads) + RestOf(pc)
  {
    hide RestOf;
    var k := |threads| - 1;
    if i < k {
      RestsSet(threads[..k], i, pc);
      assert threads[i := pc][..k] == threads[..k][i := pc];
      AddBoth(Rests(threads[..k]), Rests(threads[..k][i := pc]), RestOf(threads[k]), RestOf(threads[i]), RestOf(pc));
    } else {
      assert threads[i := pc][..k] == threads[..k];
    }
  }

  lemma AddBoth(a: multiset<Check>, a': multiset<Check>, l: multiset<Check>, x: multiset<Check>, y: multiset<Check>)
    requires a' + x == a + y
    ensures (a' + l) + x == (a + l) + y
  {
    assert (a' + l) + x == (a' + x) + l;
    assert (a + l) + y == (a + y) + l;
  }

  lemma {:induction false} SumSame(f: Pc -> int, a: seq<Pc>, b: seq<Pc>)
    requires |a| == |b| && forall i :: 0 <= i < |a| ==> f(a[i]) == f(b[i])
    ensures Sum(f, a) == Sum(f, b)
  {
    if a != [] {
      SumSame(f, a[..|a| - 1], b[..|b| - 1]);
    }
  }

  lemma {:induction false} RestsSame(a: seq<Pc>, b: seq<Pc>)
    requires |a| == |b| && forall i :: 0 <= i < |a| ==> RestOf(a[i]) == RestOf(b[i])
    ensures Rests(a) == Rests(b)
  {
    if a != [] {
      RestsSame(a[..|a| - 1], b[..|b| - 1]);
    }
  }

  lemma {:induction false} SumPositive(f: Pc -> int, threads: seq<Pc>)
    requires forall pc :: f(pc) >= 0
    ensures Sum(f, threads) >= 0
    ensures Sum(f, threads) == 0 <==> forall i :: 0 <= i < |threads| ==> f(threads[i]) == 0
  {
    if threads != [] {
      var k := |threads| - 1;
      SumPositive(f, threads[..k]);
      assert forall i :: 0 <= i < |threads| ==> i == k || threads[i] == threads[..k][i];
    }
  }

  // ---- the invariant ----

  ghost predicate Failed(ran: multiset<Check>) {
    exists c :: c in ran && !c.result
  }

  ghost predicate SomeBad(threads: seq<Pc>) {
    exists i :: 0 <= i < |threads| && threads[i].Working? && !threads[i].fOk
  }

  ghost predicate Counted(s: System) {
    && s.sh.nTodo == |s.sh.queue| + Sum(InFlight, s.threads)
    && s.sh.nTotal == Sum(InLoop, s.threads)
    && s.sh.nIdle == Sum(Idle, s.threads)
    && s.sh.nTodo <= |s.added|
  }

  /** Every check added is still queued, or in a batch, or was run, or was skipped. */
  ghost predicate Conserved(s: System) {
    s.added == multiset(s.sh.queue) + Rests(s.threads) + s.ran + s.skipped
  }

  /** A failure that happened is known to the queue or to the thread that saw it, and nothing is skipped without one. */
  ghost predicate Judged(s: System) {
    && (Failed(s.ran) ==> !s.sh.fAllOk || SomeBad(s.threads))
    && (!s.sh.fAllOk || SomeBad(s.threads) || s.skipped != multiset{} ==> Failed(s.ran))
  }

  ghost predicate Core(s: System) {
    && |s.threads| > 0 && Counted(s) && Conserved(s) && Judged(s)
    && forall i :: 0 <= i < |s.threads| && s.threads[i].Working? ==> |s.threads[i].rest| <= s.threads[i].nNow
  }

  ghost predicate Inv(s: System) {
    && Core(s)
    && (forall i :: 0 <= i < |s.threads| && s.threads[i].Working? ==> s.threads[i].nNow >= 1)
    && (forall i :: 1 <= i < |s.threads| ==> !s.threads[i].Outside?)
    && (s.threads[0].Asleep? ==> s.sh.queue == [] && s.sh.nTodo > 0)
  }

  // ---- what one step does to the sums ----

  lemma SetThread(s: System, i: nat, pc: Pc)
    requires i < |s.threads|
    ensures var threads := s.threads[i := pc];
            && Sum(InFlight, threads) == Sum(InFlight, s.threads) - InFlight(s.threads[i]) + InFlight(pc)
            && Sum(InLoop, threads) == Sum(InLoop, s.threads) - InLoop(s.threads[i]) + InLoop(pc)
            && Sum(Idle, threads) == Sum(Idle, s.threads) - Idle(s.threads[i]) + Idle(pc)
            && Rests(threads) + RestOf(s.threads[i]) == Rests(s.threads) + RestOf(pc)
  {
    SumSet(InFlight, s.threads, i, pc);
    SumSet(InLoop, s.threads, i, pc);
    SumSet(Idle, s.threads, i, pc);
    RestsSet(s.threads, i, pc);
  }

  /** Stands for a thread inside the critical section. */
  const INSIDE := Working(0, [], true)

  lemma ArriveJudged(s: System, i: nat)
    requires Judged(s) && i < |s.threads| && Ready(s.threads[i])
    ensures Judged(s.(sh := Arrive(s.sh, s.threads[i]), threads := s.threads[i := INSIDE]))
  {
    var t := s.(sh := Arrive(s.sh, s.threads[i]), threads := s.threads[i := INSIDE]);
    if SomeBad(s.threads) {
      var k :| 0 <= k < |s.threads| && s.threads[k].Working? && !s.threads[k].fOk;
      assert k != i ==> t.threads[k] == s.threads[k];
    }
    if SomeBad(t.threads) {
      var k :| 0 <= k < |t.threads| && t.threads[k].Working? && !t.threads[k].fOk;
      assert t.threads[k] == s.threads[k];
    }
    if s.threads[i].Working? && !s.threads[i].fOk {
      assert SomeBad(s.threads);
    }
  }

  lemma ArriveKeeps(s: System, i: nat)
    requires Core(s) && i < |s.threads| && Ready(s.threads[i])
    ensures Core(s.(sh := Arrive(s.sh, s.threads[i]), threads := s.threads[i := INSIDE]))
  {
    hide Judged, Rests, Sum, RestOf;
    var t := s.(sh := Arrive(s.sh, s.threads[i]), threads := s.threads[i := INSIDE]);
    SetThread(s, i, INSIDE);
    ArriveJudged(s, i);
    NoRest(s.threads[i]);
    NoRest(INSIDE);
    assert Rests(t.threads) + multiset{} == Rests(t.threads) && Rests(s.threads) + multiset{} == Rests(s.threads);
  }

  lemma NoRest(pc: Pc)
    ensures !pc.Working? || pc.rest == [] ==> RestOf(pc) == multiset{}
  {
  }

  /** A thread inside the critical section goes to sleep. */
  lemma SleepKeeps(s: System, i: nat)
    requires Core(s) && i < |s.threads| && s.threads[i] == INSIDE
    ensures Core(s.(sh := s.sh.(nIdle := s.sh.nIdle + 1), threads := s.threads[i := Asleep]))
  {
    hide Judged, Rests, Sum, RestOf;
    var t := s.(sh := s.sh.(nIdle := s.sh.nIdle + 1), threads := s.threads[i := Asleep]);
    SetThread(s, i, Asleep);
    NoRest(INSIDE);
    NoRest(Asleep);
    LeaveJudged(s, i, Asleep, t.sh);
    assert Rests(t.threads) + multiset{} == Rests(t.threads) && Rests(s.threads) + multiset{} == Rests(s.threads);
  }

  /** A thread inside the critical section leaves with a batch. */
  lemma TakeKeeps(s: System, i: nat, nNow: nat)
    requires Core(s) && i < |s.threads| && s.threads[i] == INSIDE && nNow <= |s.sh.queue|
    ensures Core(s.(sh := s.sh.(queue := s.sh.queue[..|s.sh.queue| - nNow]),
                    threads := s.threads[i := Working(nNow, Batch(s.sh.queue, nNow), s.sh.fAllOk)]))
  {
    hide Judged, Rests, Sum, RestOf, Batch;
    var pc := Working(nNow, Batch(s.sh.queue, nNow), s.sh.fAllOk);
    var t := s.(sh := s.sh.(queue := s.sh.queue[..|s.sh.queue| - nNow]), threads := s.threads[i := pc]);
    SetThread(s, i, pc);
    NoRest(INSIDE);
    LeaveJudged(s, i, pc, t.sh);
    BatchIsBack(s.sh.queue, nNow);
    TakeRest(pc);
    assert Rests(t.threads) + multiset{} == Rests(t.threads);
    MoveBatch(multiset(t.sh.queue), RestOf(pc), Rests(s.threads), s.ran, s.skipped);
    assert |Batch(s.sh.queue, nNow)| == nNow by { BatchLength(s.sh.queue, nNow); }
  }

  lemma BatchLength(queue: seq<Check>, n: nat)
    requires n <= |queue|
    ensures |Batch(queue, n)| == n
  {
  }

  lemma MoveBatch(f: multiset<Check>, b: multiset<Check>, r: multiset<Check>, x: multiset<Check>, y: multiset<Check>)
    ensures (f + b) + r + x + y == f + (r + b) + x + y
  {
  }

  lemma LeaveJudged(s: System, i: nat, pc: Pc, sh: Shared)
    requires Judged(s) && i < |s.threads| && s.threads[i] == INSIDE
    requires pc.Working? ==> pc.fOk == s.sh.fAllOk
    requires sh.fAllOk == s.sh.fAllOk
    ensures Judged(s.(sh := sh, threads := s.threads[i := pc]))
  {
    var t := s.(sh := sh, threads := s.threads[i := pc]);
    if SomeBad(s.threads) {
      var k :| 0 <= k < |s.threads| && s.threads[k].Working? && !s.threads[k].fOk;
      assert t.threads[k] == s.threads[k];
    }
    if SomeBad(t.threads) {
      var k :| 0 <= k < |t.threads| && t.threads[k].Working? && !t.threads[k].fOk;
      assert k != i ==> t.threads[k] == s.threads[k];
    }
  }

  lemma TakeRest(pc: Pc)
    requires pc.Working?
    ensures RestOf(pc) == multiset(pc.rest)
  {
  }

  lemma {:induction false} BatchIsBack(queue: seq<Check>, n: nat)
    requires n <= |queue|
    ensures multiset(queue) == multiset(queue[..|queue| - n]) + multiset(Batch(queue, n))
  {
    var k := |queue| - n;
    assert queue == queue[..k] + queue[k..];
    if n > 0 {
      BatchIsBack(queue, n - 1);
      assert queue[..k + 1] == queue[..k] + [queue[k]];
      assert Batch(queue, n) == Batch(queue, n - 1) + [queue[k]];
    } else {
      assert queue[..k] == queue && Batch(queue, n) == [];
    }
  }

  /** A waiting thread that is notified still counts as idle. */
  lemma WakeKeeps(s: System, threads: seq<Pc>)
    requires Core(s) && |threads| == |s.threads|
    requires forall i :: 0 <= i < |threads|
               ==> threads[i] == s.threads[i] || (s.threads[i].Asleep? && threads[i].Woken?)
    ensures Core(s.(threads := threads))
  {
    hide Rests, Sum;
    SumSame(InFlight, threads, s.threads);
    SumSame(InLoop, threads, s.threads);
    SumSame(Idle, threads, s.threads);
    RestsSame(threads, s.threads);
    forall i | 0 <= i < |threads| && threads[i].Working? ensures threads[i] == s.threads[i] {
    }
    if SomeBad(s.threads) {
      var k :| 0 <= k < |s.threads| && s.threads[k].Working? && !s.threads[k].fOk;
      assert threads[k] == s.threads[k];
    }
  }

  // ---- every step keeps the invariant ----

  lemma RunKeeps(s: System, t: System, i: nat)
    requires Inv(s) && RunStep(s, t, i)
    ensures Inv(t)
  {
    hide Rests, Sum, RestOf, Judged;
    var pc, pc' := s.threads[i], t.threads[i];
    var c := pc.rest[0];
    SetThread(s, i, pc');
    TakeRest(pc);
    TakeRest(pc');
    assert pc.rest == [c] + pc'.rest;
    assert Rests(t.threads) + (multiset{c} + multiset(pc'.rest))
      == (Rests(t.threads) + multiset{c}) + multiset(pc'.rest);
    Cancel(Rests(t.threads) + multiset{c}, Rests(s.threads), multiset(pc'.rest));
    RunJudged(s, t, i);
  }

  lemma Cancel(a: multiset<Check>, b: multiset<Check>, x: multiset<Check>)
    requires a + x == b + x
    ensures a == b
  {
    forall c ensures a[c] == b[c] {
      assert (a + x)[c] == (b + x)[c];
    }
  }

  lemma RunJudged(s: System, t: System, i: nat)
    requires Judged(s) && RunStep(s, t, i)
    ensures Judged(t)
  {
    var c := s.threads[i].rest[0];
    if SomeBad(s.threads) {
      var k :| 0 <= k < |s.threads| && s.threads[k].Working? && !s.threads[k].fOk;
      assert t.threads[k].Working? && !t.threads[k].fOk;
    }
    if Failed(s.ran) {
      var x :| x in s.ran && !x.result;
      assert x in t.ran;
    }
    if Failed(t.ran) && !Failed(s.ran) {
      assert t.threads[i].Working? && !t.threads[i].fOk;
    }
    if SomeBad(t.threads) && !SomeBad(s.threads) {
      assert c in t.ran && !c.result;
    }
    if !s.threads[i].fOk {
      assert SomeBad(s.threads);
    }
  }

  lemma SpuriousKeeps(s: System, t: System, i: nat)
    requires Inv(s) && SpuriousStep(s, t, i)
    ensures Inv(t)
  {
    WakeKeeps(s, t.threads);
  }

  lemma CallKeeps(s: System, t: System)
    requires Inv(s) && CallStep(s, t)
    ensures Inv(t)
  {
    hide Rests, Sum;
    SetThread(s, 0, Entering);
    assert Rests(t.threads) + multiset{} == Rests(t.threads) && Rests(s.threads) + multiset{} == Rests(s.threads);
    if SomeBad(s.threads) {
      var k :| 0 <= k < |s.threads| && s.threads[k].Working? && !s.threads[k].fOk;
      assert t.threads[k] == s.threads[k];
    }
  }

  lemma AddKeeps(s: System, t: System, vChecks: seq<Check>)
    requires Inv(s) && AddStep(s, t, vChecks)
    ensures Inv(t)
  {
    hide Rests, Sum, Judged;
    var u := s.(sh := t.sh, added := t.added);
    assert Core(u) by {
      assert Judged(u) by { AddJudged(s, u); }
      assert multiset(u.sh.queue) == multiset(s.sh.queue) + multiset(vChecks);
    }
    WakeKeeps(u, t.threads);
  }

  lemma AddJudged(s: System, t: System)
    requires Judged(s) && t.threads == s.threads && t.ran == s.ran && t.skipped == s.skipped
    requires t.sh.fAllOk == s.sh.fAllOk
    ensures Judged(t)
  {
  }

  /** What is true when the master finds the queue empty and nothing to do. */
  lemma AllDone(s: System, i: nat)
    requires Core(s) && i < |s.threads| && s.threads[i] == INSIDE && s.sh.queue == [] && s.sh.nTodo == 0
    requires forall k :: 0 <= k < |s.threads| && k != i && s.threads[k].Working? ==> s.threads[k].nNow >= 1
    ensures forall k :: 0 <= k < |s.threads| && k != i ==> !s.threads[k].Working?
    ensures s.sh.fAllOk <==> forall c :: c in s.added ==> c.result
    ensures s.sh.nTotal == s.sh.nIdle + 1
  {
    SumPositive(InFlight, s.threads);
    forall k | 0 <= k < |s.threads| && k != i ensures !s.threads[k].Working? {
      assert InFlight(s.threads[k]) == 0;
    }
    NoRests(s.threads);
    assert !SomeBad(s.threads);
    var idle := s.threads[i := Woken];
    SetThread(s, i, Woken);
    SumLoopIsIdle(idle);
  }

  lemma {:induction false} NoRests(threads: seq<Pc>)
    requires forall k :: 0 <= k < |threads| && threads[k].Working? ==> threads[k].rest == []
    ensures Rests(threads) == multiset{}
  {
    if threads != [] {
      NoRests(threads[..|threads| - 1]);
    }
  }

  lemma {:induction false} SumLoopIsIdle(threads: seq<Pc>)
    requires forall k :: 0 <= k < |threads| ==> !threads[k].Working?
    ensures Sum(InLoop, threads) == Sum(Idle, threads)
  {
    if threads != [] {
      SumLoopIsIdle(threads[..|threads| - 1]);
    }
  }

  /** The threads inside the loop are at least as many as the idle ones, so the batch size is well-defined. */
  lemma SectionEnabled(s: System, i: nat)
    requires Inv(s) && i < |s.threads| && Ready(s.threads[i])
    ensures Arrive(s.sh, s.threads[i]).nTotal + Arrive(s.sh, s.threads[i]).nIdle + 1 > 0
  {
    hide Sum;
    var threads := s.threads[i := INSIDE];
    SetThread(s, i, INSIDE);
    SumPositive(InLoop, threads);
    SumPositive(Idle, threads);
  }

  /** The state in which thread `i` has taken the mutex and cleaned up after itself. */
  function Inside(s: System, i: nat): System
    requires i < |s.threads| && Ready(s.threads[i])
  {
    s.(sh := Arrive(s.sh, s.threads[i]), threads := s.threads[i := INSIDE])
  }

  lemma {:induction false} NoneWorking(threads: seq<Pc>)
    requires forall k :: 0 <= k < |threads| ==> !threads[k].Working?
    ensures Sum(InFlight, threads) == 0 && Rests(threads) == multiset{} && !SomeBad(threads)
    ensures Sum(InLoop, threads) == Sum(Idle, threads)
  {
    SumPositive(InFlight, threads);
    NoRests(threads);
    SumLoopIsIdle(threads);
  }

  /** The master returns: nothing is queued or in flight, and the answer is the conjunction of all checks. */
  lemma ReturnKeeps(s: System, i: nat)
    requires Inv(s) && i < |s.threads| && Ready(s.threads[i]) && Core(Inside(s, i))
    requires var mid := Inside(s, i).sh; mid.queue == [] && mid.nTodo == 0
    ensures var mid := Inside(s, i).sh;
            && (mid.fAllOk <==> forall c :: c in s.added ==> c.result)
            && mid.nTotal - 1 == mid.nIdle
            && Core(System(mid.(nTotal := mid.nTotal - 1, fAllOk := true), s.threads[i := Outside],
                           multiset{}, multiset{}, multiset{}))
  {
    hide Sum, Rests, Arrive;
    var mid := Inside(s, i);
    forall k | 0 <= k < |mid.threads| && k != i && mid.threads[k].Working? ensures mid.threads[k].nNow >= 1 {
      assert mid.threads[k] == s.threads[k];
    }
    AllDone(mid, i);
    var threads := s.threads[i := Outside];
    forall k | 0 <= k < |threads| ensures !threads[k].Working? {
      assert k != i ==> threads[k] == mid.threads[k];
    }
    NoneWorking(threads);
    assert threads == mid.threads[i := Outside];
    SetThread(mid, i, Outside);
  }

  lemma SectionCore(s: System, t: System, i: nat)
    requires Inv(s) && SectionStep(s, t, i)
    ensures Core(t)
  {
    hide Core, Arrive, BatchSize;
    var mid := Inside(s, i);
    var exit := Critical(s.sh, s.threads[i], i == 0);
    assert Core(s);
    ArriveKeeps(s, i);
    if exit.ret.Some? {
      ReturnKeeps(s, i);
    } else {
      var u := s.(sh := exit.shared, threads := s.threads[i := exit.pc]);
      assert u.threads == mid.threads[i := exit.pc];
      if mid.sh.queue == [] {
        SleepKeeps(mid, i);
      } else {
        BatchFits(mid.sh);
        TakeKeeps(mid, i, BatchSize(mid.sh));
      }
      assert Core(u);
      WakeKeeps(u, t.threads);
    }
  }

  /** What the section leaves of the threads: its own has a non-empty batch if any, others are at most woken. */
  lemma SectionThreads(s: System, t: System, i: nat)
    requires Inv(s) && SectionStep(s, t, i)
    ensures |t.threads| == |s.threads|
    ensures t.threads[i].Working? ==> t.threads[i].nNow >= 1
    ensures i >= 1 ==> !t.threads[i].Outside?
    ensures forall k :: 0 <= k < |t.threads| && k != i ==>
              t.threads[k] == s.threads[k] || (s.threads[k].Asleep? && t.threads[k].Woken?)
  {
    hide Core, BatchSize;
    var mid := Inside(s, i);
    if mid.sh.queue != [] {
      BatchFits(mid.sh);
    }
  }

  /** The master sleeps only while something is in flight. */
  lemma SectionSleep(s: System, t: System, i: nat)
    requires Inv(s) && SectionStep(s, t, i) && Core(t)
    ensures t.threads[0].Asleep? ==> t.sh.queue == [] && t.sh.nTodo > 0
  {
    hide Core, BatchSize;
    TodoNonNegative(t);
    var mid := Inside(s, i);
    if mid.sh.queue != [] {
      BatchFits(mid.sh);
    }
  }

  lemma SectionKeeps(s: System, t: System, i: nat)
    requires Inv(s) && SectionStep(s, t, i)
    ensures Inv(t)
  {
    hide Core, SectionStep;
    SectionCore(s, t, i);
    SectionThreads(s, t, i);
    SectionSleep(s, t, i);
  }

  lemma TodoNonNegative(s: System)
    requires Core(s)
    ensures s.sh.nTodo >= 0
  {
    SumPositive(InFlight, s.threads);
  }

  /** Every step of every thread keeps the invariant. */
  lemma NextKeeps(s: System, t: System)
    requires Inv(s) && |s.threads| > 0 && Next(s, t)
    ensures Inv(t)
  {
    hide Inv, AddStep, CallStep, RunStep, SectionStep, SpuriousStep;
    if vChecks :| AddStep(s, t, vChecks) {
      AddKeeps(s, t, vChecks);
    } else if CallStep(s, t) {
      CallKeeps(s, t);
    } else if i: nat :| RunStep(s, t, i) {
      RunKeeps(s, t, i);
    } else if i: nat :| SectionStep(s, t, i) {
      SectionKeeps(s, t, i);
    } else {
      var i: nat :| SpuriousStep(s, t, i);
      SpuriousKeeps(s, t, i);
    }
  }

  lemma InitInv(nBatchSize: nat, nWorkers: nat)
    ensures Inv(Init(nBatchSize, nWorkers))
  {
    var s := Init(nBatchSize, nWorkers);
    NoneWorking(s.threads);
    SumSame(InLoop, s.threads, seq(|s.threads|, _ => Outside));
    SumPositive(InLoop, s.threads);
  }

  // ---- main results ----

  ghost predicate Run(run: seq<System>) {
    run != [] && forall k :: 0 <= k < |run| - 1 ==> |run[k].threads| > 0 && Next(run[k], run[k + 1])
  }

  /** The invariant holds in every state of every run, for any number of workers and any interleaving. */
  lemma {:induction false} AlwaysInv(run: seq<System>, nBatchSize: nat, nWorkers: nat, k: nat)
    requires Run(run) && run[0] == Init(nBatchSize, nWorkers) && k < |run|
    ensures Inv(run[k])
  {
    hide Inv, Next, Init;
    if k == 0 {
      InitInv(nBatchSize, nWorkers);
    } else {
      AlwaysInv(run, nBatchSize, nWorkers, k - 1);
      NextKeeps(run[k - 1], run[k]);
    }
  }

  /** `Wait` returns the conjunction of all checks added since it last returned, although some may have been skipped,
      and leaves the queue as the next controller expects to find it. */
  lemma WaitIsConjunction(s: System, t: System, i: nat, result: bool)
    requires Inv(s) && SectionStep(s, t, i) && Critical(s.sh, s.threads[i], i == 0).ret == Some(result)
    ensures i == 0
    ensures result <==> forall c :: c in s.added ==> c.result
    ensures t.sh.nTotal == t.sh.nIdle && t.sh.nTodo == 0 && t.sh.fAllOk && t.threads[0].Outside?
  {
    hide Core;
    ArriveKeeps(s, i);
    ReturnKeeps(s, i);
  }

  /** Whenever the master is outside and has added nothing yet, the assertions of a new controller hold. */
  lemma ControllerAssertions(s: System)
    requires Inv(s) && s.threads[0].Outside? && s.added == multiset{}
    ensures s.sh.nTotal == s.sh.nIdle && s.sh.nTodo == 0 && s.sh.fAllOk
  {
    SumPositive(InFlight, s.threads);
    forall k | 0 <= k < |s.threads| ensures !s.threads[k].Working? {
      assert InFlight(s.threads[k]) == 0;
    }
    NoneWorking(s.threads);
    assert s.ran == multiset{};
  }

  /** No wake-up is lost: a master asleep and not notified always has a worker with a batch to wait for. */
  lemma MasterHasWorker(s: System)
    requires Inv(s) && s.threads[0].Asleep?
    ensures exists i :: 1 <= i < |s.threads| && s.threads[i].Working? && s.threads[i].nNow > 0
  {
    SumPositive(InFlight, s.threads);
    var i :| 0 <= i < |s.threads| && InFlight(s.threads[i]) != 0;
    assert s.threads[i].Working?;
  }

  /** What a thread can do on its own. */
  ghost predicate Progress(s: System, t: System, i: nat) {
    RunStep(s, t, i) || SectionStep(s, t, i)
  }

  /** While the master is in `Wait`, some thread can always go on without being woken. */
  lemma NoDeadlock(s: System)
    requires Inv(s) && !s.threads[0].Outside?
    ensures exists t, i: nat :: Progress(s, t, i)
  {
    var i: nat := 0;
    if s.threads[0].Asleep? {
      MasterHasWorker(s);
      i :| 1 <= i < |s.threads| && s.threads[i].Working? && s.threads[i].nNow > 0;
    }
    var pc := s.threads[i];
    if pc.Working? && pc.rest != [] {
      var c := pc.rest[0];
      var t := s.(threads := s.threads[i := Working(pc.nNow, pc.rest[1..], pc.fOk && c.result)],
                  ran := if pc.fOk then s.ran + multiset{c} else s.ran,
                  skipped := if pc.fOk then s.skipped else s.skipped + multiset{c});
      assert RunStep(s, t, i);
      assert Progress(s, t, i);
    } else {
      SectionEnabled(s, i);
      var t := AfterSection(s, i, Critical(s.sh, pc, i == 0));
      assert SectionStep(s, t, i);
      assert Progress(s, t, i);
    }
  }

  // ---- how long `Wait` takes ----

  function Weight(pc: Pc): int {
    match pc
    case Outside => 0
    case Entering => 1
    case Asleep => 0
    case Woken => 1
    case Working(_, rest, _) => 2 + |rest|
  }

  /** Work left: every step that a thread takes on its own brings it down. */
  function Work(s: System): int {
    4 * |s.sh.queue| + Sum(Weight, s.threads)
  }

  lemma WorkNonNegative(s: System)
    ensures Work(s) >= 0
  {
    SumPositive(Weight, s.threads);
  }

  lemma ProgressWorks(s: System, t: System, i: nat)
    requires Inv(s) && Progress(s, t, i)
    ensures Work(t) < Work(s)
  {
    hide Core, Sum, BatchSize;
    if RunStep(s, t, i) {
      SumSet(Weight, s.threads, i, t.threads[i]);
    } else {
      var mid := Inside(s, i);
      var exit := Critical(s.sh, s.threads[i], i == 0);
      if mid.sh.queue != [] {
        BatchFits(mid.sh);
      }
      SumSet(Weight, s.threads, i, exit.pc);
      SumSet(Weight, s.threads[i := exit.pc], 0, Woken);
    }
  }

  lemma SpuriousWorks(s: System, t: System, i: nat)
    requires SpuriousStep(s, t, i)
    ensures Work(t) == Work(s) + 1
  {
    SumSet(Weight, s.threads, i, Woken);
  }

  ghost predicate IsSpurious(s: System, t: System) {
    exists i: nat :: SpuriousStep(s, t, i)
  }

  /** Number of wake-ups for no reason in a run. */
  ghost function Spurious(run: seq<System>): nat {
    if |run| <= 1 then 0
    else Spurious(run[..|run| - 1]) + if IsSpurious(run[|run| - 2], run[|run| - 1]) then 1 else 0
  }

  /** However the threads are scheduled, a `Wait` that has begun takes at most as many steps as there was work left,
      and two more for every wake-up for no reason. */
  lemma {:induction false} WaitTerminates(run: seq<System>)
    requires Run(run) && Inv(run[0])
    requires forall k :: 0 <= k < |run| - 1 ==> |run[k].threads| > 0 && !run[k].threads[0].Outside?
    ensures Inv(run[|run| - 1]) && Work(run[|run| - 1]) >= 0
    ensures |run| - 1 + Work(run[|run| - 1]) <= Work(run[0]) + 2 * Spurious(run)
  {
    hide Inv, RunStep, SectionStep, Work;
    WorkNonNegative(run[|run| - 1]);
    if |run| > 1 {
      var init := run[..|run| - 1];
      var s, t := init[|init| - 1], run[|run| - 1];
      assert forall k :: 0 <= k < |init| ==> init[k] == run[k];
      WaitTerminates(init);
      assert Next(s, t);
      NextKeeps(s, t);
      if i: nat :| SpuriousStep(s, t, i) {
        assert IsSpurious(s, t);
        SpuriousWorks(s, t, i);
      } else if i: nat :| RunStep(s, t, i) {
        assert Progress(s, t, i);
        ProgressWorks(s, t, i);
      } else {
        var i: nat :| SectionStep(s, t, i);
        assert Progress(s, t, i);
        ProgressWorks(s, t, i);
      }
    }
  }
}
