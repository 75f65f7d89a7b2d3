/** `runBounded`: a fixed number of workers claim item indices from one atomic counter until the items run out or the
    context is cancelled. Every atomic access of a worker is one step; the schedule is arbitrary. */
module BoundedWorkers {
  datatype Worker = Ready | Claiming | Running(item: nat) | Exited

  /** `finished` lists the items whose call has returned, in the order they returned. */
  datatype Pool = Pool(
    items: nat,
    workers: seq<Worker>,
    next: nat,
    cancelled: bool,
    finished: seq<nat>)

  datatype Step = Check(w: nat) | Claim(w: nat) | Return(w: nat) | Cancel

  /** The number of workers the source starts for `items` items. */
  function WorkerCount(max: int, items: nat): nat {
    if max <= 0 || max > items then items else max
  }

  function Start(max: int, items: nat, cancelled: bool): Pool {
    Pool(items, seq(WorkerCount(max, items), i => Ready), 0, cancelled, [])
  }

  predicate Enabled(p: Pool, step: Step) {
    match step
    case Check(w) => w < |p.workers| && p.workers[w].Ready?
    case Claim(w) => w < |p.workers| && p.workers[w].Claiming?
    case Return(w) => w < |p.workers| && p.workers[w].Running?
    case Cancel => !p.cancelled
  }

  function Next(p: Pool, step: Step): Pool
    requires Enabled(p, step)
  {
    match step
    case Check(w) => p.(workers := p.workers[w := if p.cancelled then Exited else Claiming])
    case Claim(w) =>
      p.(next := p.next + 1, workers := p.workers[w := if p.next >= p.items then Exited else Running(p.next)])
    case Return(w) => p.(workers := p.workers[w := Ready], finished := p.finished + [p.workers[w].item])
    case Cancel => p.(cancelled := true)
  }

  predicate Done(p: Pool) {
    forall w | 0 <= w < |p.workers| :: p.workers[w].Exited?
  }

  /** `runBounded` returns nil: every worker has exited and the context is not cancelled. Without items it always does. */
  predicate ReturnsNil(p: Pool) {
    Done(p) && (p.items == 0 || !p.cancelled)
  }

  // ---- what is promised ----

  ghost predicate InFlight(p: Pool, i: nat) {
    exists w :: 0 <= w < |p.workers| && p.workers[w] == Running(i)
  }

  ghost predicate Inv(p: Pool) {
    // no two workers run the same item
    && (forall v, w :: 0 <= v < w < |p.workers| && p.workers[v].Running? ==> p.workers[v] != p.workers[w])
    // a running item was claimed and has not finished
    && (forall w :: 0 <= w < |p.workers| && p.workers[w].Running? ==>
      p.workers[w].item < p.next && p.workers[w].item < p.items && p.workers[w].item !in p.finished)
    // no item finishes twice
    && (forall i, j :: 0 <= i < j < |p.finished| ==> p.finished[i] != p.finished[j])
    && (forall i | 0 <= i < |p.finished| :: p.finished[i] < p.next && p.finished[i] < p.items)
    // every claimed item is running or finished
    && (forall i :: 0 <= i < p.next && i < p.items ==> i in p.finished || InFlight(p, i))
    // a worker only leaves because of cancellation or because the items ran out
    && (p.cancelled || p.next >= p.items || forall w | 0 <= w < |p.workers| :: !p.workers[w].Exited?)
  }

  lemma StartHolds(max: int, items: nat, cancelled: bool)
    ensures Inv(Start(max, items, cancelled))
  {
  }

  lemma InFlightElsewhere(p: Pool, q: Pool, w: nat, i: nat)
    requires w < |p.workers| == |q.workers| && p.workers[w] != Running(i)
    requires forall v | 0 <= v < |p.workers| && v != w :: p.workers[v] == q.workers[v]
    requires InFlight(p, i)
    ensures InFlight(q, i)
  {
    var v :| 0 <= v < |p.workers| && p.workers[v] == Running(i);
    assert q.workers[v] == Running(i);
  }

  /** A step of worker `w` that neither claims nor returns an item. */
  lemma IdleStepKeeps(p: Pool, q: Pool, w: nat)
    requires Inv(p) && w < |p.workers| && !p.workers[w].Running?
    requires q == p.(workers := q.workers) && |q.workers| == |p.workers| && q.workers == p.workers[w := q.workers[w]]
    requires q.workers[w].Claiming? || (q.workers[w].Exited? && (p.cancelled || p.next >= p.items))
    ensures Inv(q)
  {
    forall i | 0 <= i < q.next && i < q.items
      ensures i in q.finished || InFlight(q, i)
    {
      if i !in p.finished {
        InFlightElsewhere(p, q, w, i);
      }
    }
  }

  lemma ClaimKeeps(p: Pool, w: nat)
    requires Inv(p) && Enabled(p, Claim(w)) && p.next < p.items
    ensures Inv(Next(p, Claim(w)))
  {
    var q := Next(p, Claim(w));
    assert q.workers[w] == Running(p.next);
    assert p.next !in p.finished;
    forall i | 0 <= i < q.next && i < q.items
      ensures i in q.finished || InFlight(q, i)
    {
      if i < p.next && i !in p.finished {
        InFlightElsewhere(p, q, w, i);
      }
    }
  }

  lemma ReturnKeeps(p: Pool, w: nat)
    requires Inv(p) && Enabled(p, Return(w))
    ensures Inv(Next(p, Return(w)))
  {
    var q := Next(p, Return(w));
    var item := p.workers[w].item;
    forall i | 0 <= i < q.next && i < q.items
      ensures i in q.finished || InFlight(q, i)
    {
      if i == item {
        assert q.finished[|p.finished|] == item;
      } else if i in p.finished {
        var k :| 0 <= k < |p.finished| && p.finished[k] == i;
        assert q.finished[k] == i;
      } else {
        InFlightElsewhere(p, q, w, i);
      }
    }
  }

  lemma CancelKeeps(p: Pool)
    requires Inv(p)
    ensures Inv(p.(cancelled := true))
  {
    var q := p.(cancelled := true);
    forall i | 0 <= i < q.next && i < q.items
      ensures i in q.finished || InFlight(q, i)
    {
      if i !in p.finished {
        var v :| 0 <= v < |p.workers| && p.workers[v] == Running(i);
        assert q.workers[v] == Running(i);
      }
    }
  }

  lemma OverrunKeeps(p: Pool, w: nat)
    requires Inv(p) && Enabled(p, Claim(w)) && p.next >= p.items
    ensures Inv(Next(p, Claim(w)))
  {
    var q := p.(workers := p.workers[w := Exited]);
    IdleStepKeeps(p, q, w);
    var r := q.(next := p.next + 1);
    forall i | 0 <= i < r.next && i < r.items
      ensures i in r.finished || InFlight(r, i)
    {
      if i !in q.finished {
        var v :| 0 <= v < |q.workers| && q.workers[v] == Running(i);
        assert r.workers[v] == Running(i);
      }
    }
  }

  lemma NextKeeps(p: Pool, step: Step)
    requires Inv(p) && Enabled(p, step)
    ensures Inv(Next(p, step))
  {
    match step
    case Check(w) =>
      hide Inv;
      IdleStepKeeps(p, Next(p, step), w);
    case Claim(w) =>
      hide Inv;
      if p.next < p.items {
        ClaimKeeps(p, w);
      } else {
        OverrunKeeps(p, w);
      }
    case Return(w) =>
      hide Inv;
      ReturnKeeps(p, w);
    case Cancel =>
      hide Inv;
      CancelKeeps(p);
  }

  // ---- runs ----

  ghost predicate ValidRun(p: Pool, steps: seq<Step>)
    decreases |steps|
  {
    steps == [] || (Enabled(p, steps[0]) && ValidRun(Next(p, steps[0]), steps[1..]))
  }

  ghost function Run(p: Pool, steps: seq<Step>): Pool
    requires ValidRun(p, steps)
    decreases |steps|
  {
    if steps == [] then p else Run(Next(p, steps[0]), steps[1..])
  }

  lemma {:induction false} RunKeeps(p: Pool, steps: seq<Step>)
    requires Inv(p) && ValidRun(p, steps)
    ensures var q := Run(p, steps);
            Inv(q) && q.items == p.items && |q.workers| == |p.workers| && (p.cancelled ==> q.cancelled)
    decreases |steps|
  {
    hide Inv;
    if steps != [] {
      NextKeeps(p, steps[0]);
      RunKeeps(Next(p, steps[0]), steps[1..]);
    }
  }

  /** In every schedule, at every moment: `max` workers run, or one an item if that is fewer or there is no limit, and no item is started twice, whether it is in
      flight or has returned. */
  lemma AtMostOnce(max: int, items: nat, cancelled: bool, steps: seq<Step>)
    requires ValidRun(Start(max, items, cancelled), steps)
    ensures var p := Run(Start(max, items, cancelled), steps);
            && |p.workers| == (if 0 < max <= items then max else items)
            && (forall v, w :: 0 <= v < w < |p.workers| && p.workers[v].Running? ==> p.workers[v] != p.workers[w])
            && (forall w :: 0 <= w < |p.workers| && p.workers[w].Running? ==> p.workers[w].item !in p.finished)
            && (forall i, j :: 0 <= i < j < |p.finished| ==> p.finished[i] != p.finished[j])
  {
    StartHolds(max, items, cancelled);
    RunKeeps(Start(max, items, cancelled), steps);
  }

  /** A nil return means every item ran, exactly once. */
  lemma NilMeansAllRan(p: Pool)
    requires Inv(p) && ReturnsNil(p) && (p.items == 0 || p.workers != [])
    ensures forall i | 0 <= i < p.items :: i in p.finished
    ensures multiset(p.finished) == multiset(seq(p.items, i => i))
  {
    if p.items > 0 {
      assert p.workers[0].Exited?;
    }
    forall i | 0 <= i < p.items
      ensures i in p.finished
    {
      assert !InFlight(p, i);
    }
    DistinctAll(p.finished, p.items);
  }

  /** So in every schedule from the start, a nil return means that the finished items are all the items, each once. */
  lemma NilReturnRanAll(max: int, items: nat, cancelled: bool, steps: seq<Step>)
    requires ValidRun(Start(max, items, cancelled), steps) && ReturnsNil(Run(Start(max, items, cancelled), steps))
    ensures multiset(Run(Start(max, items, cancelled), steps).finished) == multiset(seq(items, i => i))
  {
    hide Inv;
    StartHolds(max, items, cancelled);
    RunKeeps(Start(max, items, cancelled), steps);
    NilMeansAllRan(Run(Start(max, items, cancelled), steps));
  }

  lemma {:induction false} DistinctAll(s: seq<nat>, n: nat)
    requires forall i, j :: 0 <= i < j < |s| ==> s[i] != s[j]
    requires forall i | 0 <= i < |s| :: s[i] < n
    requires forall i | 0 <= i < n :: i in s
    ensures multiset(s) == multiset(seq(n, i => i))
  {
    var all := seq(n, i => i);
    forall x: nat
      ensures multiset(s)[x] == multiset(all)[x]
    {
      DistinctCount(s, x);
      DistinctCount(all, x);
      if x < n {
        assert all[x] == x;
      }
    }
  }

  lemma {:induction false} DistinctCount(s: seq<nat>, x: nat)
    requires forall i, j :: 0 <= i < j < |s| ==> s[i] != s[j]
    ensures multiset(s)[x] == if x in s then 1 else 0
  {
    if s != [] {
      var init, last := s[..|s| - 1], s[|s| - 1];
      assert s == init + [last];
      DistinctCount(init, x);
    }
  }

  // ---- cancellation ----

  /** The workers about to claim an item. */
  function Claimers(ws: seq<Worker>): nat {
    if ws == [] then 0 else Claimers(ws[..|ws| - 1]) + if ws[|ws| - 1].Claiming? then 1 else 0
  }

  lemma {:induction false} ClaimersUpdate(ws: seq<Worker>, w: nat, x: Worker)
    requires w < |ws|
    ensures Claimers(ws[w := x]) == Claimers(ws) - (if ws[w].Claiming? then 1 else 0) + (if x.Claiming? then 1 else 0)
  {
    var init, us := ws[..|ws| - 1], ws[w := x];
    if w < |ws| - 1 {
      ClaimersUpdate(init, w, x);
      assert us[..|us| - 1] == init[w := x];
    } else {
      assert us[..|us| - 1] == init;
    }
  }

  /** Once the context is cancelled, only the workers already past their check claim another item, one each. */
  lemma {:induction false} CancelStopsClaims(p: Pool, steps: seq<Step>)
    requires ValidRun(p, steps) && p.cancelled
    ensures Run(p, steps).next + Claimers(Run(p, steps).workers) <= p.next + Claimers(p.workers)
    decreases |steps|
  {
    if steps != [] {
      var q := Next(p, steps[0]);
      match steps[0] {
        case Check(w) => ClaimersUpdate(p.workers, w, q.workers[w]);
        case Claim(w) => ClaimersUpdate(p.workers, w, q.workers[w]);
        case Return(w) => ClaimersUpdate(p.workers, w, q.workers[w]);
        case Cancel =>
      }
      CancelStopsClaims(q, steps[1..]);
    }
  }

  // ---- termination ----

  function Weight(w: Worker): nat {
    match w
    case Exited => 0
    case Claiming => 1
    case Ready => 2
    case Running(_) => 3
  }

  function TotalWeight(ws: seq<Worker>): nat {
    if ws == [] then 0 else TotalWeight(ws[..|ws| - 1]) + Weight(ws[|ws| - 1])
  }

  lemma {:induction false} WeightUpdate(ws: seq<Worker>, w: nat, x: Worker)
    requires w < |ws|
    ensures TotalWeight(ws[w := x]) == TotalWeight(ws) - Weight(ws[w]) + Weight(x)
  {
    var init := ws[..|ws| - 1];
    var us := ws[w := x];
    if w < |ws| - 1 {
      WeightUpdate(init, w, x);
      assert us[..|us| - 1] == init[w := x];
    } else {
      assert us[..|us| - 1] == init;
    }
  }

  /** The steps still possible, at most. */
  function Remaining(p: Pool): nat {
    3 * (if p.next < p.items then p.items - p.next else 0) + TotalWeight(p.workers) + (if p.cancelled then 0 else 1)
  }

  lemma NextDecreases(p: Pool, step: Step)
    requires Enabled(p, step)
    ensures Remaining(Next(p, step)) < Remaining(p)
  {
    match step
    case Check(w) => WeightUpdate(p.workers, w, Next(p, step).workers[w]);
    case Claim(w) => WeightUpdate(p.workers, w, Next(p, step).workers[w]);
    case Return(w) => WeightUpdate(p.workers, w, Next(p, step).workers[w]);
    case Cancel =>
  }

  lemma {:induction false} RunLength(p: Pool, steps: seq<Step>)
    requires ValidRun(p, steps)
    ensures |steps| <= Remaining(p)
    decreases |steps|
  {
    if steps != [] {
      NextDecreases(p, steps[0]);
      RunLength(Next(p, steps[0]), steps[1..]);
    }
  }

  lemma {:induction false} ReadyWeight(n: nat)
    ensures TotalWeight(seq(n, i => Ready)) == 2 * n
  {
    if n > 0 {
      ReadyWeight(n - 1);
      var ws := seq(n, i => Ready);
      assert ws[..n - 1] == seq(n - 1, i => Ready);
    }
  }

  /** Every schedule stops, after at most three steps an item, two a worker and one cancellation; and it never stops early:
      while a worker has not exited, some worker can move. */
  lemma Terminates(max: int, items: nat, cancelled: bool, steps: seq<Step>)
    requires ValidRun(Start(max, items, cancelled), steps)
    ensures |steps| <= 3 * items + 2 * WorkerCount(max, items) + 1
    ensures var p := Run(Start(max, items, cancelled), steps);
            !Done(p) ==> exists w :: Enabled(p, Check(w)) || Enabled(p, Claim(w)) || Enabled(p, Return(w))
  {
    var start := Start(max, items, cancelled);
    ReadyWeight(WorkerCount(max, items));
    RunLength(start, steps);
    var p := Run(start, steps);
    if !Done(p) {
      var w :| 0 <= w < |p.workers| && !p.workers[w].Exited?;
      assert Enabled(p, Check(w)) || Enabled(p, Claim(w)) || Enabled(p, Return(w));
    }
  }
}
