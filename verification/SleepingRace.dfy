/** With two or more workers and try_dequeue as it is, work can be slept through: an attempt finds the
    global queue empty because another worker holds a losing ticket, and the producer has skipped its
    notify because the decrement of the count for an element already taken was still to come. */
module SleepingRace {
  import opened Counting
  import opened SleepingWorkers

  ghost predicate Reachable(n: nat, racy: bool, s: State) {
    exists run :: IsRun(n, racy, run) && run[|run| - 1] == s
  }

  lemma Reach(n: nat, s: State, s': State)
    requires Reachable(n, true, s) && Next(s, true, s')
    ensures Reachable(n, true, s')
  {
    var run :| IsRun(n, true, run) && run[|run| - 1] == s;
    var more := run + [s'];
    forall i | 0 <= i < |more| - 1
      ensures Linked(more, true, i)
    {
      if i < |run| - 1 {
        assert Linked(run, true, i);
      }
    }
    assert IsRun(n, true, more);
  }

  // ----- Steps of one worker --------------------------------------------------------------------------

  function At(s: State, w: nat, pc: Worker): State {
    s.(workers := s.workers[w := pc])
  }

  lemma AtAt(s: State, w: nat, a: Worker, b: Worker)
    ensures At(At(s, w, a), w, b) == At(s, w, b)
  {
    assert s.workers[w := a][w := b] == s.workers[w := b];
  }

  lemma AtSame(s: State, w: nat)
    requires w in s.workers
    ensures At(s, w, s.workers[w]) == s
  {
    assert s.workers[w := s.workers[w]] == s.workers;
  }

  /** Worker `w` goes on and is not in the way of others; `t` is the state apart from its own place. */
  lemma Goes(n: nat, s: State, w: nat, a: Worker, t: State, b: Worker)
    requires Reachable(n, true, At(s, w, a)) && t.workers == s.workers
    requires WorkerStep(At(s, w, a), w, false, true, At(At(t, w, a), w, b))
    ensures Reachable(n, true, At(t, w, b))
  {
    AtAt(t, w, a, b);
    Reach(n, At(s, w, a), At(t, w, b));
  }

  /** Number of losing tickets that `w` meets. */
  ghost function Losers(s: State, w: nat): nat {
    Count(s.workers - {w}, Lost)
  }

  lemma SameLosers(s: State, w: nat, pc: Worker)
    ensures Losers(At(s, w, pc), w) == Losers(s, w)
  {
    assert s.workers[w := pc] - {w} == s.workers - {w};
  }

  lemma NoLosers(s: State, w: nat)
    requires forall v :: v in s.workers && v != w ==> !Lost(s.workers[v])
    ensures Losers(s, w) == 0
  {
    assert Where(s.workers - {w}, Lost) == {};
  }

  lemma OneLoser(s: State, w: nat, c: nat)
    requires c in s.workers && c != w && Lost(s.workers[c])
    requires forall v :: v in s.workers && v != w && v != c ==> !Lost(s.workers[v])
    ensures Losers(s, w) == 1
  {
    assert Where(s.workers - {w}, Lost) == {c};
  }

  /** A worker takes an element, from its first attempt. */
  lemma Takes(n: nat, s: State, w: nat)
    requires Reachable(n, true, At(s, w, Top)) && s.items > Losers(s, w)
    ensures Reachable(n, true, At(s.(items := s.items - 1), w, Took))
  {
    SameLosers(s, w, Top);
    SameLosers(s, w, TopDraw);
    Goes(n, s, w, Top, s, TopDraw);
    Goes(n, s, w, TopDraw, s.(items := s.items - 1), Took);
  }

  lemma Lowers(n: nat, s: State, w: nat)
    requires Reachable(n, true, At(s, w, Took))
    ensures Reachable(n, true, At(s.(count := s.count - 1), w, Busy))
  {
    Goes(n, s, w, Took, s.(count := s.count - 1), Busy);
  }

  /** A worker finds nothing, twice, and blocks. */
  lemma GoesToSleep(n: nat, s: State, w: nat)
    requires Reachable(n, true, At(s, w, Busy)) && s.items <= Losers(s, w)
    ensures Reachable(n, true, At(s.(sleeping := s.sleeping + 1), w, Blocked(s.epoch)))
  {
    var t := s.(sleeping := s.sleeping + 1);
    Goes(n, s, w, Busy, s, Top);
    SameLosers(s, w, Top);
    Goes(n, s, w, Top, s, ReadEpoch);
    Goes(n, s, w, ReadEpoch, s, RaiseSleepers(s.epoch));
    Goes(n, s, w, RaiseSleepers(s.epoch), t, LastTry(s.epoch));
    SameLosers(t, w, LastTry(s.epoch));
    assert t.workers - {w} == s.workers - {w};
    Goes(n, t, w, LastTry(s.epoch), t, Wait(s.epoch));
    Goes(n, t, w, Wait(s.epoch), t, Blocked(s.epoch));
  }

  /** A producer enqueues and finds no reason to notify. */
  lemma Pushes(n: nat, s: State)
    requires Reachable(n, true, s) && s.producers == map[] && (s.sleeping <= 0 || s.count + 1 > s.sleeping)
    ensures Reachable(n, true, s.(items := s.items + 1, count := s.count + 1))
  {
    var s1 := s.(producers := map[0 := Enqueue]);
    assert ProducerStep(s, 0, s1);
    Reach(n, s, s1);
    var s2 := s1.(items := s.items + 1, producers := map[0 := Raise]);
    assert s1.producers[0 := Raise] == map[0 := Raise];
    assert ProducerStep(s1, 0, s2);
    Reach(n, s1, s2);
    var s3 := s2.(count := s.count + 1, producers := map[0 := Look(s.count + 1)]);
    assert s2.producers[0 := Look(s.count + 1)] == map[0 := Look(s.count + 1)];
    assert ProducerStep(s2, 0, s3);
    Reach(n, s2, s3);
    var s4 := s3.(producers := map[]);
    assert s3.producers - {0} == map[];
    assert ProducerStep(s3, 0, s4);
    Reach(n, s3, s4);
  }

  // ----- The run --------------------------------------------------------------------------------------

  /** The workers from 2 on: at `x` up to `k` and at `y` from there on. */
  function Others(n: nat, k: nat, x: Worker, y: Worker): map<nat, Worker> {
    map w: nat | w < n && Member(n, w) :: if w < k then x else y
  }

  predicate Member(n: nat, w: nat) {
    2 <= w < n
  }

  /** Worker 0 at `d`, worker 1 at `c`, the others as above. */
  function Crowd(n: nat, d: Worker, c: Worker, k: nat, x: Worker, y: Worker): map<nat, Worker> {
    Others(n, k, x, y)[0 := d][1 := c]
  }

  /** Worker `w` is the next to change. */
  lemma CrowdNext(n: nat, d: Worker, c: Worker, w: nat, x: Worker, y: Worker)
    requires 2 <= w < n
    ensures w in Crowd(n, d, c, w, x, y) && Crowd(n, d, c, w, x, y)[w] == y
    ensures Crowd(n, d, c, w, x, y)[w := x] == Crowd(n, d, c, w + 1, x, y)
  {
    OthersNext(n, w, x, y);
    Swap(Others(n, w, x, y), 0, d, w, x);
    Swap(Others(n, w, x, y)[0 := d], 1, c, w, x);
  }

  lemma OthersNext(n: nat, w: nat, x: Worker, y: Worker)
    requires 2 <= w < n
    ensures w in Others(n, w, x, y) && Others(n, w, x, y)[w] == y
    ensures Others(n, w, x, y)[w := x] == Others(n, w + 1, x, y)
  {
    var before, after := Others(n, w, x, y)[w := x], Others(n, w + 1, x, y);
    assert before.Keys == after.Keys;
  }

  lemma Swap(m: map<nat, Worker>, v: nat, a: Worker, w: nat, b: Worker)
    requires v != w
    ensures m[v := a][w := b] == m[w := b][v := a]
  {
  }

  lemma Overwrite(m: map<nat, Worker>, w: nat, a: Worker, b: Worker)
    ensures m[w := a][w := b] == m[w := b]
  {
  }

  /** Worker 0 or worker 1 changes. */
  lemma CrowdFirst(n: nat, d: Worker, c: Worker, k: nat, x: Worker, y: Worker, b: Worker)
    requires n >= 2
    ensures 0 in Crowd(n, d, c, k, x, y) && Crowd(n, d, c, k, x, y)[0] == d
    ensures 1 in Crowd(n, d, c, k, x, y) && Crowd(n, d, c, k, x, y)[1] == c
    ensures Crowd(n, d, c, k, x, y)[0 := b] == Crowd(n, b, c, k, x, y)
    ensures Crowd(n, d, c, k, x, y)[1 := b] == Crowd(n, d, b, k, x, y)
  {
    var m := Others(n, k, x, y);
    Swap(m[0 := d], 1, c, 0, b);
    Overwrite(m, 0, d, b);
    Overwrite(m[0 := d], 1, c, b);
  }

  lemma CrowdLosers(n: nat, d: Worker, c: Worker, k: nat, x: Worker, y: Worker, s: State, w: nat)
    requires n >= 2 && s.workers == Crowd(n, d, c, k, x, y) && w != 1
    requires !Lost(d) && !Lost(x) && !Lost(y)
    ensures Losers(s, w) == if Lost(c) then 1 else 0
    ensures Losers(s, 1) == 0
  {
    NoLosers(s, 1);
    if Lost(c) {
      OneLoser(s, w, 1);
    } else {
      NoLosers(s, w);
    }
  }

  function With(workers: map<nat, Worker>, items: nat, count: int, sleeping: int): State {
    State(map[], workers, items, count, sleeping, 0)
  }

  /** All but two workers are given something to do. */
  lemma {:induction false} OthersBusy(n: nat, k: nat)
    requires 2 <= k <= n
    ensures Reachable(n, true, With(Crowd(n, Top, Top, k, Busy, Top), 0, 0, 0))
    decreases k
  {
    if k == 2 {
      var s := With(Crowd(n, Top, Top, k, Busy, Top), 0, 0, 0);
      assert IsRun(n, true, [s]);
    } else {
      OthersBusy(n, k - 1);
      OneMoreBusy(n, k - 1);
    }
  }

  lemma OneMoreBusy(n: nat, w: nat)
    requires 2 <= w < n && Reachable(n, true, With(Crowd(n, Top, Top, w, Busy, Top), 0, 0, 0))
    ensures Reachable(n, true, With(Crowd(n, Top, Top, w + 1, Busy, Top), 0, 0, 0))
  {
    var crowd := Crowd(n, Top, Top, w, Busy, Top);
    Pushes(n, With(crowd, 0, 0, 0));
    var s := With(crowd, 1, 1, 0);
    CrowdNext(n, Top, Top, w, Busy, Top);
    AtSame(s, w);
    CrowdLosers(n, Top, Top, w, Busy, Top, s, w);
    Takes(n, s, w);
    Lowers(n, With(crowd, 0, 1, 0), w);
  }

  /** Worker 1 passes its last test, worker 0 takes the only element, worker 1 draws a losing ticket; then
      another element comes. */
  lemma LosingTicket(n: nat)
    requires n >= 2
    ensures Reachable(n, true, With(Crowd(n, Took, LastLost(0), n, Busy, Top), 1, 2, 1))
  {
    OthersBusy(n, n);
    var rest := Crowd(n, Top, Top, n, Busy, Top);
    var s := With(rest, 0, 0, 0);
    CrowdFirst(n, Top, Top, n, Busy, Top, Top);
    AtSame(s, 1);
    SameLosers(s, 1, Top);
    Goes(n, s, 1, Top, s, ReadEpoch);
    Pushes(n, At(s, 1, ReadEpoch));
    LastTest(n, rest);
    LosingDraw(n, rest);
  }

  lemma LastTest(n: nat, rest: map<nat, Worker>)
    requires n >= 2 && rest == Crowd(n, Top, Top, n, Busy, Top)
    requires Reachable(n, true, At(With(rest, 1, 1, 0), 1, ReadEpoch))
    ensures Reachable(n, true, At(With(rest, 1, 1, 1), 1, LastDraw(0)))
  {
    var s1, s2 := With(rest, 1, 1, 0), With(rest, 1, 1, 1);
    Goes(n, s1, 1, ReadEpoch, s1, RaiseSleepers(0));
    Goes(n, s1, 1, RaiseSleepers(0), s2, LastTry(0));
    CrowdLosers(n, Top, Top, n, Busy, Top, s2, 0);
    SameLosers(s2, 1, LastTry(0));
    Goes(n, s2, 1, LastTry(0), s2, LastDraw(0));
  }

  lemma LosingDraw(n: nat, rest: map<nat, Worker>)
    requires n >= 2 && rest == Crowd(n, Top, Top, n, Busy, Top)
    requires Reachable(n, true, At(With(rest, 1, 1, 1), 1, LastDraw(0)))
    ensures Reachable(n, true, With(Crowd(n, Took, LastLost(0), n, Busy, Top), 1, 2, 1))
  {
    var drawing := Crowd(n, Top, LastDraw(0), n, Busy, Top);
    CrowdFirst(n, Top, Top, n, Busy, Top, LastDraw(0));
    CrowdFirst(n, Top, LastDraw(0), n, Busy, Top, Took);
    var s := With(drawing, 1, 1, 1);
    AtSame(s, 0);
    CrowdLosers(n, Top, LastDraw(0), n, Busy, Top, s, 0);
    Takes(n, s, 0);
    var took := Crowd(n, Took, LastDraw(0), n, Busy, Top);
    CrowdFirst(n, Took, LastDraw(0), n, Busy, Top, LastLost(0));
    var t := With(took, 0, 1, 1);
    AtSame(t, 1);
    Goes(n, t, 1, LastDraw(0), t, LastLost(0));
    Pushes(n, At(t, 1, LastLost(0)));
  }

  /** While worker 1 holds its ticket everybody else finds nothing and blocks. */
  lemma {:induction false} OthersSleep(n: nat, k: nat)
    requires n >= 2 && 2 <= k <= n
    ensures Reachable(n, true, With(Crowd(n, Blocked(0), LastLost(0), k, Blocked(0), Busy), 1, 1, k))
    decreases k
  {
    if k == 2 {
      FirstSleeps(n);
    } else {
      OthersSleep(n, k - 1);
      var w := k - 1;
      var s := With(Crowd(n, Blocked(0), LastLost(0), w, Blocked(0), Busy), 1, 1, w);
      CrowdNext(n, Blocked(0), LastLost(0), w, Blocked(0), Busy);
      AtSame(s, w);
      CrowdLosers(n, Blocked(0), LastLost(0), w, Blocked(0), Busy, s, w);
      GoesToSleep(n, s, w);
    }
  }

  lemma FirstSleeps(n: nat)
    requires n >= 2
    ensures Reachable(n, true, With(Crowd(n, Blocked(0), LastLost(0), 2, Blocked(0), Busy), 1, 1, 2))
  {
    LosingTicket(n);
    var crowd := Crowd(n, Took, LastLost(0), n, Busy, Top);
    var s, t := With(crowd, 1, 2, 1), With(crowd, 1, 1, 1);
    CrowdFirst(n, Took, LastLost(0), n, Busy, Top, Blocked(0));
    AtSame(s, 0);
    Lowers(n, s, 0);
    CrowdLosers(n, Took, LastLost(0), n, Busy, Top, t, 0);
    GoesToSleep(n, t, 0);
    assert Others(n, n, Busy, Top) == Others(n, 2, Blocked(0), Busy);
  }

  /** Then worker 1 gives its ticket back and blocks as well. */
  lemma WorkSleptThrough(n: nat) returns (s: State)
    requires n >= 2
    ensures Reachable(n, true, s) && SleptThrough(s)
  {
    OthersSleep(n, n);
    var crowd := Crowd(n, Blocked(0), LastLost(0), n, Blocked(0), Busy);
    var t := With(crowd, 1, 1, n);
    CrowdFirst(n, Blocked(0), LastLost(0), n, Blocked(0), Busy, Blocked(0));
    AtSame(t, 1);
    Goes(n, t, 1, LastLost(0), t, Wait(0));
    Goes(n, t, 1, Wait(0), t, Blocked(0));
    s := At(t, 1, Blocked(0));
  }

  /** Work can be slept through if and only if there are at least two workers and losing tickets are seen
      by others. */
  lemma SleptThroughIff(n: nat, racy: bool)
    requires n >= 1
    ensures (exists s :: Reachable(n, racy, s) && SleptThrough(s)) <==> racy && n >= 2
  {
    if racy && n >= 2 {
      var s := WorkSleptThrough(n);
    } else {
      forall s | Reachable(n, racy, s)
        ensures !SleptThrough(s)
      {
        var run :| IsRun(n, racy, run) && run[|run| - 1] == s;
        WorkIsNeverSleptThrough(n, racy, run, |run| - 1);
      }
    }
  }
}
