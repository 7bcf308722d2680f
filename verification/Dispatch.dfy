/** How many messages one dispatch turn may deliver (ActorSystem::calc_weight and the batch
    computation of ActorSystem::dispatch_queue), and how many turns a backlog therefore takes. */
module Dispatch {
  import opened Numbers

  /** Workers are split into four quarters with weights -1, 0, 1 and 2. */
  function Weight(workerCount: nat, worker: nat): (w: int)
    ensures -1 <= w <= 2
  {
    var quarter := workerCount / 4;
    if quarter < 1 then 0
    else if worker < quarter then -1
    else if worker < quarter * 2 then 0
    else if worker < quarter * 3 then 1
    else 2
  }

  /** Batch size for a mailbox of `qsize` messages; at least one message is attempted. */
  function Batch(weight: int, qsize: nat): (b: nat)
    requires -1 <= weight <= 2
    ensures 1 <= b <= if qsize == 0 then 1 else qsize
    ensures weight < 0 ==> b == 1
    ensures weight == 0 && qsize > 0 ==> b == qsize
    ensures weight > 0 && qsize >= Pow2(weight) ==> b * Pow2(weight) <= qsize < (b + 1) * Pow2(weight)
    ensures weight > 0 && qsize < Pow2(weight) ==> b == 1
  {
    assert Pow2(1) == 2 && Pow2(2) == 4 by {
      assert Pow2(0) == 1;
    }
    if weight < 0 then 1
    else if weight == 0 then (if qsize > 0 then qsize else 1)
    else
      var b := if weight == 1 then qsize / 2 else qsize / 4;
      if b < 1 then 1 else b
  }

  /** Turns needed to empty a mailbox of `n` messages when nothing new arrives. */
  function Turns(weight: int, n: nat): nat
    requires -1 <= weight <= 2
    decreases n
  {
    if n == 0 then 0 else 1 + Turns(weight, n - Batch(weight, n))
  }

  lemma {:induction false} TurnsOneByOne(n: nat)
    ensures Turns(-1, n) == n
  {
    if n > 0 {
      TurnsOneByOne(n - 1);
    }
  }

  /** Weight 0 empties the mailbox in one turn; weight 1 needs ceil(log2 n) + 1 turns: the
      largest backlog that drains in t turns is exactly 2^(t-1). */
  lemma {:induction false} TurnsByHalves(n: nat)
    requires n >= 1
    ensures Turns(0, n) == 1
    ensures Turns(1, n) >= 1 && n <= Pow2(Turns(1, n) - 1)
    ensures n > 1 ==> Turns(1, n) >= 2 && n > Pow2(Turns(1, n) - 2)
  {
    assert n - Batch(0, n) == 0;
    if n == 1 {
      assert Turns(1, 1) == 1 + Turns(1, 0);
    } else {
      var rest := n - Batch(1, n);
      assert rest == n - n / 2;
      TurnsByHalves(rest);
      var t := Turns(1, rest);
      assert Turns(1, n) == t + 1;
      assert Pow2(t) == 2 * Pow2(t - 1);
      if rest > 1 {
        assert Pow2(t - 1) == 2 * Pow2(t - 2);
      }
    }
  }

  /** A larger backlog never takes fewer turns. */
  lemma {:induction false} TurnsMonotone(weight: int, a: nat, b: nat)
    requires -1 <= weight <= 2 && a <= b
    ensures Turns(weight, a) <= Turns(weight, b)
    decreases b
  {
    if a > 0 {
      TurnsMonotone(weight, a - Batch(weight, a), b - Batch(weight, b));
    }
  }

  /** Weight 2 takes at least as many turns as weight 1 and at most three times as many: three turns of
      a quarter take at least a half. */
  lemma {:induction false} TurnsByQuarters(n: nat)
    ensures Turns(1, n) <= Turns(2, n) <= 3 * Turns(1, n)
    decreases n
  {
    if n > 0 {
      var half, quarter := n - Batch(1, n), n - Batch(2, n);
      assert Turns(1, n) == 1 + Turns(1, half);
      assert Turns(2, n) == 1 + Turns(2, quarter);
      TurnsByQuarters(half);
      TurnsByQuarters(quarter);
      TurnsMonotone(1, half, quarter);
      ThreeQuarters(n);
    }
  }

  lemma ThreeQuarters(n: nat)
    requires n > 0
    ensures Turns(2, n) <= 3 + Turns(2, n - Batch(1, n))
  {
    var a := OneQuarter(n);
    var b := OneQuarter(a);
    var c := OneQuarter(b);
    HalfInThree(n, a, b, c);
    TurnsMonotone(2, c, n - Batch(1, n));
  }

  /** What a turn of weight 2 leaves. */
  lemma OneQuarter(n: nat) returns (rest: nat)
    ensures rest == if n == 0 then 0 else n - (if n < 4 then 1 else n / 4)
    ensures Turns(2, n) <= 1 + Turns(2, rest)
  {
    rest := if n == 0 then 0 else n - Batch(2, n);
  }

  lemma HalfInThree(n: nat, a: nat, b: nat, c: nat)
    requires n > 0 && a == n - (if n < 4 then 1 else n / 4)
    requires b == if a == 0 then 0 else a - (if a < 4 then 1 else a / 4)
    requires c == if b == 0 then 0 else b - (if b < 4 then 1 else b / 4)
    ensures c <= n - (if n < 2 then 1 else n / 2)
  {
  }

  /** The workers with a given weight. */
  ghost function WorkersOf(n: nat, weight: int): set<nat> {
    set w: nat | w < n && Weight(n, w) == weight
  }

  /** The first three quarters of the workers get the weights -1, 0 and 1, a quarter each, and the rest
      gets 2; with fewer than four workers all get 0. */
  lemma WeightShares(n: nat)
    ensures n < 4 ==> |WorkersOf(n, 0)| == n
    ensures n >= 4 ==>
              && |WorkersOf(n, -1)| == |WorkersOf(n, 0)| == |WorkersOf(n, 1)| == n / 4
              && |WorkersOf(n, 2)| == n - 3 * (n / 4)
  {
    var k := n / 4;
    if n < 4 {
      IntervalSize(WorkersOf(n, 0), 0, n);
    } else {
      IntervalSize(WorkersOf(n, -1), 0, k);
      IntervalSize(WorkersOf(n, 0), k, 2 * k);
      IntervalSize(WorkersOf(n, 1), 2 * k, 3 * k);
      IntervalSize(WorkersOf(n, 2), 3 * k, n);
    }
  }

  /** The earlier a worker, the lower its weight. */
  lemma WeightsInOrder(n: nat, a: nat, b: nat)
    requires n >= 4 && a <= b < n
    ensures Weight(n, a) <= Weight(n, b) && Weight(n, 0) == -1 && Weight(n, n - 1) == 2
  {
  }

  lemma {:induction false} IntervalSize(s: set<nat>, a: nat, b: nat)
    requires a <= b && forall w :: w in s <==> a <= w < b
    ensures |s| == b - a
    decreases b
  {
    if a < b {
      IntervalSize(s - {b - 1}, a, b - 1);
    } else {
      assert s == {};
    }
  }
}
