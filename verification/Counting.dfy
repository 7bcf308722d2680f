/** Counting the threads of a transition system whose program counter satisfies a predicate.
    Every transition moves one thread, so every count changes by at most one. */
module Counting {

  /** 1 when the condition holds, 0 otherwise. */
  function Unit(b: bool): int {
    if b then 1 else 0
  }

  ghost function Where<P(!new)>(threads: map<nat, P>, p: P -> bool): set<nat> {
    set t | t in threads && p(threads[t])
  }

  /** How many threads are at a program counter satisfying `p`. */
  ghost function Count<P(!new)>(threads: map<nat, P>, p: P -> bool): nat {
    |Where(threads, p)|
  }

  lemma CountDrop<P(!new)>(threads: map<nat, P>, t: nat, p: P -> bool)
    ensures Count(threads - {t}, p) == Count(threads, p) - Unit(t in threads && p(threads[t]))
  {
    var all, rest := Where(threads, p), Where(threads - {t}, p);
    assert rest == all - {t};
    if t in threads && p(threads[t]) {
      assert t in all;
    } else {
      assert t !in all;
      assert rest == all;
    }
  }

  lemma CountPut<P(!new)>(threads: map<nat, P>, t: nat, pc: P, p: P -> bool)
    ensures Count(threads[t := pc], p)
            == Count(threads, p) - Unit(t in threads && p(threads[t])) + Unit(p(pc))
  {
    CountDrop(threads, t, p);
    var more, rest := Where(threads[t := pc], p), Where(threads - {t}, p);
    assert t !in rest;
    if p(pc) {
      assert more == rest + {t};
    } else {
      assert more == rest;
    }
  }

  /** A count bounds its members: a thread in the set makes it positive, two make it at least two. */
  lemma CountMember<P(!new)>(threads: map<nat, P>, t: nat, p: P -> bool)
    requires t in threads && p(threads[t])
    ensures Count(threads, p) >= 1
  {
    assert t in Where(threads, p);
  }

  lemma CountTwo<P(!new)>(threads: map<nat, P>, t: nat, u: nat, p: P -> bool)
    requires t in threads && p(threads[t]) && u in threads && p(threads[u]) && t != u
    ensures Count(threads, p) >= 2
  {
    assert Where(threads, p) == (Where(threads, p) - {t, u}) + {t} + {u};
  }

  lemma CountWitness<P(!new)>(threads: map<nat, P>, p: P -> bool) returns (t: nat)
    requires Count(threads, p) > 0
    ensures t in threads && p(threads[t])
  {
    t :| t in Where(threads, p);
  }

  lemma CountWeaker<P(!new)>(threads: map<nat, P>, p: P -> bool, q: P -> bool)
    requires forall pc: P :: p(pc) ==> q(pc)
    ensures Count(threads, p) <= Count(threads, q)
  {
    SubsetSize(Where(threads, p), Where(threads, q));
  }

  lemma SubsetSize(a: set<nat>, b: set<nat>)
    requires a <= b
    ensures |a| <= |b|
  {
    assert b == a + (b - a);
  }

  /** The numbers below `n`. */
  ghost function Range(n: nat): (r: set<nat>)
    ensures |r| == n && forall t: nat :: t in r <==> t < n
  {
    if n == 0 then {} else Range(n - 1) + {n - 1}
  }
}
