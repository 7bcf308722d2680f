/** Jump threading in the last pass of the Lua compiler (3rdparty/lua-5.5.0/lcode.c): every
    unconditional jump is redirected, in place, to the end of its chain of jumps. */
module JumpThreading {
  const MAXARG_sJ: int := 0x1FF_FFFF
  const OFFSET_sJ: int := MAXARG_sJ / 2
  const MAX_HOPS: nat := 100

  datatype Instruction = Jmp(sJ: int) | Other(code: nat)

  function Target(code: seq<Instruction>, p: nat): int
    requires p < |code| && code[p].Jmp?
  {
    p + 1 + code[p].sJ
  }

  /** Every jump stays inside the function. */
  ghost predicate Closed(code: seq<Instruction>) {
    forall p :: 0 <= p < |code| && code[p].Jmp? ==> 0 <= Target(code, p) < |code|
  }

  /** Where execution is after at most `m` unconditional jumps from `p`. */
  ghost function Chain(code: seq<Instruction>, p: nat, m: nat): (q: nat)
    requires Closed(code) && p < |code|
    ensures q < |code|
    decreases m
  {
    if m == 0 || code[p].Other? then p else Chain(code, Target(code, p), m - 1)
  }

  /** From `p` the first instruction that is not a jump is `q`, at most `m` jumps away. */
  ghost predicate LandsIn(code: seq<Instruction>, p: nat, m: nat, q: nat)
    requires Closed(code) && p < |code|
  {
    Chain(code, p, m) == q && code[q].Other?
  }

  ghost predicate Lands(code: seq<Instruction>, p: nat, q: nat)
    requires Closed(code) && p < |code|
  {
    exists m: nat :: LandsIn(code, p, m, q)
  }

  lemma {:induction false} ChainAdd(code: seq<Instruction>, p: nat, a: nat, b: nat)
    requires Closed(code) && p < |code|
    ensures Chain(code, p, a + b) == Chain(code, Chain(code, p, a), b)
    decreases a
  {
    if a > 0 && code[p].Jmp? {
      ChainAdd(code, Target(code, p), a - 1, b);
    }
  }

  /** `next` is `code` with the jump at `i` redirected along its own chain, by at least one hop. */
  ghost predicate Redirected(code: seq<Instruction>, next: seq<Instruction>, i: nat, k: nat) {
    && Closed(code) && Closed(next) && |next| == |code| && i < |code| && k >= 1
    && code[i].Jmp? && next[i].Jmp? && Target(next, i) == Chain(code, i, k)
    && (forall p :: 0 <= p < |code| && p != i ==> next[p] == code[p])
  }

  /** Chains still end at the same place, after no more jumps than before. */
  lemma {:induction false} RedirectKeeps(code: seq<Instruction>, next: seq<Instruction>, i: nat,
                                         k: nat, p: nat, m: nat)
    requires Redirected(code, next, i, k) && p < |code|
    requires code[Chain(code, p, m)].Other?
    ensures Chain(next, p, m) == Chain(code, p, m)
    decreases m
  {
    if code[p].Jmp? && m > 0 {
      if p != i {
        RedirectKeeps(code, next, i, k, Target(code, p), m - 1);
      } else {
        RedirectedJump(code, next, i, k, m);
      }
    }
  }

  lemma {:induction false} RedirectedJump(code: seq<Instruction>, next: seq<Instruction>, i: nat,
                                          k: nat, m: nat)
    requires Redirected(code, next, i, k) && m > 0
    requires code[Chain(code, i, m)].Other?
    ensures Chain(next, i, m) == Chain(code, i, m)
    decreases m, 0
  {
    var t, q := Chain(code, i, k), Chain(code, i, m);
    assert Chain(next, i, m) == Chain(next, t, m - 1);
    if k >= m {
      ChainAdd(code, i, m, k - m);
      assert t == q;
    } else {
      ChainAdd(code, i, k, m - k);
      RedirectKeeps(code, next, i, k, t, m - k);
      ChainAdd(next, t, m - k, k - 1);
    }
  }

  /** And no chain ends that did not end before. */
  lemma {:induction false} RedirectAddsNone(code: seq<Instruction>, next: seq<Instruction>, i: nat,
                                            k: nat, p: nat, m: nat)
    requires Redirected(code, next, i, k) && p < |code|
    requires next[Chain(next, p, m)].Other?
    ensures Lands(code, p, Chain(next, p, m))
    decreases m
  {
    var q := Chain(next, p, m);
    if next[p].Other? {
      assert LandsIn(code, p, 0, q);
    } else if m > 0 {
      var t := Target(next, p);
      RedirectAddsNone(code, next, i, k, t, m - 1);
      var n: nat :| LandsIn(code, t, n, q);
      var first := if p == i then k else 1;
      assert Chain(code, Target(code, p), 0) == Target(code, p);
      assert Chain(code, p, first) == t;
      ChainAdd(code, p, first, n);
      assert LandsIn(code, p, first + n, q);
    }
  }

  lemma RedirectPreserves(code: seq<Instruction>, next: seq<Instruction>, i: nat, k: nat, p: nat,
                          q: nat)
    requires Redirected(code, next, i, k) && p < |code|
    ensures Lands(code, p, q) <==> Lands(next, p, q)
  {
    if Lands(code, p, q) {
      var m: nat :| LandsIn(code, p, m, q);
      RedirectKeeps(code, next, i, k, p, m);
      assert LandsIn(next, p, m, q);
    }
    if Lands(next, p, q) {
      var m: nat :| LandsIn(next, p, m, q);
      RedirectAddsNone(code, next, i, k, p, m);
    }
  }

  /** finaltarget: follow at most 100 jumps. */
  method FinalTarget(code: array<Instruction>, start: nat) returns (i: nat, ghost k: nat)
    requires Closed(code[..]) && start < code.Length
    ensures i == Chain(code[..], start, 100)
    ensures code[start].Jmp? ==> 1 <= k <= MAX_HOPS && i == Chain(code[..], start, k)
  {
    i, k := start, 0;
    var count := 0;
    while count < MAX_HOPS
      invariant count <= MAX_HOPS && i < code.Length && k == count
      invariant i == Chain(code[..], start, count)
    {
      if code[i].Other? {
        break;
      }
      ChainAdd(code[..], start, count, 1);
      assert Chain(code[..], Target(code[..], i), 0) == Target(code[..], i);
      i := i + code[i].sJ + 1;
      count := count + 1;
      k := count;
    }
    ChainAdd(code[..], start, count, MAX_HOPS - count);
  }

  /** fixjump; false when the distance does not fit the instruction. */
  method FixJump(code: array<Instruction>, pc: nat, dest: nat) returns (ok: bool)
    requires pc < code.Length && code[pc].Jmp?
    modifies code
    ensures ok <==> -0xFF_FFFF <= dest - (pc + 1) <= 0x100_0000
    ensures code[..] == if ok then old(code[..])[pc := Jmp(dest - (pc + 1))] else old(code[..])
  {
    var offset := dest - (pc + 1);
    if !(-OFFSET_sJ <= offset <= MAXARG_sJ - OFFSET_sJ) {
      return false;
    }
    code[pc] := Jmp(offset);
    return true;
  }

  /** The two programs jump to the same places. */
  ghost predicate SameLandings(a: seq<Instruction>, b: seq<Instruction>) {
    && Closed(a) && Closed(b) && |a| == |b|
    && forall p: nat, q: nat :: p < |a| ==> (Lands(a, p, q) <==> Lands(b, p, q))
  }

  /** A chain of `a` that ends within `m` hops ends there in `b` too. */
  ghost predicate NoLonger(a: seq<Instruction>, b: seq<Instruction>, p: nat, m: nat)
    requires Closed(a) && Closed(b) && p < |a| == |b|
  {
    a[Chain(a, p, m)].Other? ==> Chain(b, p, m) == Chain(a, p, m)
  }

  /** A jump whose chain ended within 100 hops goes there directly. */
  ghost predicate Direct(a: seq<Instruction>, b: seq<Instruction>, p: nat)
    requires Closed(a) && p < |a| == |b|
  {
    a[p].Jmp? && b[p].Jmp? && a[Chain(a, p, 100)].Other? ==> Target(b, p) == Chain(a, p, 100)
  }

  /** The state of the pass before instruction `i`. */
  ghost predicate Threaded(orig: seq<Instruction>, code: seq<Instruction>, i: nat) {
    && SameLandings(orig, code) && i <= |orig|
    && (forall p: nat, m: nat :: p < |orig| ==> NoLonger(orig, code, p, m))
    && (forall p :: 0 <= p < |orig| ==>
          code[p].Jmp? == orig[p].Jmp? && (code[p].Other? ==> code[p] == orig[p]))
    && (forall p :: 0 <= p < i ==> Direct(orig, code, p))
  }

  lemma ThreadStep(orig: seq<Instruction>, code: seq<Instruction>, next: seq<Instruction>, i: nat,
                   k: nat)
    requires Threaded(orig, code, i) && Redirected(code, next, i, k)
    requires Chain(code, i, k) == Chain(code, i, MAX_HOPS)
    ensures Threaded(orig, next, i + 1)
  {
    forall p: nat, q: nat | p < |orig|
      ensures Lands(orig, p, q) <==> Lands(next, p, q)
    {
      RedirectPreserves(code, next, i, k, p, q);
    }
    forall p: nat, m: nat | p < |orig|
      ensures NoLonger(orig, next, p, m)
    {
      assert NoLonger(orig, code, p, m);
      if orig[Chain(orig, p, m)].Other? {
        RedirectKeeps(code, next, i, k, p, m);
      }
    }
    forall p | 0 <= p < i + 1
      ensures Direct(orig, next, p)
    {
      if p < i {
        assert Direct(orig, code, p);
      } else {
        assert NoLonger(orig, code, i, MAX_HOPS);
      }
    }
  }

  /** The OP_JMP case of luaK_finish, over all instructions in order.  From every instruction the chain
      of jumps reaches the same first non-jump instruction as before, or diverges exactly when it
      diverged before; only jumps are changed; and a jump whose chain ended within 100 hops goes there
      directly.  False: a redirected jump was too long. */
  method Finish(code: array<Instruction>) returns (ok: bool)
    requires Closed(code[..])
    modifies code
    ensures SameLandings(old(code[..]), code[..])
    ensures forall p :: 0 <= p < code.Length ==>
              code[p].Jmp? == old(code[p]).Jmp? && (code[p].Other? ==> code[p] == old(code[p]))
    ensures code.Length <= 0xFF_FFFF ==> ok
    ensures ok ==> forall p :: 0 <= p < code.Length ==> Direct(old(code[..]), code[..], p)
  {
    ghost var orig := code[..];
    for i := 0 to code.Length
      invariant Threaded(orig, code[..], i)
    {
      if code[i].Jmp? {
        ghost var before := code[..];
        var target, k := FinalTarget(code, i);
        ok := FixJump(code, i, target);
        if !ok {
          return;
        }
        ThreadStep(orig, before, code[..], i, k);
      } else {
        assert Direct(orig, code[..], i);
      }
    }
    return true;
  }
}
