/**
 * What the 3-SAT oracle of the Grover example does to a computational basis
 * state: it "changes the sign of the amplitude of the states that encode the
 * solution" by flipping the Grover ancilla (prepared in |->) exactly when
 * every clause has exactly one true variable, and it leaves the problem
 * register and the clause register as it found them.
 *
 * The oracle uses only CNOT and multi-controlled X, so its action on basis
 * states is the Boolean function given by `Gates.Run`; the registers are those
 * of `create_qc(n, m)`: q = [0, n), ancilla n, c[k] = n + 1 + k.
 */
module OracleSemantics {
  import opened Gates
  import opened Grover

  function Xor(a: bool, b: bool): bool
  {
    a != b
  }

  /** What a clause block leaves in its clause qubit: a ^ b ^ d ^ (a & b & d). */
  function ClauseParity(a: bool, b: bool, d: bool): bool
  {
    Xor(Xor(Xor(a, b), d), a && b && d)
  }

  function Count(b: bool): nat
  {
    if b then 1 else 0
  }

  /** The exactly-one 3-SAT constraint on one clause. */
  predicate ExactlyOne(a: bool, b: bool, d: bool)
  {
    Count(a) + Count(b) + Count(d) == 1
  }

  /** The clause qubit's parity expression is the exactly-one constraint. */
  lemma ParityIsExactlyOne(a: bool, b: bool, d: bool)
    ensures ClauseParity(a, b, d) == ExactlyOne(a, b, d)
  {
  }

  /** In state `s`, exactly one of the clause's three qubits is |1>. */
  predicate Satisfied(s: seq<bool>, qs: seq<nat>)
    requires |qs| == 3 && forall i :: 0 <= i < 3 ==> qs[i] < |s|
  {
    ExactlyOne(s[qs[0]], s[qs[1]], s[qs[2]])
  }

  /** The qubits a clause names lie in the problem register of `create_qc(n, m)`. */
  lemma ClauseQubitsInQ(n: nat, m: nat, clause: seq<int>)
    requires ClauseResolves(Layout(n, m).q, clause)
    ensures var qs := ClauseQubits(Layout(n, m).q, clause);
      forall i :: 0 <= i < 3 ==> qs[i] < n
  {
    var l := Layout(n, m);
    var qs := ClauseQubits(l.q, clause);
    forall i | 0 <= i < 3 ensures qs[i] < n {
      var j :| 0 <= j < n && l.q[j] == qs[i];
    }
  }

  /** The block, step by step: three CNOTs then the MCX, on concrete states. */
  lemma BlockRun(qs: seq<nat>, ck: nat, s: seq<bool>)
    requires |qs| == 3 && ck < |s|
    requires forall i :: 0 <= i < 3 ==> qs[i] < |s| && qs[i] != ck
    ensures Runnable(ClauseBlock(qs, ck), |s|)
    ensures var s1 := s[ck := s[ck] != s[qs[0]]];
      var s2 := s1[ck := s1[ck] != s1[qs[1]]];
      var s3 := s2[ck := s2[ck] != s2[qs[2]]];
      Run(ClauseBlock(qs, ck), s) == s3[ck := s3[ck] != AllOn(s3, qs)]
  {
    var s1 := s[ck := s[ck] != s[qs[0]]];
    var s2 := s1[ck := s1[ck] != s1[qs[1]]];
    var s3 := s2[ck := s2[ck] != s2[qs[2]]];
    var g3 := MCX(ck, qs);
    RunMcx(ck, qs, s3);
    RunCnot(qs[2], ck, [g3], s2);
    RunCnot(qs[1], ck, [CNOT(qs[2], ck), g3], s1);
    RunCnot(qs[0], ck, [CNOT(qs[1], ck), CNOT(qs[2], ck), g3], s);
    assert [CNOT(qs[0], ck)] + [CNOT(qs[1], ck), CNOT(qs[2], ck), g3] == ClauseBlock(qs, ck);
  }
  /** The parity the three CNOTs and the MCX leave in the clause qubit is the exactly-one test. */
  lemma BlockVal(qs: seq<nat>, ck: nat, s: seq<bool>)
    requires |qs| == 3 && ck < |s|
    requires forall i :: 0 <= i < 3 ==> qs[i] < |s| && qs[i] != ck
    ensures var s1 := s[ck := s[ck] != s[qs[0]]];
      var s2 := s1[ck := s1[ck] != s1[qs[1]]];
      var s3 := s2[ck := s2[ck] != s2[qs[2]]];
      s3[ck := s3[ck] != AllOn(s3, qs)] == s[ck := Xor(s[ck], Satisfied(s, qs))]
  {
    var a, b, d := s[qs[0]], s[qs[1]], s[qs[2]];
    var s1 := s[ck := s[ck] != s[qs[0]]];
    var s2 := s1[ck := s1[ck] != s1[qs[1]]];
    var s3 := s2[ck := s2[ck] != s2[qs[2]]];
    assert s3[qs[0]] == a && s3[qs[1]] == b && s3[qs[2]] == d;
    assert AllOn(s3, qs) == (a && b && d);
    ParityIsExactlyOne(a, b, d);
    assert s3[ck] == (((s[ck] != a) != b) != d);
  }

  /** One clause block XORs "exactly one of the three is |1>" into the clause qubit and touches nothing else. */
  lemma BlockEffect(qs: seq<nat>, ck: nat, s: seq<bool>)
    requires |qs| == 3 && ck < |s|
    requires forall i :: 0 <= i < 3 ==> qs[i] < |s| && qs[i] != ck
    ensures Runnable(ClauseBlock(qs, ck), |s|)
    ensures Run(ClauseBlock(qs, ck), s) == s[ck := Xor(s[ck], Satisfied(s, qs))]
  {
    BlockRun(qs, ck, s);
    BlockVal(qs, ck, s);
  }

  /** Clause j holds in basis state `s`; its qubits lie in q = [0, n). */
  predicate ClauseHolds(n: nat, m: nat, clauses: seq<seq<int>>, s: seq<bool>, j: nat)
    requires |s| == n + m + 1 && j < |clauses|
    requires OracleResolves(Layout(n, m).q, Layout(n, m).c, clauses)
  {
    ClauseQubitsInQ(n, m, clauses[j]);
    Satisfied(s, ClauseQubits(Layout(n, m).q, clauses[j]))
  }

  /** Whether a clause holds depends on the problem register alone. */
  lemma ClauseHoldsFrame(n: nat, m: nat, clauses: seq<seq<int>>, s: seq<bool>, t: seq<bool>, j: nat)
    requires |s| == n + m + 1 && |t| == |s| && j < |clauses|
    requires OracleResolves(Layout(n, m).q, Layout(n, m).c, clauses)
    requires forall i :: 0 <= i < n ==> s[i] == t[i]
    ensures ClauseHolds(n, m, clauses, t, j) == ClauseHolds(n, m, clauses, s, j)
  {
    ClauseQubitsInQ(n, m, clauses[j]);
  }

  /** Qubit i after the clause blocks from clause k on: c[j] for j >= k gets clause j XORed in. */
  function AfterBlocks(n: nat, m: nat, clauses: seq<seq<int>>, k: nat, s: seq<bool>, i: nat): bool
    requires |s| == n + m + 1 && i < |s|
    requires OracleResolves(Layout(n, m).q, Layout(n, m).c, clauses)
  {
    if n + 1 + k <= i < n + 1 + |clauses| then Xor(s[i], ClauseHolds(n, m, clauses, s, i - n - 1)) else s[i]
  }

  /** The state after clause k's block: c[k] gets clause k XORed in. */
  function StepState(n: nat, m: nat, clauses: seq<seq<int>>, k: nat, s: seq<bool>): (t: seq<bool>)
    requires |s| == n + m + 1 && k < |clauses|
    requires OracleResolves(Layout(n, m).q, Layout(n, m).c, clauses)
    ensures |t| == |s|
  {
    s[n + 1 + k := Xor(s[n + 1 + k], ClauseHolds(n, m, clauses, s, k))]
  }

  /** Running the blocks from clause k is running clause k's block, then the rest. */
  lemma BlocksUnfold(n: nat, m: nat, clauses: seq<seq<int>>, k: nat, s: seq<bool>)
    requires |s| == n + m + 1 && k < |clauses|
    requires OracleResolves(Layout(n, m).q, Layout(n, m).c, clauses)
    requires Runnable(Blocks(Layout(n, m).q, Layout(n, m).c, clauses, k + 1), |s|)
    ensures Runnable(Blocks(Layout(n, m).q, Layout(n, m).c, clauses, k), |s|)
    ensures Run(Blocks(Layout(n, m).q, Layout(n, m).c, clauses, k), s)
         == Run(Blocks(Layout(n, m).q, Layout(n, m).c, clauses, k + 1), StepState(n, m, clauses, k, s))
  {
    var l := Layout(n, m);
    var qs := ClauseQubits(l.q, clauses[k]);
    ClauseQubitsInQ(n, m, clauses[k]);
    BlockEffect(qs, l.c[k], s);
    var block := ClauseBlock(qs, l.c[k]);
    var rest := Blocks(l.q, l.c, clauses, k + 1);
    assert Run(block, s) == StepState(n, m, clauses, k, s);
    RunAppend(block, rest, s);
  }

  /** What the later blocks make of the stepped state is what the blocks from k make of `s`. */
  lemma AfterStep(n: nat, m: nat, clauses: seq<seq<int>>, k: nat, s: seq<bool>, i: nat)
    requires |s| == n + m + 1 && k < |clauses| && i < |s|
    requires OracleResolves(Layout(n, m).q, Layout(n, m).c, clauses)
    ensures AfterBlocks(n, m, clauses, k + 1, StepState(n, m, clauses, k, s), i)
         == AfterBlocks(n, m, clauses, k, s, i)
  {
    var t := StepState(n, m, clauses, k, s);
    if n + 1 + k < i < n + 1 + |clauses| {
      ClauseHoldsFrame(n, m, clauses, s, t, i - n - 1);
    }
  }

  /**
   * The clause blocks from clause k on XOR into c[j], for each clause j >= k,
   * whether clause j holds; every other qubit keeps its value.
   */
  lemma {:induction false} BlocksEffect(n: nat, m: nat, clauses: seq<seq<int>>, k: nat, s: seq<bool>)
    requires |s| == n + m + 1 && k <= |clauses|
    requires OracleResolves(Layout(n, m).q, Layout(n, m).c, clauses)
    ensures Runnable(Blocks(Layout(n, m).q, Layout(n, m).c, clauses, k), |s|)
    ensures var r := Run(Blocks(Layout(n, m).q, Layout(n, m).c, clauses, k), s);
      forall i :: 0 <= i < |s| ==> r[i] == AfterBlocks(n, m, clauses, k, s, i)
    decreases |clauses| - k
  {
    if k < |clauses| {
      var t := StepState(n, m, clauses, k, s);
      BlocksEffect(n, m, clauses, k + 1, t);
      BlocksUnfold(n, m, clauses, k, s);
      forall i | 0 <= i < |s|
        ensures Run(Blocks(Layout(n, m).q, Layout(n, m).c, clauses, k + 1), t)[i] == AfterBlocks(n, m, clauses, k, s, i)
      {
        AfterStep(n, m, clauses, k, s, i);
      }
    }
  }

  /** The value clause qubit c[k] holds after the first half of the oracle. */
  function Computed(n: nat, m: nat, clauses: seq<seq<int>>, s: seq<bool>, k: nat): bool
    requires |s| == n + m + 1 && k < m
    requires OracleResolves(Layout(n, m).q, Layout(n, m).c, clauses)
  {
    Xor(s[n + 1 + k], k < |clauses| && ClauseHolds(n, m, clauses, s, k))
  }

  /** Every clause qubit is |1> after the first half: the middle gate flips the ancilla. */
  predicate Marked(n: nat, m: nat, clauses: seq<seq<int>>, s: seq<bool>)
    requires |s| == n + m + 1
    requires OracleResolves(Layout(n, m).q, Layout(n, m).c, clauses)
  {
    forall k :: 0 <= k < m ==> Computed(n, m, clauses, s, k)
  }

  /** A state holding each clause qubit's computed value has all clause qubits on exactly when marked. */
  lemma AllOnIsMarked(n: nat, m: nat, clauses: seq<seq<int>>, s: seq<bool>, s1: seq<bool>)
    requires |s| == n + m + 1 && |s1| == |s|
    requires OracleResolves(Layout(n, m).q, Layout(n, m).c, clauses)
    requires forall k :: 0 <= k < m ==> s1[n + 1 + k] == Computed(n, m, clauses, s, k)
    ensures AllOn(s1, Layout(n, m).c) == Marked(n, m, clauses, s)
  {
    var c := Layout(n, m).c;
    if AllOn(s1, c) {
      forall k | 0 <= k < m ensures Computed(n, m, clauses, s, k) {
        assert s1[c[k]];
      }
    }
    if Marked(n, m, clauses, s) {
      forall k | 0 <= k < |c| ensures s1[c[k]] {
        assert Computed(n, m, clauses, s, k);
      }
    }
  }

  /** After the first half, every clause qubit is |1> exactly when the state is marked. */
  lemma FirstHalfMarks(n: nat, m: nat, clauses: seq<seq<int>>, s: seq<bool>)
    requires |s| == n + m + 1
    requires OracleResolves(Layout(n, m).q, Layout(n, m).c, clauses)
    ensures Runnable(Blocks(Layout(n, m).q, Layout(n, m).c, clauses, 0), |s|)
    ensures var s1 := Run(Blocks(Layout(n, m).q, Layout(n, m).c, clauses, 0), s);
      AllOn(s1, Layout(n, m).c) == Marked(n, m, clauses, s)
  {
    BlocksEffect(n, m, clauses, 0, s);
    var s1 := Run(Blocks(Layout(n, m).q, Layout(n, m).c, clauses, 0), s);
    forall k | 0 <= k < m ensures s1[n + 1 + k] == Computed(n, m, clauses, s, k) {
      assert s1[n + 1 + k] == AfterBlocks(n, m, clauses, 0, s, n + 1 + k);
    }
    AllOnIsMarked(n, m, clauses, s, s1);
  }

  /** The middle gate flips the ancilla when every clause qubit is |1>. */
  lemma MiddleEffect(n: nat, m: nat, s: seq<bool>)
    requires |s| == n + m + 1
    ensures Runnable([MCX(n, Layout(n, m).c)], |s|)
    ensures Run([MCX(n, Layout(n, m).c)], s) == s[n := Xor(s[n], AllOn(s, Layout(n, m).c))]
  {
    RunOne(MCX(n, Layout(n, m).c), s);
    var r := Apply(MCX(n, Layout(n, m).c), s);
    assert r == s[n := Xor(s[n], AllOn(s, Layout(n, m).c))];
  }

  /**
   * The second half undoes the first: if `s1` is what the clause blocks made
   * of `s`, running them again (whatever the ancilla now holds) gives back `s`
   * everywhere but the ancilla.
   */
  lemma SecondHalfRestores(n: nat, m: nat, clauses: seq<seq<int>>, s: seq<bool>, s1: seq<bool>, a: bool, i: nat)
    requires |s| == n + m + 1 && i < |s| && |s1| == |s|
    requires OracleResolves(Layout(n, m).q, Layout(n, m).c, clauses)
    requires forall j :: 0 <= j < |s| ==> s1[j] == AfterBlocks(n, m, clauses, 0, s, j)
    ensures AfterBlocks(n, m, clauses, 0, s1[n := a], i) == s[n := a][i]
  {
    var s2 := s1[n := a];
    if n + 1 <= i < n + 1 + |clauses| {
      forall j | 0 <= j < n ensures s2[j] == s[j] {
        assert s1[j] == AfterBlocks(n, m, clauses, 0, s, j);
      }
      ClauseHoldsFrame(n, m, clauses, s, s2, i - n - 1);
      assert s1[i] == AfterBlocks(n, m, clauses, 0, s, i);
    } else if i != n {
      assert s1[i] == AfterBlocks(n, m, clauses, 0, s, i);
    }
  }

  /** Running the clause blocks on the first half's output, ancilla changed to `a`, gives back `s` with that ancilla. */
  lemma SecondHalf(n: nat, m: nat, clauses: seq<seq<int>>, s: seq<bool>, s1: seq<bool>, a: bool)
    requires |s| == n + m + 1 && |s1| == |s|
    requires OracleResolves(Layout(n, m).q, Layout(n, m).c, clauses)
    requires forall j :: 0 <= j < |s| ==> s1[j] == AfterBlocks(n, m, clauses, 0, s, j)
    ensures Runnable(Blocks(Layout(n, m).q, Layout(n, m).c, clauses, 0), |s|)
    ensures Run(Blocks(Layout(n, m).q, Layout(n, m).c, clauses, 0), s1[n := a]) == s[n := a]
  {
    var s2 := s1[n := a];
    BlocksEffect(n, m, clauses, 0, s2);
    var s3 := Run(Blocks(Layout(n, m).q, Layout(n, m).c, clauses, 0), s2);
    forall i | 0 <= i < |s| ensures s3[i] == s[n := a][i] {
      SecondHalfRestores(n, m, clauses, s, s1, a, i);
    }
  }

  /**
   * On any basis state of the `create_qc(n, m)` circuit, the oracle flips the
   * ancilla exactly when the state is marked, and restores every other qubit:
   * the second half undoes what the first half wrote into the clause register.
   */
  lemma OracleEffect(n: nat, m: nat, clauses: seq<seq<int>>, s: seq<bool>)
    requires |s| == n + m + 1
    requires OracleResolves(Layout(n, m).q, Layout(n, m).c, clauses)
    ensures var l := Layout(n, m);
      Runnable(Oracle(l.q, l.c, l.ancilla, clauses).value, |s|)
    ensures var l := Layout(n, m);
      Run(Oracle(l.q, l.c, l.ancilla, clauses).value, s) == s[n := Xor(s[n], Marked(n, m, clauses, s))]
  {
    var l := Layout(n, m);
    var half := Blocks(l.q, l.c, clauses, 0);
    var mid := [MCX(n, l.c)];
    assert Oracle(l.q, l.c, l.ancilla, clauses).value == half + mid + half;
    FirstHalfMarks(n, m, clauses, s);
    var s1 := Run(half, s);
    MiddleEffect(n, m, s1);
    RunSandwich(half, mid, s);
    BlocksEffect(n, m, clauses, 0, s);
    assert s1[n] == AfterBlocks(n, m, clauses, 0, s, n);
    SecondHalf(n, m, clauses, s, s1, Xor(s[n], Marked(n, m, clauses, s)));
  }

  /** Marking reads only the problem and clause registers, never the ancilla. */
  lemma MarkedIgnoresAncilla(n: nat, m: nat, clauses: seq<seq<int>>, s: seq<bool>, a: bool)
    requires |s| == n + m + 1
    requires OracleResolves(Layout(n, m).q, Layout(n, m).c, clauses)
    ensures Marked(n, m, clauses, s[n := a]) == Marked(n, m, clauses, s)
  {
    var t := s[n := a];
    forall k | 0 <= k < m ensures Computed(n, m, clauses, t, k) == Computed(n, m, clauses, s, k) {
      if k < |clauses| {
        ClauseQubitsInQ(n, m, clauses[k]);
      }
    }
  }

  /** Applying the oracle twice gives back the basis state it started from. */
  lemma OracleSelfInverse(n: nat, m: nat, clauses: seq<seq<int>>, s: seq<bool>)
    requires |s| == n + m + 1
    requires OracleResolves(Layout(n, m).q, Layout(n, m).c, clauses)
    ensures var o := Oracle(Layout(n, m).q, Layout(n, m).c, Layout(n, m).ancilla, clauses).value;
      Runnable(o, |s|) && Run(o, Run(o, s)) == s
  {
    OracleEffect(n, m, clauses, s);
    var t := s[n := Xor(s[n], Marked(n, m, clauses, s))];
    OracleEffect(n, m, clauses, t);
    MarkedIgnoresAncilla(n, m, clauses, s, Xor(s[n], Marked(n, m, clauses, s)));
  }

  /** The assignment `x` gives every clause exactly one true variable (entry j names x[j-1]). */
  predicate Solves(x: seq<bool>, clauses: seq<seq<int>>)
    requires forall k :: 0 <= k < |clauses| ==> |clauses[k]| >= 3
    requires forall k, i :: 0 <= k < |clauses| && 0 <= i < 3 ==> 1 <= clauses[k][i] <= |x|
  {
    forall k :: 0 <= k < |clauses| ==>
      ExactlyOne(x[clauses[k][0] - 1], x[clauses[k][1] - 1], x[clauses[k][2] - 1])
  }

  function Zeros(m: nat): (z: seq<bool>)
    ensures |z| == m && forall i :: 0 <= i < m ==> !z[i]
  {
    seq(m, _ => false)
  }

  /** With x on the problem register, clause k holds exactly when x gives it exactly one true variable. */
  lemma ClauseHoldsOnAssignment(x: seq<bool>, a: bool, m: nat, clauses: seq<seq<int>>, k: nat)
    requires |clauses| <= m && k < |clauses|
    requires forall k :: 0 <= k < |clauses| ==> |clauses[k]| >= 3
    requires forall k, i :: 0 <= k < |clauses| && 0 <= i < 3 ==> 1 <= clauses[k][i] <= |x|
    ensures OracleResolves(Layout(|x|, m).q, Layout(|x|, m).c, clauses)
    ensures ClauseHolds(|x|, m, clauses, x + [a] + Zeros(m), k)
        == ExactlyOne(x[clauses[k][0] - 1], x[clauses[k][1] - 1], x[clauses[k][2] - 1])
  {
    var l := Layout(|x|, m);
    OneIndexedClauses(l.q, l.c, clauses);
    var s := x + [a] + Zeros(m);
    var qs := ClauseQubits(l.q, clauses[k]);
    assert qs[0] == clauses[k][0] - 1 && qs[1] == clauses[k][1] - 1 && qs[2] == clauses[k][2] - 1;
    assert s[qs[0]] == x[qs[0]] && s[qs[1]] == x[qs[1]] && s[qs[2]] == x[qs[2]];
  }

  /** With x on the problem register and a clear clause register, the state is marked exactly when x solves every clause and there is one clause per clause qubit. */
  lemma MarkedOnAssignment(x: seq<bool>, a: bool, m: nat, clauses: seq<seq<int>>)
    requires |clauses| <= m
    requires forall k :: 0 <= k < |clauses| ==> |clauses[k]| >= 3
    requires forall k, i :: 0 <= k < |clauses| && 0 <= i < 3 ==> 1 <= clauses[k][i] <= |x|
    ensures OracleResolves(Layout(|x|, m).q, Layout(|x|, m).c, clauses)
    ensures Marked(|x|, m, clauses, x + [a] + Zeros(m)) == (|clauses| == m && Solves(x, clauses))
  {
    var n := |x|;
    var l := Layout(n, m);
    OneIndexedClauses(l.q, l.c, clauses);
    var s := x + [a] + Zeros(m);
    forall k | 0 <= k < m
      ensures Computed(n, m, clauses, s, k) == (k < |clauses| && ExactlyOne(x[clauses[k][0] - 1], x[clauses[k][1] - 1], x[clauses[k][2] - 1]))
    {
      assert !s[n + 1 + k];
      if k < |clauses| {
        ClauseHoldsOnAssignment(x, a, m, clauses, k);
      }
    }
    if |clauses| < m {
      assert !Computed(n, m, clauses, s, |clauses|);
    }
  }

  /** The oracle sets the ancilla to `b` when `b` is the ancilla XOR the marking. */
  lemma OracleSets(n: nat, m: nat, clauses: seq<seq<int>>, s: seq<bool>, b: bool)
    requires |s| == n + m + 1
    requires OracleResolves(Layout(n, m).q, Layout(n, m).c, clauses)
    requires b == Xor(s[n], Marked(n, m, clauses, s))
    ensures Runnable(Oracle(Layout(n, m).q, Layout(n, m).c, n, clauses).value, |s|)
    ensures Run(Oracle(Layout(n, m).q, Layout(n, m).c, n, clauses).value, s) == s[n := b]
  {
    OracleEffect(n, m, clauses, s);
  }

  /**
   * The promise of the oracle's docstring.  For an assignment x of the n
   * problem qubits, an ancilla value a and a clear clause register, the
   * oracle returns x and the clear clause register unchanged and flips the
   * ancilla exactly when x solves the exactly-one 3-SAT instance, with one
   * clause qubit per clause.
   */
  lemma OracleMarksSolutions(x: seq<bool>, a: bool, m: nat, clauses: seq<seq<int>>)
    requires |clauses| <= m
    requires forall k :: 0 <= k < |clauses| ==> |clauses[k]| >= 3
    requires forall k, i :: 0 <= k < |clauses| && 0 <= i < 3 ==> 1 <= clauses[k][i] <= |x|
    ensures OracleResolves(Layout(|x|, m).q, Layout(|x|, m).c, clauses)
    ensures Runnable(Oracle(Layout(|x|, m).q, Layout(|x|, m).c, |x|, clauses).value, |x| + m + 1)
    ensures Run(Oracle(Layout(|x|, m).q, Layout(|x|, m).c, |x|, clauses).value, x + [a] + Zeros(m))
         == x + [Xor(a, |clauses| == m && Solves(x, clauses))] + Zeros(m)
  {
    MarkedOnAssignment(x, a, m, clauses);
    OracleOnAssignment(x, a, m, clauses, x + [a] + Zeros(m), |clauses| == m && Solves(x, clauses));

  }

  /** The oracle on x + [a] + zeros, given whether that state is marked. */
  lemma OracleOnAssignment(x: seq<bool>, a: bool, m: nat, clauses: seq<seq<int>>, s: seq<bool>, flag: bool)
    requires s == x + [a] + Zeros(m)
    requires OracleResolves(Layout(|x|, m).q, Layout(|x|, m).c, clauses)
    requires Marked(|x|, m, clauses, s) == flag
    ensures Runnable(Oracle(Layout(|x|, m).q, Layout(|x|, m).c, |x|, clauses).value, |x| + m + 1)
    ensures Run(Oracle(Layout(|x|, m).q, Layout(|x|, m).c, |x|, clauses).value, s) == x + [Xor(a, flag)] + Zeros(m)
  {
    assert s[|x|] == a && |s| == |x| + m + 1;
    OracleSets(|x|, m, clauses, s, Xor(a, flag));
    SetAncilla(x, a, m, Xor(a, flag));
  }

  /** Overwriting the ancilla of x + [a] + zeros. */
  lemma SetAncilla(x: seq<bool>, a: bool, m: nat, b: bool)
    ensures (x + [a] + Zeros(m))[|x| := b] == x + [b] + Zeros(m)
  {
  }
}
