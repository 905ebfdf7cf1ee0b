/**
 * The circuit builder of the Grover search for exactly-one 3-SAT
 * (examples/grover3sat/grover_3SAT_functions.py).
 *
 * Qubit registers are lists of qubit indices; each generator of the source
 * becomes a function returning the ordered list of gates it yields, and the
 * circuit is an object whose `Add` appends to its gate queue.  Python's
 * `IndexError` on a bad list index is the `Err` of a `Result`.
 */
module Grover {
  import opened Wrappers
  import opened Gates

  datatype Error = IndexError

  // ---------------------------------------------------------------------
  // bitstring
  // ---------------------------------------------------------------------

  function BitChar(b: bool): char
  {
    if b then '1' else '0'
  }

  /** `''.join(str(int(b)) for b in bits)`. */
  function Bitstring(bits: seq<bool>): string
  {
    if bits == [] then "" else [BitChar(bits[0])] + Bitstring(bits[1..])
  }

  /** The bitstring has one character per bit: '1' for a set bit, '0' otherwise. */
  lemma {:induction false} BitstringAt(bits: seq<bool>)
    ensures |Bitstring(bits)| == |bits|
    ensures forall i :: 0 <= i < |bits| ==> Bitstring(bits)[i] == (if bits[i] then '1' else '0')
  {
    if bits != [] {
      BitstringAt(bits[1..]);
      var r := Bitstring(bits);
      assert r == [BitChar(bits[0])] + Bitstring(bits[1..]);
      forall i | 1 <= i < |bits|
        ensures r[i] == (if bits[i] then '1' else '0')
      {
        assert r[i] == Bitstring(bits[1..])[i - 1];
        assert bits[1..][i - 1] == bits[i];
      }
    }
  }

  /** Reads a string of '0' and '1' back into bits; any other character fails. */
  function ParseBits(s: string): (r: Option<seq<bool>>)
    ensures r.Some? ==> |r.value| == |s|
  {
    if s == [] then Some([])
    else if s[0] != '0' && s[0] != '1' then None
    else match ParseBits(s[1..])
      case None => None
      case Some(rest) => Some([s[0] == '1'] + rest)
  }

  /** Every bit list is recovered from its bitstring. */
  lemma {:induction false} BitstringRoundTrip(bits: seq<bool>)
    ensures ParseBits(Bitstring(bits)) == Some(bits)
  {
    if bits != [] {
      BitstringRoundTrip(bits[1..]);
      var s := Bitstring(bits);
      assert s == [BitChar(bits[0])] + Bitstring(bits[1..]);
      assert s[0] == BitChar(bits[0]) && s[1..] == Bitstring(bits[1..]);
      assert ParseBits(s) == Some([s[0] == '1'] + bits[1..]);
      assert [s[0] == '1'] + bits[1..] == bits;
    }
  }

  /** The bitstrings are exactly the strings over '0' and '1'. */
  lemma {:induction false} ParseBitsRoundTrip(s: string)
    ensures ParseBits(s).Some? <==> forall i :: 0 <= i < |s| ==> s[i] == '0' || s[i] == '1'
    ensures ParseBits(s).Some? ==> Bitstring(ParseBits(s).value) == s
  {
    if s != [] {
      ParseBitsRoundTrip(s[1..]);
      if ParseBits(s).Some? {
        var rest := ParseBits(s[1..]).value;
        var bits := [s[0] == '1'] + rest;
        assert ParseBits(s).value == bits;
        assert bits[1..] == rest;
        assert Bitstring(bits) == [s[0]] + Bitstring(rest);
        assert s == [s[0]] + s[1..];
      } else if s[0] == '0' || s[0] == '1' {
        var i :| 0 <= i < |s[1..]| && s[1..][i] != '0' && s[1..][i] != '1';
        assert s[i + 1] == s[1..][i];
      }
    }
  }

  // ---------------------------------------------------------------------
  // read_file
  // ---------------------------------------------------------------------

  /**
   * An instance file, split into lines of tokens: the first line's integers,
   * the second line's tokens, and the integer lines after it.  A line read
   * past the end of the file is empty.
   */
  datatype InstanceText = InstanceText(header: seq<int>, solution: seq<string>, rest: seq<seq<int>>)

  /** `control`, `solution` and `clauses` as `read_file` returns them. */
  datatype Instance = Instance(control: seq<int>, solution: seq<string>, clauses: seq<seq<int>>)

  /** The i-th line after the solution line; `readline` at end of file yields an empty line. */
  function LineAt(rest: seq<seq<int>>, i: nat): seq<int>
  {
    if i < |rest| then rest[i] else []
  }

  function ClauseCount(header: seq<int>): nat
    requires |header| >= 2
  {
    if header[1] < 0 then 0 else header[1]
  }

  /** What `read_file` returns for a file, or the `IndexError` of `control[1]`. */
  function Parse(f: InstanceText): Result<Instance, Error>
  {
    if |f.header| < 2 then Err(IndexError)
    else Ok(Instance(f.header, f.solution, seq(ClauseCount(f.header), i requires 0 <= i => LineAt(f.rest, i))))
  }

  /** The text of an instance file holding `inst`. */
  function Write(inst: Instance): InstanceText
  {
    InstanceText(inst.control, inst.solution, inst.clauses)
  }

  /** `read_file`: header, solution line, then `control[1]` clause lines appended one by one. */
  method ReadFile(f: InstanceText) returns (r: Result<Instance, Error>)
    ensures r.Err? <==> |f.header| < 2
    ensures r.Ok? ==> r.value.control == f.header && r.value.solution == f.solution
    ensures r.Ok? ==> |r.value.clauses| == ClauseCount(f.header)
    ensures r.Ok? ==> forall i :: 0 <= i < |r.value.clauses| ==> r.value.clauses[i] == LineAt(f.rest, i)
    ensures r == Parse(f)
  {
    var control := f.header;
    var solution := f.solution;
    if |control| < 2 {
      return Err(IndexError);
    }
    var clauses: seq<seq<int>> := [];
    var i := 0;
    while i < control[1]
      invariant 0 <= i <= ClauseCount(control) && i == |clauses|
      invariant forall j :: 0 <= j < i ==> clauses[j] == LineAt(f.rest, j)
    {
      clauses := clauses + [LineAt(f.rest, i)];
      i := i + 1;
    }
    assert clauses == seq(ClauseCount(f.header), j requires 0 <= j => LineAt(f.rest, j));
    r := Ok(Instance(control, solution, clauses));
  }

  /** An instance whose header announces exactly its clauses is read back unchanged. */
  lemma WriteParseRoundTrip(inst: Instance)
    requires |inst.control| >= 2 && inst.control[1] == |inst.clauses|
    ensures Parse(Write(inst)) == Ok(inst)
  {
    var cl := Parse(Write(inst)).value.clauses;
    assert |cl| == |inst.clauses|;
    assert forall i :: 0 <= i < |cl| ==> cl[i] == inst.clauses[i];
    assert cl == inst.clauses;
  }

  /** A file with a header and exactly the announced clause lines is what writing its instance gives. */
  lemma ParseWriteRoundTrip(f: InstanceText)
    requires |f.header| >= 2 && f.header[1] == |f.rest|
    ensures Parse(f).Ok? && Write(Parse(f).value) == f
  {
    var cl := Parse(f).value.clauses;
    assert |cl| == |f.rest|;
    assert forall i :: 0 <= i < |cl| ==> cl[i] == f.rest[i];
    assert cl == f.rest;
  }

  // ---------------------------------------------------------------------
  // create_qc
  // ---------------------------------------------------------------------

  /** The registers of `create_qc` and the size of its circuit. */
  datatype Registers = Registers(q: seq<nat>, c: seq<nat>, ancilla: nat, width: nat)

  /** `q = [0, qubits)`, `ancilla = qubits`, `c[k] = qubits + 1 + k`, `qubits + clause_num + 1` qubits in all. */
  function Layout(qubits: nat, clauseNum: nat): (l: Registers)
    ensures |l.q| == qubits && |l.c| == clauseNum
    ensures l.ancilla == qubits && l.width == qubits + clauseNum + 1
    ensures forall i :: 0 <= i < qubits ==> l.q[i] == i
    ensures forall k :: 0 <= k < clauseNum ==> l.c[k] == qubits + 1 + k
  {
    Registers(seq(qubits, i => i), seq(clauseNum, i => i + qubits + 1), qubits, qubits + clauseNum + 1)
  }

  /** The three registers split the circuit's qubits: each qubit is in exactly one of them. */
  lemma LayoutPartition(qubits: nat, clauseNum: nat, x: nat)
    ensures var l := Layout(qubits, clauseNum);
      x < l.width <==> (x in l.q || x == l.ancilla || x in l.c)
    ensures var l := Layout(qubits, clauseNum);
      !(x in l.q && x == l.ancilla) && !(x in l.q && x in l.c) && !(x == l.ancilla && x in l.c)
    ensures var l := Layout(qubits, clauseNum);
      (x in l.q <==> x < qubits) && (x in l.c <==> qubits < x < l.width)
  {
    var l := Layout(qubits, clauseNum);
    if x < qubits {
      assert l.q[x] == x;
    } else if qubits < x < l.width {
      assert l.c[x - qubits - 1] == x;
    }
  }

  /** A circuit on `nqubits` qubits: the queue of gates added so far, in order. */
  class Circuit {
    const nqubits: nat
    var queue: seq<Gate>

    constructor (nqubits: nat)
      ensures this.nqubits == nqubits && queue == []
    {
      this.nqubits := nqubits;
      queue := [];
    }

    /** `circuit.add`: appends the gates, in the order given. */
    method Add(gs: seq<Gate>)
      modifies this
      ensures queue == old(queue) + gs
    {
      queue := queue + gs;
    }
  }

  /** `create_qc`: the registers and an empty circuit large enough for all of them. */
  method CreateQc(qubits: nat, clauseNum: nat) returns (l: Registers, circuit: Circuit)
    ensures l == Layout(qubits, clauseNum)
    ensures fresh(circuit) && circuit.nqubits == l.width && circuit.queue == []
  {
    l := Layout(qubits, clauseNum);
    circuit := new Circuit(l.width);
  }

  // ---------------------------------------------------------------------
  // start_grover
  // ---------------------------------------------------------------------

  /** `H(i)` for each i in q, in order. */
  function HAll(q: seq<nat>): (r: seq<Gate>)
    ensures |r| == |q|
  {
    if q == [] then [] else [H(q[0])] + HAll(q[1..])
  }

  lemma {:induction false} HAllAt(q: seq<nat>)
    ensures |HAll(q)| == |q|
    ensures forall i :: 0 <= i < |q| ==> HAll(q)[i] == H(q[i])
  {
    if q != [] {
      HAllAt(q[1..]);
      var r := HAll(q);
      assert r == [H(q[0])] + HAll(q[1..]);
      forall i | 1 <= i < |q| ensures r[i] == H(q[i]) {
        assert r[i] == HAll(q[1..])[i - 1];
      }
    }
  }

  /** `start_grover`. */
  function StartGrover(q: seq<nat>, ancilla: nat): seq<Gate>
  {
    [X(ancilla), H(ancilla)] + HAll(q)
  }

  /** start_grover yields X then H on the ancilla, then H on each q qubit in order: |q| + 2 gates. */
  lemma StartGroverShape(q: seq<nat>, ancilla: nat)
    ensures var r := StartGrover(q, ancilla);
      && |r| == |q| + 2
      && r[0] == X(ancilla) && r[1] == H(ancilla)
      && forall i :: 0 <= i < |q| ==> r[i + 2] == H(q[i])
  {
    HAllAt(q);
  }

  // ---------------------------------------------------------------------
  // oracle
  // ---------------------------------------------------------------------

  /** Python accepts `s[i]` for `-|s| <= i < |s|`. */
  predicate PyIndexable(n: nat, i: int)
  {
    -(n as int) <= i < n
  }

  /** Python's `s[i]`: a negative index counts from the end. */
  function PyAt(s: seq<nat>, i: int): (x: nat)
    requires PyIndexable(|s|, i)
    ensures x in s
  {
    if i >= 0 then s[i] else s[|s| + i]
  }

  /** `q[clause[0]-1]`, `q[clause[1]-1]` and `q[clause[2]-1]` are all defined. */
  predicate ClauseResolves(q: seq<nat>, clause: seq<int>)
  {
    |clause| >= 3 && forall i :: 0 <= i < 3 ==> PyIndexable(|q|, clause[i] - 1)
  }

  /** The three qubits a clause names. */
  function ClauseQubits(q: seq<nat>, clause: seq<int>): (r: seq<nat>)
    requires ClauseResolves(q, clause)
    ensures |r| == 3 && forall i :: 0 <= i < 3 ==> r[i] in q
  {
    [PyAt(q, clause[0] - 1), PyAt(q, clause[1] - 1), PyAt(q, clause[2] - 1)]
  }

  /** Three CNOTs from the clause's qubits into `ck`, then X on `ck` controlled by all three. */
  function ClauseBlock(qs: seq<nat>, ck: nat): seq<Gate>
    requires |qs| == 3
  {
    [CNOT(qs[0], ck), CNOT(qs[1], ck), CNOT(qs[2], ck), MCX(ck, qs)]
  }

  /** Every index the oracle evaluates is defined: no clause runs past `c` or `q`. */
  predicate OracleResolves(q: seq<nat>, c: seq<nat>, clauses: seq<seq<int>>)
  {
    |clauses| <= |c| && forall k :: 0 <= k < |clauses| ==> ClauseResolves(q, clauses[k])
  }

  /** The blocks of clauses k, k+1, ... with the counter `k` selecting `c[k]`. */
  function Blocks(q: seq<nat>, c: seq<nat>, clauses: seq<seq<int>>, k: nat): (r: seq<Gate>)
    requires OracleResolves(q, c, clauses) && k <= |clauses|
    ensures |r| == 4 * (|clauses| - k)
    decreases |clauses| - k
  {
    if k == |clauses| then []
    else ClauseBlock(ClauseQubits(q, clauses[k]), c[k]) + Blocks(q, c, clauses, k + 1)
  }

  /** `oracle`: the clause blocks, X on the ancilla controlled by all of c, the clause blocks again. */
  function Oracle(q: seq<nat>, c: seq<nat>, ancilla: nat, clauses: seq<seq<int>>): (r: Result<seq<Gate>, Error>)
    ensures r.Ok? <==> OracleResolves(q, c, clauses)
  {
    if OracleResolves(q, c, clauses) then
      var half := Blocks(q, c, clauses, 0);
      Ok(half + [MCX(ancilla, c)] + half)
    else Err(IndexError)
  }

  /** Block j of the clause blocks starting at k sits at offset 4 * (j - k). */
  lemma {:induction false} BlocksAt(q: seq<nat>, c: seq<nat>, clauses: seq<seq<int>>, k: nat, j: nat)
    requires OracleResolves(q, c, clauses) && k <= j < |clauses|
    ensures Blocks(q, c, clauses, k)[4 * (j - k)..4 * (j - k) + 4] == ClauseBlock(ClauseQubits(q, clauses[j]), c[j])
    decreases j - k
  {
    var b := ClauseBlock(ClauseQubits(q, clauses[k]), c[k]);
    var rest := Blocks(q, c, clauses, k + 1);
    assert Blocks(q, c, clauses, k) == b + rest;
    if j > k {
      BlocksAt(q, c, clauses, k + 1, j);
      assert (b + rest)[4 * (j - k)..4 * (j - k) + 4] == rest[4 * (j - k - 1)..4 * (j - k - 1) + 4];
    } else {
      assert (b + rest)[0..4] == b;
    }
  }

  /**
   * The shape of the oracle: 8 gates per clause plus one; block k is three
   * CNOTs from the clause's qubits into c[k] then X(c[k]) controlled by them;
   * the middle gate flips the ancilla under all of c; the second half repeats
   * the first gate for gate.
   */
  lemma OracleShape(q: seq<nat>, c: seq<nat>, ancilla: nat, clauses: seq<seq<int>>)
    requires OracleResolves(q, c, clauses)
    ensures var r := Oracle(q, c, ancilla, clauses).value;
      && |r| == 8 * |clauses| + 1
      && r[4 * |clauses|] == MCX(ancilla, c)
      && (forall i :: 0 <= i < 4 * |clauses| ==> r[4 * |clauses| + 1 + i] == r[i])
      && (forall k :: 0 <= k < |clauses| ==>
            var qs := ClauseQubits(q, clauses[k]);
            r[4 * k..4 * k + 4] == [CNOT(qs[0], c[k]), CNOT(qs[1], c[k]), CNOT(qs[2], c[k]), MCX(c[k], qs)])
  {
    var half := Blocks(q, c, clauses, 0);
    var r := Oracle(q, c, ancilla, clauses).value;
    assert r == half + [MCX(ancilla, c)] + half;
    forall k | 0 <= k < |clauses|
      ensures var qs := ClauseQubits(q, clauses[k]);
        r[4 * k..4 * k + 4] == [CNOT(qs[0], c[k]), CNOT(qs[1], c[k]), CNOT(qs[2], c[k]), MCX(c[k], qs)]
    {
      BlocksAt(q, c, clauses, 0, k);
      assert r[4 * k..4 * k + 4] == half[4 * k..4 * k + 4];
    }
  }

  /**
   * Clause entries are 1-indexed: when every entry j lies in [1, |q|] and c
   * has a qubit per clause, the oracle is defined and entry j names q[j-1].
   */
  lemma OneIndexedClauses(q: seq<nat>, c: seq<nat>, clauses: seq<seq<int>>)
    requires |clauses| <= |c|
    requires forall k :: 0 <= k < |clauses| ==> |clauses[k]| >= 3
    requires forall k, i :: 0 <= k < |clauses| && 0 <= i < 3 ==> 1 <= clauses[k][i] <= |q|
    ensures OracleResolves(q, c, clauses)
    ensures forall k, i :: 0 <= k < |clauses| && 0 <= i < 3 ==>
      ClauseQubits(q, clauses[k])[i] == q[clauses[k][i] - 1]
  {
  }

  /** Entry 0 is not rejected: Python's index -1 makes it name the last qubit of q. */
  lemma ZeroEntryNamesLastQubit(q: seq<nat>, clause: seq<int>, i: nat)
    requires ClauseResolves(q, clause) && i < 3 && clause[i] == 0
    ensures |q| > 0 && ClauseQubits(q, clause)[i] == q[|q| - 1]
  {
  }

  /** A clause line with fewer than three entries, as an empty line past the end of the file, breaks the oracle. */
  lemma ShortClauseBreaksOracle(q: seq<nat>, c: seq<nat>, ancilla: nat, clauses: seq<seq<int>>, k: nat)
    requires k < |clauses| && |clauses[k]| < 3
    ensures Oracle(q, c, ancilla, clauses) == Err(IndexError)
  {
    assert !ClauseResolves(q, clauses[k]);
  }

  /** A file announcing more clauses than it holds gives an instance whose oracle fails. */
  lemma TruncatedFileBreaksOracle(f: InstanceText, q: seq<nat>, c: seq<nat>, ancilla: nat)
    requires |f.header| >= 2 && f.header[1] > |f.rest|
    ensures Parse(f).Ok?
    ensures Oracle(q, c, ancilla, Parse(f).value.clauses) == Err(IndexError)
  {
    var cl := Parse(f).value.clauses;
    ShortClauseBreaksOracle(q, c, ancilla, cl, |f.rest|);
  }

  // ---------------------------------------------------------------------
  // diffuser
  // ---------------------------------------------------------------------

  /** `H(i), X(i)` for each i in q, in order. */
  function HX(q: seq<nat>): (r: seq<Gate>)
    ensures |r| == 2 * |q|
  {
    if q == [] then [] else [H(q[0]), X(q[0])] + HX(q[1..])
  }

  lemma {:induction false} HXAt(q: seq<nat>)
    ensures |HX(q)| == 2 * |q|
    ensures forall i :: 0 <= i < |q| ==> HX(q)[2 * i] == H(q[i]) && HX(q)[2 * i + 1] == X(q[i])
  {
    if q != [] {
      HXAt(q[1..]);
      var r := HX(q);
      assert r == [H(q[0]), X(q[0])] + HX(q[1..]);
      forall i | 1 <= i < |q| ensures r[2 * i] == H(q[i]) && r[2 * i + 1] == X(q[i]) {
        assert r[2 * i] == HX(q[1..])[2 * (i - 1)];
        assert r[2 * i + 1] == HX(q[1..])[2 * (i - 1) + 1];
      }
    }
  }

  /** `X(i), H(i)` for each i in q, in order. */
  function XH(q: seq<nat>): (r: seq<Gate>)
    ensures |r| == 2 * |q|
  {
    if q == [] then [] else [X(q[0]), H(q[0])] + XH(q[1..])
  }

  lemma {:induction false} XHAt(q: seq<nat>)
    ensures |XH(q)| == 2 * |q|
    ensures forall i :: 0 <= i < |q| ==> XH(q)[2 * i] == X(q[i]) && XH(q)[2 * i + 1] == H(q[i])
  {
    if q != [] {
      XHAt(q[1..]);
      var r := XH(q);
      assert r == [X(q[0]), H(q[0])] + XH(q[1..]);
      forall i | 1 <= i < |q| ensures r[2 * i] == X(q[i]) && r[2 * i + 1] == H(q[i]) {
        assert r[2 * i] == XH(q[1..])[2 * (i - 1)];
        assert r[2 * i + 1] == XH(q[1..])[2 * (i - 1) + 1];
      }
    }
  }

  /** `diffuser`: fails on an empty register at `q[0]`. */
  function Diffuser(q: seq<nat>): (r: Result<seq<Gate>, Error>)
    ensures r.Err? <==> q == []
  {
    if q == [] then Err(IndexError)
    else Ok(HX(q) + [H(q[0]), MCX(q[0], q[1..]), H(q[0])] + XH(q))
  }

  /**
   * The shape of the diffuser on n >= 1 qubits: 4n + 3 gates; H, X per qubit;
   * then H(q0), X(q0) controlled by q[1:], H(q0); then X, H per qubit.
   */
  lemma DiffuserShape(q: seq<nat>)
    requires q != []
    ensures var r := Diffuser(q).value;
      && |r| == 4 * |q| + 3
      && (forall i :: 0 <= i < |q| ==> r[2 * i] == H(q[i]) && r[2 * i + 1] == X(q[i]))
      && r[2 * |q|] == H(q[0]) && r[2 * |q| + 1] == MCX(q[0], q[1..]) && r[2 * |q| + 2] == H(q[0])
      && (forall i :: 0 <= i < |q| ==> r[2 * |q| + 3 + 2 * i] == X(q[i]) && r[2 * |q| + 4 + 2 * i] == H(q[i]))
  {
    var n := |q|;
    HXAt(q);
    XHAt(q);
    var r := Diffuser(q).value;
    var a, m, b := HX(q), [H(q[0]), MCX(q[0], q[1..]), H(q[0])], XH(q);
    assert r == a + m + b;
    forall i | 0 <= i < n
      ensures r[2 * n + 3 + 2 * i] == X(q[i]) && r[2 * n + 4 + 2 * i] == H(q[i])
    {
      assert r[2 * n + 3 + 2 * i] == b[2 * i];
      assert r[2 * n + 4 + 2 * i] == b[2 * i + 1];
    }
  }

  // ---------------------------------------------------------------------
  // grover
  // ---------------------------------------------------------------------

  /** `n` copies of `b`, one after the other. */
  function Repeat(b: seq<Gate>, n: nat): seq<Gate>
  {
    if n == 0 then [] else Repeat(b, n - 1) + b
  }

  lemma {:induction false} RepeatLength(b: seq<Gate>, n: nat)
    ensures |Repeat(b, n)| == n * |b|
  {
    if n > 0 {
      RepeatLength(b, n - 1);
      assert n * |b| == (n - 1) * |b| + |b|;
    }
  }

  /** Offsets of whole copies: copy j of a w-gate block ends no later than n copies do. */
  lemma CopyBound(j: nat, n: nat, w: nat)
    requires j < n
    ensures j * w + w == (j + 1) * w && (j + 1) * w <= n * w
    ensures n * w == (n - 1) * w + w
  {
    assert n * w == (j + 1) * w + (n - j - 1) * w;
  }

  /** A slice inside the left operand of a concatenation. */
  lemma SliceLeft(p: seq<Gate>, b: seq<Gate>, lo: nat, hi: nat)
    requires lo <= hi <= |p|
    ensures (p + b)[lo..hi] == p[lo..hi]
  {
  }

  /** Copy j of `b` in `Repeat(b, n)` sits at offset j * |b|. */
  lemma {:induction false} RepeatAt(b: seq<Gate>, n: nat, j: nat)
    requires j < n
    ensures |Repeat(b, n)| == n * |b| && j * |b| + |b| <= n * |b|
    ensures Repeat(b, n)[j * |b|..j * |b| + |b|] == b
  {
    var w := |b|;
    var prev := Repeat(b, n - 1);
    assert Repeat(b, n) == prev + b;
    RepeatLength(b, n - 1);
    RepeatLength(b, n);
    CopyBound(j, n, w);
    if j < n - 1 {
      RepeatAt(b, n - 1, j);
      SliceLeft(prev, b, j * w, j * w + w);
    } else {
      assert j * w == |prev|;
      assert (prev + b)[|prev|..|prev| + w] == b;
    }
  }

  /** Both the oracle and the diffuser can be built. */
  predicate RoundResolves(q: seq<nat>, c: seq<nat>, clauses: seq<seq<int>>)
  {
    OracleResolves(q, c, clauses) && q != []
  }

  /** One round of the loop of `grover`: the oracle, then the diffuser (empty if either fails). */
  function Round(q: seq<nat>, c: seq<nat>, ancilla: nat, clauses: seq<seq<int>>): seq<Gate>
  {
    if RoundResolves(q, c, clauses) then Oracle(q, c, ancilla, clauses).value + Diffuser(q).value else []
  }

  /** What `grover` adds to the circuit, or the error it stops with. */
  function GroverGates(q: seq<nat>, c: seq<nat>, ancilla: nat, clauses: seq<seq<int>>, steps: int): Result<seq<Gate>, Error>
  {
    if steps <= 0 then Ok(StartGrover(q, ancilla) + [M(q, "result")])
    else if !RoundResolves(q, c, clauses) then Err(IndexError)
    else Ok(StartGrover(q, ancilla) + Repeat(Round(q, c, ancilla, clauses), steps) + [M(q, "result")])
  }

  lemma AppendAssoc(a: seq<Gate>, b: seq<Gate>, c: seq<Gate>)
    ensures a + b + c == a + (b + c)
  {
  }

  /**
   * `grover`: appends start_grover, then `steps` rounds of oracle and diffuser,
   * then the measurement of q into register 'result'.  An index error stops it
   * in the first round, with what was added until then left in the circuit.
   */
  method Grover(circuit: Circuit, q: seq<nat>, c: seq<nat>, ancilla: nat, clauses: seq<seq<int>>, steps: int)
    returns (r: Result<Circuit, Error>)
    modifies circuit
    ensures r.Ok? <==> GroverGates(q, c, ancilla, clauses, steps).Ok?
    ensures r.Ok? ==> (r.value == circuit
      && circuit.queue == old(circuit.queue) + GroverGates(q, c, ancilla, clauses, steps).value)
    ensures r.Err? ==> (r.error == IndexError
      && circuit.queue == old(circuit.queue) + StartGrover(q, ancilla)
           + (if Oracle(q, c, ancilla, clauses).Ok? then Oracle(q, c, ancilla, clauses).value else []))
  {
    ghost var start := old(circuit.queue) + StartGrover(q, ancilla);
    ghost var b := Round(q, c, ancilla, clauses);
    circuit.Add(StartGrover(q, ancilla));
    var i := 0;
    while i < steps
      invariant 0 <= i <= (if steps < 0 then 0 else steps)
      invariant i > 0 ==> RoundResolves(q, c, clauses)
      invariant circuit.queue == start + Repeat(b, i)
    {
      ghost var before := circuit.queue;
      var o := Oracle(q, c, ancilla, clauses);
      if o.Err? {
        assert circuit.queue == start + [];
        return Err(o.error);
      }
      circuit.Add(o.value);
      var d := Diffuser(q);
      if d.Err? {
        assert before == start + [];
        return Err(d.error);
      }
      circuit.Add(d.value);
      assert b == o.value + d.value;
      AppendAssoc(before, o.value, d.value);
      AppendAssoc(start, Repeat(b, i), b);
      i := i + 1;
    }
    ghost var rep := Repeat(b, i);
    circuit.Add([M(q, "result")]);
    AppendAssoc(old(circuit.queue), StartGrover(q, ancilla), rep);
    AppendAssoc(old(circuit.queue), StartGrover(q, ancilla) + rep, [M(q, "result")]);
    r := Ok(circuit);
  }

  /** The length of the whole Grover circuit on n qubits and m clauses. */
  lemma GroverLength(q: seq<nat>, c: seq<nat>, ancilla: nat, clauses: seq<seq<int>>, steps: int)
    requires GroverGates(q, c, ancilla, clauses, steps).Ok?
    ensures var n, m := |q|, |clauses|;
      |GroverGates(q, c, ancilla, clauses, steps).value|
        == (n + 2) + (if steps <= 0 then 0 else steps) * ((8 * m + 1) + (4 * n + 3)) + 1
  {
    if steps > 0 {
      var b := Round(q, c, ancilla, clauses);
      assert |b| == (8 * |clauses| + 1) + (4 * |q| + 3);
      RepeatLength(b, steps);
    }
  }

  /** Round j of the Grover circuit is the oracle followed by the diffuser. */
  lemma GroverRound(q: seq<nat>, c: seq<nat>, ancilla: nat, clauses: seq<seq<int>>, steps: int, j: nat)
    requires GroverGates(q, c, ancilla, clauses, steps).Ok? && j < steps
    ensures Oracle(q, c, ancilla, clauses).Ok? && Diffuser(q).Ok?
    ensures Round(q, c, ancilla, clauses) == Oracle(q, c, ancilla, clauses).value + Diffuser(q).value
    ensures var g, b := GroverGates(q, c, ancilla, clauses, steps).value, Round(q, c, ancilla, clauses);
      var at := |q| + 2 + j * |b|;
      at + |b| < |g| && g[at..at + |b|] == b
  {
    var b := Round(q, c, ancilla, clauses);
    var s := StartGrover(q, ancilla);
    assert GroverGates(q, c, ancilla, clauses, steps).value == s + Repeat(b, steps) + [M(q, "result")];
    CopyInFrame(s, b, steps, [M(q, "result")], j);
  }

  /** Copy j of `b` inside `s + Repeat(b, n) + m`. */
  lemma CopyInFrame(s: seq<Gate>, b: seq<Gate>, n: nat, m: seq<Gate>, j: nat)
    requires j < n && m != []
    ensures var g, at := s + Repeat(b, n) + m, |s| + j * |b|;
      at + |b| < |g| && g[at..at + |b|] == b
  {
    var rep := Repeat(b, n);
    RepeatAt(b, n, j);
    var off := j * |b|;
    assert (s + rep + m)[..|s| + |rep|] == s + rep;
    assert (s + rep)[|s| + off..|s| + off + |b|] == rep[off..off + |b|];
  }

  /** The Grover circuit starts with start_grover and ends with the measurement of q into 'result'. */
  lemma GroverEnds(q: seq<nat>, c: seq<nat>, ancilla: nat, clauses: seq<seq<int>>, steps: int)
    requires GroverGates(q, c, ancilla, clauses, steps).Ok?
    ensures var g := GroverGates(q, c, ancilla, clauses, steps).value;
      |g| >= |q| + 3 && g[..|q| + 2] == StartGrover(q, ancilla) && g[|g| - 1] == M(q, "result")
  {
    var g := GroverGates(q, c, ancilla, clauses, steps).value;
    var s := StartGrover(q, ancilla);
    StartGroverShape(q, ancilla);
    if steps <= 0 {
      assert g == s + [M(q, "result")];
    } else {
      var rep := Repeat(Round(q, c, ancilla, clauses), steps);
      assert g == s + rep + [M(q, "result")];
      assert g[..|q| + 2] == s;
    }
  }

  // ---------------------------------------------------------------------
  // all indices of the Grover circuit lie inside create_qc's circuit
  // ---------------------------------------------------------------------

  lemma {:induction false} RepeatInRange(b: seq<Gate>, n: nat, width: nat)
    requires AllInRange(b, width)
    ensures AllInRange(Repeat(b, n), width)
  {
    if n > 0 {
      RepeatInRange(b, n - 1, width);
      var prev := Repeat(b, n - 1);
      assert Repeat(b, n) == prev + b;
    }
  }

  lemma {:induction false} PairsInRange(q: seq<nat>, width: nat)
    requires forall i :: 0 <= i < |q| ==> q[i] < width
    ensures AllInRange(HAll(q), width) && AllInRange(HX(q), width) && AllInRange(XH(q), width)
  {
    if q != [] {
      PairsInRange(q[1..], width);
      assert HAll(q) == [H(q[0])] + HAll(q[1..]);
      assert HX(q) == [H(q[0]), X(q[0])] + HX(q[1..]);
      assert XH(q) == [X(q[0]), H(q[0])] + XH(q[1..]);
    }
  }

  lemma {:induction false} BlocksInRange(l: Registers, clauses: seq<seq<int>>, k: nat)
    requires OracleResolves(l.q, l.c, clauses) && k <= |clauses|
    requires forall i :: 0 <= i < |l.q| ==> l.q[i] < l.width
    requires forall i :: 0 <= i < |l.c| ==> l.c[i] < l.width
    ensures AllInRange(Blocks(l.q, l.c, clauses, k), l.width)
    decreases |clauses| - k
  {
    if k < |clauses| {
      BlocksInRange(l, clauses, k + 1);
      var qs := ClauseQubits(l.q, clauses[k]);
      assert forall i :: 0 <= i < 3 ==> qs[i] < l.width;
    }
  }

  /**
   * With the registers of `create_qc(n, m)`, every gate that `grover` adds
   * acts on qubits of the circuit of n + m + 1 qubits.
   */
  lemma GroverInRange(n: nat, m: nat, clauses: seq<seq<int>>, steps: int)
    requires GroverGates(Layout(n, m).q, Layout(n, m).c, Layout(n, m).ancilla, clauses, steps).Ok?
    ensures var l := Layout(n, m);
      AllInRange(GroverGates(l.q, l.c, l.ancilla, clauses, steps).value, l.width)
  {
    var l := Layout(n, m);
    var s := StartGrover(l.q, l.ancilla);
    var meas := [M(l.q, "result")];
    PairsInRange(l.q, l.width);
    assert AllInRange(s, l.width);
    assert AllInRange(meas, l.width);
    if steps > 0 {
      var half := Blocks(l.q, l.c, clauses, 0);
      BlocksInRange(l, clauses, 0);
      var o := Oracle(l.q, l.c, l.ancilla, clauses).value;
      assert o == half + [MCX(l.ancilla, l.c)] + half;
      assert AllInRange(o, l.width);
      var d := Diffuser(l.q).value;
      assert AllInRange(d, l.width);
      assert Round(l.q, l.c, l.ancilla, clauses) == o + d;
      RepeatInRange(o + d, steps, l.width);
      var rep := Repeat(o + d, steps);
      assert GroverGates(l.q, l.c, l.ancilla, clauses, steps).value == s + rep + meas;
    } else {
      assert GroverGates(l.q, l.c, l.ancilla, clauses, steps).value == s + meas;
    }
  }
}
