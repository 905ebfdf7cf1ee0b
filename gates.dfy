/**
 * The gates the Grover 3-SAT example adds to a circuit, and the exact
 * classical meaning of those among them that only permute computational
 * basis states (X, CNOT and multi-controlled X).  A basis state of a
 * register of `w` qubits is a `seq<bool>` of length `w`; `H` and the
 * measurement `M` have no classical meaning here.
 */
module Gates {

  datatype Gate =
    | X(target: nat)                              // gates.X(t)
    | H(target: nat)                              // gates.H(t)
    | CNOT(control: nat, target: nat)             // gates.CNOT(c, t)
    | MCX(target: nat, controls: seq<nat>)        // gates.X(t).controlled_by(*controls)
    | M(qubits: seq<nat>, register: string)       // gates.M(*qubits, register_name=register)

  /** Every qubit the gate touches, controls included, lies below `width`. */
  predicate InRange(g: Gate, width: nat)
  {
    match g
    case X(t) => t < width
    case H(t) => t < width
    case CNOT(c, t) => c < width && t < width
    case MCX(t, cs) => t < width && forall i :: 0 <= i < |cs| ==> cs[i] < width
    case M(qs, _) => forall i :: 0 <= i < |qs| ==> qs[i] < width
  }

  predicate AllInRange(gs: seq<Gate>, width: nat)
  {
    forall i :: 0 <= i < |gs| ==> InRange(gs[i], width)
  }

  /** A gate that maps basis states to basis states. */
  predicate IsClassical(g: Gate)
  {
    g.X? || g.CNOT? || g.MCX?
  }

  predicate Runnable(gs: seq<Gate>, width: nat)
  {
    forall i :: 0 <= i < |gs| ==> IsClassical(gs[i]) && InRange(gs[i], width)
  }

  /** All the listed qubits are |1>. */
  predicate AllOn(s: seq<bool>, cs: seq<nat>)
    requires forall i :: 0 <= i < |cs| ==> cs[i] < |s|
  {
    forall i :: 0 <= i < |cs| ==> s[cs[i]]
  }

  /** The basis state a classical gate sends `s` to. */
  function Apply(g: Gate, s: seq<bool>): (r: seq<bool>)
    requires IsClassical(g) && InRange(g, |s|)
    ensures |r| == |s|
    ensures forall i :: 0 <= i < |s| && i != g.target ==> r[i] == s[i]
    ensures g.X? ==> r[g.target] == !s[g.target]
    ensures g.CNOT? ==> r[g.target] == (s[g.target] != s[g.control])
    ensures g.MCX? ==> r[g.target] == (s[g.target] != AllOn(s, g.controls))
  {
    match g
    case X(t) => s[t := !s[t]]
    case CNOT(c, t) => s[t := s[t] != s[c]]
    case MCX(t, cs) => if AllOn(s, cs) then s[t := !s[t]] else s
  }

  /** The basis state a run of classical gates sends `s` to. */
  function Run(gs: seq<Gate>, s: seq<bool>): (r: seq<bool>)
    requires Runnable(gs, |s|)
    ensures |r| == |s|
    decreases |gs|
  {
    if gs == [] then s else Run(gs[1..], Apply(gs[0], s))
  }

  /** Running a single gate applies it. */
  lemma RunOne(g: Gate, s: seq<bool>)
    requires IsClassical(g) && InRange(g, |s|)
    ensures Runnable([g], |s|)
    ensures Run([g], s) == Apply(g, s)
  {
    assert [g][1..] == [];
  }

  /** Running a list that starts with `g` applies `g` first. */
  lemma RunCons(g: Gate, gs: seq<Gate>, s: seq<bool>)
    requires IsClassical(g) && InRange(g, |s|) && Runnable(gs, |s|)
    ensures Runnable([g] + gs, |s|)
    ensures Run([g] + gs, s) == Run(gs, Apply(g, s))
  {
    assert ([g] + gs)[1..] == gs;
  }

  /** Running a list that starts with a CNOT updates its target first. */
  lemma RunCnot(c: nat, t: nat, gs: seq<Gate>, s: seq<bool>)
    requires c < |s| && t < |s| && Runnable(gs, |s|)
    ensures Runnable([CNOT(c, t)] + gs, |s|)
    ensures Run([CNOT(c, t)] + gs, s) == Run(gs, s[t := s[t] != s[c]])
  {
    RunCons(CNOT(c, t), gs, s);
  }

  /** Running a single multi-controlled X flips its target when every control is |1>. */
  lemma RunMcx(t: nat, cs: seq<nat>, s: seq<bool>)
    requires t < |s| && forall i :: 0 <= i < |cs| ==> cs[i] < |s|
    ensures Runnable([MCX(t, cs)], |s|)
    ensures Run([MCX(t, cs)], s) == s[t := s[t] != AllOn(s, cs)]
  {
    RunOne(MCX(t, cs), s);
  }

  /** Running two gate lists one after the other runs their concatenation. */
  lemma {:induction false} RunAppend(a: seq<Gate>, b: seq<Gate>, s: seq<bool>)
    requires Runnable(a, |s|) && Runnable(b, |s|)
    ensures Runnable(a + b, |s|)
    ensures Run(a + b, s) == Run(b, Run(a, s))
    decreases |a|
  {
    if a == [] {
      assert a + b == b;
    } else {
      assert (a + b)[1..] == a[1..] + b;
      RunAppend(a[1..], b, Apply(a[0], s));
    }
  }

  /** Running `h`, then `mid`, then `h` again runs `h + mid + h`. */
  lemma RunSandwich(h: seq<Gate>, mid: seq<Gate>, s: seq<bool>)
    requires Runnable(h, |s|) && Runnable(mid, |s|)
    ensures Runnable(h + mid + h, |s|)
    ensures Run(h + mid + h, s) == Run(h, Run(mid, Run(h, s)))
  {
    RunAppend(h, mid, s);
    RunAppend(h + mid, h, s);
  }
}
