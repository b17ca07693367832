/** The pieces of a noisy trajectory: the Pauli operations the plugin builds, the
    noise drawn after one gate, and how those injections interleave with the
    original operations. */
module Noise {
  import opened DataModel
  import opened Randomness

  /** `make_pauli_op`: a gate operation labelled with a Pauli string. The string
      must have one letter per qubit. */
  function MakePauliOp(pauli: string, qbits: seq<int>): (op: Op)
    requires |pauli| == |qbits|
    ensures op.kind == GateType && op.gate == pauli && op.qbits == qbits
  {
    Op(pauli, qbits, GateType)
  }

  /** The labels a 1-qubit error is drawn from (the identity is never drawn). */
  const OneQubitPaulis: seq<string> := ["X", "Y", "Z"]

  const PauliLetters: string := "IXYZ"

  /** All two-letter Pauli strings, in the order of `product("IXYZ", repeat=2)`. */
  function PauliPairs(): (pairs: seq<string>)
    ensures |pairs| == 16
  {
    seq(16, k requires 0 <= k < 16 => [PauliLetters[k / 4], PauliLetters[k % 4]])
  }

  /** The strings of `ss` other than "II", in their order. */
  function WithoutIdentity(ss: seq<string>): (r: seq<string>)
  {
    if ss == [] then []
    else (if ss[0] != "II" then [ss[0]] else []) + WithoutIdentity(ss[1..])
  }

  /** The error labels a 2-qubit error is drawn from. */
  function TwoQubitPaulis(): (paulis: seq<string>)
    ensures |paulis| == 15
    ensures forall s :: s in paulis ==> |s| == 2
  {
    DropIdentityPair();
    WithoutIdentity(PauliPairs())
  }

  lemma {:induction false} WithoutIdentityKeeps(ss: seq<string>)
    requires "II" !in ss
    ensures WithoutIdentity(ss) == ss
  {
    if ss != [] {
      WithoutIdentityKeeps(ss[1..]);
    }
  }

  /** The position of a letter in "IXYZ". */
  function LetterIndex(c: char): (k: nat)
    requires c in PauliLetters
    ensures k < 4 && PauliLetters[k] == c
  {
    if c == 'I' then 0 else if c == 'X' then 1 else if c == 'Y' then 2 else 3
  }

  /** The position of a two-letter Pauli string in the product. */
  function PairIndex(s: string): nat
    requires |s| == 2 && s[0] in PauliLetters && s[1] in PauliLetters
  {
    4 * LetterIndex(s[0]) + LetterIndex(s[1])
  }

  /** Each pair of the product is recovered from its position. */
  lemma PauliPairsIndexed(k: nat)
    requires k < 16
    ensures PauliPairs()[k] == [PauliLetters[k / 4], PauliLetters[k % 4]]
    ensures PairIndex(PauliPairs()[k]) == k
  {
    var pairs := PauliPairs();
    assert pairs[k] == [PauliLetters[k / 4], PauliLetters[k % 4]];
    forall a | 0 <= a < 4 ensures LetterIndex(PauliLetters[a]) == a { }
  }

  /** "II" comes first in the product, so filtering it drops the head only. */
  lemma DropIdentityPair()
    ensures WithoutIdentity(PauliPairs()) == PauliPairs()[1..]
  {
    var pairs := PauliPairs();
    PauliPairsIndexed(0);
    assert pairs[0] == "II";
    forall s | s in pairs[1..] ensures s != "II" {
      var k :| 1 <= k < 16 && pairs[k] == s;
      PauliPairsIndexed(k);
    }
    WithoutIdentityKeeps(pairs[1..]);
  }

  /** Every listed label is a two-letter Pauli string other than "II". */
  lemma TwoQubitPaulisSound(s: string)
    requires s in TwoQubitPaulis()
    ensures |s| == 2 && s[0] in PauliLetters && s[1] in PauliLetters && s != "II"
  {
    var pairs := PauliPairs();
    DropIdentityPair();
    var k :| 1 <= k < 16 && pairs[k] == s;
    PauliPairsIndexed(k);
  }

  /** Where a two-letter Pauli string sits in the product. */
  lemma PauliPairsLocate(s: string) returns (k: nat)
    requires |s| == 2 && s[0] in PauliLetters && s[1] in PauliLetters
    ensures k < 16 && PauliPairs()[k] == s
    ensures k == 0 <==> s == "II"
  {
    var a, b := LetterIndex(s[0]), LetterIndex(s[1]);
    k := 4 * a + b;
    assert k / 4 == a && k % 4 == b;
    PauliPairsIndexed(k);
    assert s == [s[0], s[1]];
  }

  /** Every two-letter Pauli string other than "II" is listed. */
  lemma TwoQubitPaulisComplete(s: string)
    requires |s| == 2 && s[0] in PauliLetters && s[1] in PauliLetters && s != "II"
    ensures s in TwoQubitPaulis()
  {
    var k := PauliPairsLocate(s);
    DropIdentityPair();
    assert TwoQubitPaulis()[k - 1] == s;
  }

  /** No pair of the product appears twice. */
  lemma PauliPairsDistinct(a: nat, b: nat)
    requires a < b < 16
    ensures PauliPairs()[a] != PauliPairs()[b]
  {
    PauliPairsIndexed(a);
    PauliPairsIndexed(b);
  }

  /** No label is listed twice. */
  lemma TwoQubitPaulisDistinct(i: nat, j: nat)
    requires i < j < 15
    ensures TwoQubitPaulis()[i] != TwoQubitPaulis()[j]
  {
    DropIdentityPair();
    PauliPairsDistinct(i + 1, j + 1);
  }

  /** The error one letter of a drawn Pauli string places on qubit `q`: none for I. */
  function Factor(letter: char, q: int): seq<Op>
  {
    if letter != 'I' then [MakePauliOp([letter], [q])] else []
  }

  /** The single-qubit errors a drawn Pauli string `pauli` places on `qbits`: one
      operation per letter other than I, on the qubit at the same position (the
      pairs of `zip(pauli, qbits)`). */
  function PauliFactors(pauli: string, qbits: seq<int>): (ops: seq<Op>)
    requires |pauli| <= |qbits|
  {
    if pauli == [] then []
    else
      var n := |pauli| - 1;
      PauliFactors(pauli[..n], qbits) + Factor(pauli[n], qbits[n])
  }

  /** A 1-qubit Pauli error X, Y or Z on qubit `q`. */
  predicate IsPauliError(o: Op, q: int)
  {
    o.kind == GateType && o.qbits == [q] && o.gate in OneQubitPaulis
  }

  /** The errors that may follow `op` in a trajectory: at most one 1-qubit error on
      the qubit of a 1-qubit gate; after a 2-qubit gate either nothing, or one or
      two 1-qubit errors, each on the qubit at its position in the gate; nothing
      after any other operation. */
  predicate WellShaped(op: Op, injected: seq<Op>)
  {
    if |op.qbits| == 1 then
      |injected| <= 1 && (|injected| == 1 ==> IsPauliError(injected[0], op.qbits[0]))
    else if |op.qbits| == 2 then
      injected == [] ||
      (|injected| == 1 &&
        (IsPauliError(injected[0], op.qbits[0]) || IsPauliError(injected[0], op.qbits[1]))) ||
      (|injected| == 2 &&
        IsPauliError(injected[0], op.qbits[0]) && IsPauliError(injected[1], op.qbits[1]))
    else
      injected == []
  }

  /** The errors a drawn 2-qubit label places, written out letter by letter. */
  lemma PauliFactorsOfPair(pauli: string, qbits: seq<int>)
    requires |pauli| == 2 == |qbits|
    ensures PauliFactors(pauli, qbits) == Factor(pauli[0], qbits[0]) + Factor(pauli[1], qbits[1])
  {
    var one := pauli[..1];
    assert one[..0] == [];
    assert PauliFactors(one, qbits) == Factor(pauli[0], qbits[0]);
    assert pauli[..1] == one;
  }

  /** A drawn 2-qubit label yields one or two errors of the allowed shape. */
  lemma PauliFactorsShape(pauli: string, op: Op)
    requires pauli in TwoQubitPaulis() && |op.qbits| == 2
    ensures 1 <= |PauliFactors(pauli, op.qbits)| <= 2
    ensures WellShaped(op, PauliFactors(pauli, op.qbits))
  {
    TwoQubitPaulisSound(pauli);
    PairFactorsShape(pauli, op);
  }

  /** The errors placed by a two-letter Pauli string other than "II", letter by
      letter: at least one letter is not I. */
  lemma PairFactorsShape(pauli: string, op: Op)
    requires |pauli| == 2 && pauli[0] in PauliLetters && pauli[1] in PauliLetters && pauli != "II"
    requires |op.qbits| == 2
    ensures 1 <= |PauliFactors(pauli, op.qbits)| <= 2
    ensures WellShaped(op, PauliFactors(pauli, op.qbits))
  {
    var qbits := op.qbits;
    PauliFactorsOfPair(pauli, qbits);
    assert pauli[0] != 'I' || pauli[1] != 'I' by {
      assert pauli == [pauli[0], pauli[1]];
    }
    var f0, f1 := Factor(pauli[0], qbits[0]), Factor(pauli[1], qbits[1]);
    FactorShape(pauli[0], qbits[0]);
    FactorShape(pauli[1], qbits[1]);
    if pauli[0] == 'I' {
      assert PauliFactors(pauli, qbits) == f1;
    } else if pauli[1] == 'I' {
      assert PauliFactors(pauli, qbits) == f0;
    } else {
      assert PauliFactors(pauli, qbits) == [f0[0], f1[0]];
    }
  }

  /** One letter places no error for I and one Pauli error otherwise. */
  lemma FactorShape(letter: char, q: int)
    requires letter in PauliLetters
    ensures letter == 'I' ==> Factor(letter, q) == []
    ensures letter != 'I' ==> |Factor(letter, q)| == 1 && IsPauliError(Factor(letter, q)[0], q)
  {
    if letter != 'I' {
      var k := LetterIndex(letter);
      assert [letter] == OneQubitPaulis[k - 1];
    }
  }

  /** The errors injected after one operation, and the stream position after the
      draws they took. */
  datatype Injection = Injection(ops: seq<Op>, next: nat)

  /** What one pass of the replay loop adds after `op`, reading the stream from
      `pos`: a 1-qubit gate draws a trigger and, when it is below `p1`, a label
      among X, Y, Z; a 2-qubit gate draws a trigger and, when it is below `p2`, a
      non-identity 2-qubit label; any other operation draws nothing. */
  function InjectAfter(op: Op, p1: real, p2: real, s: Stream, pos: nat): (inj: Injection)
    ensures pos <= inj.next <= pos + 2
  {
    if |op.qbits| == 1 then
      if s(pos) < p1 then
        Injection([MakePauliOp(OneQubitPaulis[Pick(s(pos + 1), 3)], op.qbits)], pos + 2)
      else Injection([], pos + 1)
    else if |op.qbits| == 2 then
      if s(pos) < p2 then
        Injection(PauliFactors(DrawnPair(s(pos + 1)), op.qbits), pos + 2)
      else Injection([], pos + 1)
    else Injection([], pos)
  }

  /** The 2-qubit label the draw `u` selects. */
  function DrawnPair(u: Draw): (pauli: string)
    ensures pauli in TwoQubitPaulis() && |pauli| == 2
  {
    TwoQubitPaulis()[Pick(u, 15)]
  }

  /** The fired 2-qubit case of `InjectAfter`, stated on its own. */
  lemma InjectAfterTwoFired(op: Op, p1: real, p2: real, s: Stream, pos: nat)
    requires |op.qbits| == 2 && s(pos) < p2
    ensures InjectAfter(op, p1, p2, s, pos)
      == Injection(PauliFactors(DrawnPair(s(pos + 1)), op.qbits), pos + 2)
  {
  }

  /** The injected errors always have the allowed shape; a probability of 0 never
      fires; a probability of 1 always fires; at most two draws are consumed. */
  lemma InjectAfterShape(op: Op, p1: real, p2: real, s: Stream, pos: nat)
    ensures WellShaped(op, InjectAfter(op, p1, p2, s, pos).ops)
    ensures pos <= InjectAfter(op, p1, p2, s, pos).next <= pos + 2
    ensures |op.qbits| == 1 && p1 <= 0.0 ==> InjectAfter(op, p1, p2, s, pos).ops == []
    ensures |op.qbits| == 2 && p2 <= 0.0 ==> InjectAfter(op, p1, p2, s, pos).ops == []
    ensures |op.qbits| == 1 && p1 >= 1.0 ==> |InjectAfter(op, p1, p2, s, pos).ops| == 1
    ensures |op.qbits| == 2 && p2 >= 1.0 ==> |InjectAfter(op, p1, p2, s, pos).ops| >= 1
  {
    if |op.qbits| == 2 && s(pos) < p2 {
      PauliFactorsShape(DrawnPair(s(pos + 1)), op);
    }
  }

  /** The errors injected after each operation of a replayed list, and the stream
      position once the whole list has been replayed. */
  datatype Noisy = Noisy(noise: seq<seq<Op>>, next: nat)

  /** Replays `ops` in order from stream position `pos`, drawing the errors that
      follow each operation. */
  function NoiseList(ops: seq<Op>, p1: real, p2: real, s: Stream, pos: nat): (t: Noisy)
    ensures |t.noise| == |ops| && t.next >= pos
  {
    if ops == [] then Noisy([], pos)
    else
      var prev := NoiseList(ops[..|ops| - 1], p1, p2, s, pos);
      var inj := InjectAfter(ops[|ops| - 1], p1, p2, s, prev.next);
      Noisy(prev.noise + [inj.ops], inj.next)
  }

  /** The noise drawn for `ops[i]` has the allowed shape and respects the two
      probabilities: none at probability 0, exactly one error after a 1-qubit gate
      and at least one after a 2-qubit gate at probability 1. */
  predicate Admissible(op: Op, injected: seq<Op>, p1: real, p2: real)
  {
    WellShaped(op, injected) &&
    (|op.qbits| == 1 && p1 <= 0.0 ==> injected == []) &&
    (|op.qbits| == 2 && p2 <= 0.0 ==> injected == []) &&
    (|op.qbits| == 1 && p1 >= 1.0 ==> |injected| == 1) &&
    (|op.qbits| == 2 && p2 >= 1.0 ==> |injected| >= 1)
  }

  /** Every operation of a replayed list is followed by admissible noise. */
  lemma {:induction false} NoiseListAdmissible(ops: seq<Op>, p1: real, p2: real, s: Stream, pos: nat)
    ensures forall i :: 0 <= i < |ops| ==>
      Admissible(ops[i], NoiseList(ops, p1, p2, s, pos).noise[i], p1, p2)
  {
    if ops != [] {
      var n := |ops| - 1;
      NoiseListAdmissible(ops[..n], p1, p2, s, pos);
      var prev := NoiseList(ops[..n], p1, p2, s, pos);
      InjectAfterShape(ops[n], p1, p2, s, prev.next);
    }
  }

  /** Replaying one more operation extends the drawn noise by what is drawn after
      it, from where the shorter replay stopped. */
  lemma NoiseListStep(ops: seq<Op>, p1: real, p2: real, s: Stream, pos: nat, i: nat)
    requires i < |ops|
    ensures var prev := NoiseList(ops[..i], p1, p2, s, pos);
      var inj := InjectAfter(ops[i], p1, p2, s, prev.next);
      NoiseList(ops[..i + 1], p1, p2, s, pos) == Noisy(prev.noise + [inj.ops], inj.next)
  {
    assert ops[..i + 1][..i] == ops[..i];
  }

  /** The trajectory's operation list: each original operation followed by the
      errors injected after it. */
  function Interleave(ops: seq<Op>, noise: seq<seq<Op>>): (flat: seq<Op>)
    requires |noise| == |ops|
  {
    if ops == [] then []
    else
      var n := |ops| - 1;
      Interleave(ops[..n], noise[..n]) + [ops[n]] + noise[n]
  }

  /** How many errors follow each operation. */
  function Counts(noise: seq<seq<Op>>): (counts: seq<nat>)
    ensures |counts| == |noise|
    ensures forall i :: 0 <= i < |noise| ==> counts[i] == |noise[i]|
  {
    seq(|noise|, i requires 0 <= i < |noise| => |noise[i]|)
  }

  /** Deletes the injected operations from a trajectory, knowing that `counts[i]`
      of them follow the i-th original operation. */
  function Erase(flat: seq<Op>, counts: seq<nat>): seq<Op>
  {
    if counts == [] then []
    else
      var c := counts[|counts| - 1];
      if |flat| < c + 1 then []
      else Erase(flat[..|flat| - c - 1], counts[..|counts| - 1]) + [flat[|flat| - c - 1]]
  }

  /** Deleting the injected errors gives back the original operations, in order. */
  lemma {:induction false} EraseInterleave(ops: seq<Op>, noise: seq<seq<Op>>)
    requires |noise| == |ops|
    ensures Erase(Interleave(ops, noise), Counts(noise)) == ops
  {
    if ops != [] {
      var n := |ops| - 1;
      EraseInterleave(ops[..n], noise[..n]);
      var before := Interleave(ops[..n], noise[..n]);
      assert Interleave(ops, noise) == before + [ops[n]] + noise[n];
      assert Counts(noise) == Counts(noise[..n]) + [|noise[n]|];
      EraseAppend(before, ops[n], noise[n], Counts(noise[..n]));
      assert ops == ops[..n] + [ops[n]];
    }
  }

  /** Erasing the last operation's errors leaves the operation itself. */
  lemma EraseAppend(before: seq<Op>, op: Op, injected: seq<Op>, counts: seq<nat>)
    ensures Erase(before + [op] + injected, counts + [|injected|]) == Erase(before, counts) + [op]
  {
    var flat, extended := before + [op] + injected, counts + [|injected|];
    assert extended[|counts|] == |injected| && extended[..|counts|] == counts;
    assert |flat| - |injected| - 1 == |before|;
    assert flat[..|before|] == before && flat[|before|] == op;
    assert Erase(flat, extended) == Erase(flat[..|before|], extended[..|counts|]) + [flat[|before|]];
  }

  /** Interleaving one more operation appends it and the errors after it. */
  lemma InterleaveStep(ops: seq<Op>, noise: seq<seq<Op>>, i: nat, injected: seq<Op>)
    requires i < |ops| && |noise| == i
    ensures Interleave(ops[..i + 1], noise + [injected])
      == Interleave(ops[..i], noise) + [ops[i]] + injected
  {
    assert ops[..i + 1] == ops[..i] + [ops[i]];
    InterleaveAppend(ops[..i], noise, ops[i], injected);
  }

  /** `Interleave` of a list with one more operation at its end. */
  lemma InterleaveAppend(ops: seq<Op>, noise: seq<seq<Op>>, op: Op, injected: seq<Op>)
    requires |noise| == |ops|
    ensures Interleave(ops + [op], noise + [injected]) == Interleave(ops, noise) + [op] + injected
  {
    var longer, extended := ops + [op], noise + [injected];
    assert longer[..|ops|] == ops && extended[..|ops|] == noise;
  }

  /** With no injected error the trajectory is the original list. */
  lemma {:induction false} InterleaveNothing(ops: seq<Op>, noise: seq<seq<Op>>)
    requires |noise| == |ops|
    requires forall i :: 0 <= i < |noise| ==> noise[i] == []
    ensures Interleave(ops, noise) == ops
  {
    if ops != [] {
      var n := |ops| - 1;
      InterleaveNothing(ops[..n], noise[..n]);
      assert ops == ops[..n] + [ops[n]];
    }
  }

  /** The length of a trajectory: the originals plus every injected error. */
  lemma {:induction false} InterleaveLength(ops: seq<Op>, noise: seq<seq<Op>>)
    requires |noise| == |ops|
    ensures |Interleave(ops, noise)| == |ops| + Total(Counts(noise))
  {
    if ops != [] {
      var n := |ops| - 1;
      InterleaveLength(ops[..n], noise[..n]);
      assert Counts(noise)[..n] == Counts(noise[..n]);
    }
  }

  function Total(counts: seq<nat>): nat
  {
    if counts == [] then 0 else Total(counts[..|counts| - 1]) + counts[|counts| - 1]
  }

  /** The check the replay loop makes on each operation before copying it: only
      gates are allowed, and a gate on more than two qubits must resolve to a
      state preparation (a name missing from the gate dictionary is a lookup
      error). */
  function CheckOp(op: Op, gateDic: map<string, GateDefinition>): Option<PluginError>
  {
    if op.kind != GateType then Some(IllegalGates(op.kind))
    else if |op.qbits| > 2 then
      if op.gate !in gateDic then Some(MissingGate(op.gate))
      else if gateDic[op.gate].syntaxName != "STATE_PREPARATION" then Some(NbQbits(op.qbits))
      else None
    else None
  }

  /** An operation passes the check exactly when it is a gate on at most two
      qubits or a known state preparation. */
  lemma CheckOpAccepts(op: Op, gateDic: map<string, GateDefinition>)
    ensures CheckOp(op, gateDic) == None <==>
      op.kind == GateType &&
      (|op.qbits| <= 2 ||
        (op.gate in gateDic && gateDic[op.gate].syntaxName == "STATE_PREPARATION"))
  {
  }

  /** The position of the first operation that fails the check (|ops| if none). */
  function FirstBad(ops: seq<Op>, gateDic: map<string, GateDefinition>): (k: nat)
    ensures k <= |ops|
    ensures k < |ops| ==> CheckOp(ops[k], gateDic).Some?
  {
    if ops == [] then 0
    else if CheckOp(ops[0], gateDic).Some? then 0
    else 1 + FirstBad(ops[1..], gateDic)
  }

  /** Every operation before the first failing one passes the check. */
  lemma {:induction false} FirstBadPasses(ops: seq<Op>, gateDic: map<string, GateDefinition>)
    ensures forall j :: 0 <= j < FirstBad(ops, gateDic) ==> CheckOp(ops[j], gateDic) == None
  {
    if ops != [] && CheckOp(ops[0], gateDic).None? {
      FirstBadPasses(ops[1..], gateDic);
      forall j | 0 <= j < FirstBad(ops, gateDic) ensures CheckOp(ops[j], gateDic) == None {
        if j > 0 {
          assert ops[j] == ops[1..][j - 1];
        }
      }
    }
  }

  /** When operation `i` fails the check and every earlier one passed, `i` is the
      first failing operation. */
  lemma {:induction false} FirstFailure(ops: seq<Op>, gateDic: map<string, GateDefinition>, i: nat)
    requires i < |ops| && CheckOp(ops[i], gateDic).Some?
    requires forall j :: 0 <= j < i ==> CheckOp(ops[j], gateDic) == None
    ensures FirstBad(ops, gateDic) == i
  {
    if i > 0 {
      assert CheckOp(ops[0], gateDic) == None;
      assert forall j :: 0 <= j < i - 1 ==> ops[1..][j] == ops[j + 1];
      FirstFailure(ops[1..], gateDic, i - 1);
    }
  }

  /** A failing operation at or before the first failure is the first failure. */
  lemma FirstBadAt(ops: seq<Op>, gateDic: map<string, GateDefinition>, i: nat)
    requires i < |ops| && i <= FirstBad(ops, gateDic) && CheckOp(ops[i], gateDic).Some?
    ensures FirstBad(ops, gateDic) == i
  {
    FirstBadPasses(ops, gateDic);
  }

  /** A passing operation at or before the first failure lies before it. */
  lemma FirstBadBeyond(ops: seq<Op>, gateDic: map<string, GateDefinition>, i: nat)
    requires i < |ops| && i <= FirstBad(ops, gateDic) && CheckOp(ops[i], gateDic).None?
    ensures i < FirstBad(ops, gateDic)
  {
  }
}
