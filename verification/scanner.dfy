/** The bytecode scanner of the contract tracer (`findOpcodes` in
    eth/tracers/native/contract.go): does an opcode occur in a piece of EVM
    bytecode as an instruction, as opposed to inside the immediate operand
    of a PUSH instruction?

    The scanner is written once as a pure function (`FindOpcodes`, which
    the tracer uses) and once as the loop of the source (`ScanOpcodes`).
    Both are proved equal to `Occurs`, a definition of "genuine
    occurrence" built from an inductive notion of instruction boundary. */
module Scanner {

  /** One byte of bytecode; Go's `byte` and `vm.OpCode` alike. */
  type Byte = b: int | 0 <= b < 256

  /** Which opcodes carry an immediate operand. The VM's `OpCode.IsPush`
      is not part of this model, so every definition takes it as a
      parameter; `StandardPush` is the usual PUSH1..PUSH32 range. */
  type PushClass = Byte -> bool

  /** PUSH1 (0x60) .. PUSH32 (0x7f). */
  predicate StandardPush(op: Byte) {
    0x60 <= op <= 0x7f
  }

  /** Number of immediate bytes the scanner skips after a push-class
      opcode: the source computes `op - 95` in byte arithmetic, which
      wraps modulo 256, before widening it to `int`. */
  function SkipLength(op: Byte): (n: nat)
    ensures n < 256
    ensures StandardPush(op) ==> 1 <= n <= 32 && n == op - 0x5f
    ensures op == 0x5f ==> n == 0
  {
    (op - 95) % 256
  }

  /** Offset of the instruction that follows the one starting at `i`. */
  function Next(code: seq<Byte>, isPush: PushClass, i: nat): (j: nat)
    requires i < |code|
    ensures i < j <= i + 256
    ensures !isPush(code[i]) ==> j == i + 1
  {
    if isPush(code[i]) then i + 1 + SkipLength(code[i]) else i + 1
  }

  /** Instruction boundaries: offset 0, and the offset following every
      instruction that starts at a boundary inside the code. The last
      boundary may lie beyond the end of the code when a PUSH there is
      truncated. */
  ghost predicate IsBoundary(code: seq<Byte>, isPush: PushClass, p: nat)
    decreases p
  {
    p == 0 ||
    exists q: nat :: q < p && q < |code| && IsBoundary(code, isPush, q) && Next(code, isPush, q) == p
  }

  /** `target` occurs as an instruction of `code`: some boundary inside the
      code holds it, and it is not itself push-class (the source never
      compares a push-class byte against the target). */
  ghost predicate Occurs(code: seq<Byte>, target: Byte, isPush: PushClass) {
    exists p: nat :: p < |code| && IsBoundary(code, isPush, p) && MatchAt(code, target, isPush, p)
  }

  /** The byte at `p` is a non-push instruction equal to `target`. */
  predicate MatchAt(code: seq<Byte>, target: Byte, isPush: PushClass, p: nat)
    requires p < |code|
  {
    !isPush(code[p]) && code[p] == target
  }

  /** The scan of the source, started at offset `i`. */
  function FindFrom(code: seq<Byte>, target: Byte, isPush: PushClass, i: nat): (found: bool)
    ensures found ==> exists p :: i <= p < |code| && MatchAt(code, target, isPush, p)
    decreases |code| - i
  {
    if i >= |code| then false
    else if isPush(code[i]) then FindFrom(code, target, isPush, i + SkipLength(code[i]) + 1)
    else if code[i] == target then assert MatchAt(code, target, isPush, i); true
    else FindFrom(code, target, isPush, i + 1)
  }

  /** `findOpcodes(bytecode, opcode)`. */
  function FindOpcodes(code: seq<Byte>, target: Byte, isPush: PushClass): (found: bool)
    ensures found ==> exists p :: 0 <= p < |code| && code[p] == target
    ensures isPush(target) ==> !found
    ensures |code| == 0 ==> !found
  {
    FindFrom(code, target, isPush, 0)
  }

  /** Two boundaries never lie inside one instruction: the boundary after
      `a` is the next boundary. */
  lemma {:induction false} BoundaryGap(code: seq<Byte>, isPush: PushClass, a: nat, b: nat)
    requires IsBoundary(code, isPush, a) && IsBoundary(code, isPush, b)
    requires a < b && a < |code|
    ensures Next(code, isPush, a) <= b
    decreases b
  {
    var r: nat :| r < b && r < |code| && IsBoundary(code, isPush, r) && Next(code, isPush, r) == b;
    if a < r {
      BoundaryGap(code, isPush, a, r);
    } else if r < a {
      BoundaryGap(code, isPush, r, a);
    }
  }

  /** The instruction after a boundary starts at a boundary. */
  lemma NextIsBoundary(code: seq<Byte>, isPush: PushClass, i: nat)
    requires i < |code| && IsBoundary(code, isPush, i)
    ensures IsBoundary(code, isPush, Next(code, isPush, i))
  {
  }

  /** Started at a boundary, the scan finds exactly the genuine occurrences
      from there on. */
  lemma {:induction false} FindFromCorrect(code: seq<Byte>, target: Byte, isPush: PushClass, i: nat)
    requires IsBoundary(code, isPush, i)
    ensures FindFrom(code, target, isPush, i) <==>
            exists p: nat :: i <= p < |code| && IsBoundary(code, isPush, p) && MatchAt(code, target, isPush, p)
    decreases |code| - i
  {
    if i < |code| {
      var j := Next(code, isPush, i);
      NextIsBoundary(code, isPush, i);
      FindFromCorrect(code, target, isPush, j);
      if exists p: nat :: i <= p < |code| && IsBoundary(code, isPush, p) && MatchAt(code, target, isPush, p) {
        var p: nat :| i <= p < |code| && IsBoundary(code, isPush, p) && MatchAt(code, target, isPush, p);
        if p != i {
          BoundaryGap(code, isPush, i, p);
        }
      }
    }
  }

  /** Scanner correctness: `findOpcodes` answers true exactly when the
      target is a genuine (non-push, instruction-boundary) occurrence. */
  lemma FindOpcodesCorrect(code: seq<Byte>, target: Byte, isPush: PushClass)
    ensures FindOpcodes(code, target, isPush) <==> Occurs(code, target, isPush)
  {
    FindFromCorrect(code, target, isPush, 0);
  }

  /** The loop of `findOpcodes` as written: it terminates, reads only
      inside `code`, and answers whether the target genuinely occurs. */
  method ScanOpcodes(code: seq<Byte>, target: Byte, isPush: PushClass) returns (found: bool)
    ensures found <==> Occurs(code, target, isPush)
    ensures found == FindOpcodes(code, target, isPush)
  {
    FindOpcodesCorrect(code, target, isPush);
    var i: nat := 0;
    while i < |code|
      invariant IsBoundary(code, isPush, i)
      invariant forall p: nat :: p < i && p < |code| && IsBoundary(code, isPush, p) ==> !MatchAt(code, target, isPush, p)
      decreases |code| - i
    {
      var op := code[i];
      ghost var j := Next(code, isPush, i);
      NextIsBoundary(code, isPush, i);
      forall p: nat | i < p < j && p < |code| && IsBoundary(code, isPush, p)
        ensures false
      {
        BoundaryGap(code, isPush, i, p);
      }
      if isPush(op) {
        i := i + SkipLength(op);
      } else if op == target {
        return true;
      }
      i := i + 1;
    }
    return false;
  }

  /** Where the scan started at `i` steps off the end of the code. */
  function WalkEnd(code: seq<Byte>, isPush: PushClass, i: nat): (e: nat)
    ensures i <= e && |code| <= e
    ensures i < |code| ==> e < |code| + 256
    decreases |code| - i
  {
    if i >= |code| then i else WalkEnd(code, isPush, Next(code, isPush, i))
  }

  /** Code whose last instruction is complete: no PUSH operand is cut off. */
  predicate Complete(code: seq<Byte>, isPush: PushClass) {
    WalkEnd(code, isPush, 0) == |code|
  }

  /** Scanning a suffix placed after any prefix gives the same answer. */
  lemma {:induction false} FindFromShift(c1: seq<Byte>, c2: seq<Byte>, target: Byte, isPush: PushClass, k: nat)
    ensures FindFrom(c1 + c2, target, isPush, |c1| + k) == FindFrom(c2, target, isPush, k)
    decreases |c2| - k
  {
    if k < |c2| {
      assert (c1 + c2)[|c1| + k] == c2[k];
      if isPush(c2[k]) {
        FindFromShift(c1, c2, target, isPush, k + SkipLength(c2[k]) + 1);
      } else {
        FindFromShift(c1, c2, target, isPush, k + 1);
      }
    }
  }

  /** Scanning complete code followed by more code is scanning each part. */
  lemma {:induction false} FindFromConcat(c1: seq<Byte>, c2: seq<Byte>, target: Byte, isPush: PushClass, i: nat)
    requires i <= |c1| && WalkEnd(c1, isPush, i) == |c1|
    ensures FindFrom(c1 + c2, target, isPush, i) ==
            (FindFrom(c1, target, isPush, i) || FindFrom(c2, target, isPush, 0))
    decreases |c1| - i
  {
    if i == |c1| {
      FindFromShift(c1, c2, target, isPush, 0);
    } else {
      assert (c1 + c2)[i] == c1[i];
      FindFromConcat(c1, c2, target, isPush, Next(c1, isPush, i));
    }
  }

  /** Concatenation law for `findOpcodes`. */
  lemma FindOpcodesConcat(c1: seq<Byte>, c2: seq<Byte>, target: Byte, isPush: PushClass)
    requires Complete(c1, isPush)
    ensures FindOpcodes(c1 + c2, target, isPush) == (FindOpcodes(c1, target, isPush) || FindOpcodes(c2, target, isPush))
  {
    FindFromConcat(c1, c2, target, isPush, 0);
  }

  /** Push data is never mistaken for code: the immediate bytes of a
      complete PUSH make no difference to the answer, whatever they are. */
  lemma PushImmediatesInvisible(pre: seq<Byte>, op: Byte, imm: seq<Byte>, post: seq<Byte>,
                                target: Byte, isPush: PushClass)
    requires Complete(pre, isPush)
    requires isPush(op) && |imm| == SkipLength(op)
    ensures FindOpcodes(pre + [op] + imm + post, target, isPush) ==
            (FindOpcodes(pre, target, isPush) || FindOpcodes(post, target, isPush))
  {
    var push := [op] + imm;
    assert pre + [op] + imm + post == pre + (push + post);
    FindOpcodesConcat(pre, push + post, target, isPush);
    FindFromShift(push, post, target, isPush, 0);
    assert (push + post)[0] == op;
  }

  /** A PUSH cut off by the end of the code hides its remaining bytes too,
      and the scan stops without reading past the end. */
  lemma TruncatedPushInvisible(pre: seq<Byte>, op: Byte, imm: seq<Byte>, target: Byte, isPush: PushClass)
    requires Complete(pre, isPush)
    requires isPush(op) && |imm| <= SkipLength(op)
    ensures FindOpcodes(pre + [op] + imm, target, isPush) == FindOpcodes(pre, target, isPush)
  {
    assert pre + [op] + imm == pre + ([op] + imm);
    FindOpcodesConcat(pre, [op] + imm, target, isPush);
  }

  /** A non-push target placed at an instruction boundary is found. */
  lemma GenuineOccurrenceFound(pre: seq<Byte>, target: Byte, post: seq<Byte>, isPush: PushClass)
    requires Complete(pre, isPush) && !isPush(target)
    ensures FindOpcodes(pre + [target] + post, target, isPush)
  {
    assert pre + [target] + post == pre + ([target] + post);
    FindOpcodesConcat(pre, [target] + post, target, isPush);
  }
}
