// The code the compiler emits, decoded into a list of instructions: when it can be
// encoded again without loss.
module CompiledLists {
  import opened Wrappers
  import opened Bytecode
  import opened Syntax
  import opened CodeGen
  import opened Machine
  import opened MonitorFlow
  import I = Instructions

  /** The interpreter and the size table agree on what the compiler emits. */
  lemma SameSize(op: Byte)
    requires Emitted(op)
    ensures Width(op) == I.Size(op) && I.Known(op) && op != OP_INITIALIZE_ARRAY
  {
  }

  lemma InLineAt(code: seq<Byte>, labels: Labels, pc: nat)
    requires Labelled(code, labels) && pc < |code| && labels[pc].Some?
    ensures Whole(code, pc) && InLine(code, labels, pc)
  {
    hide Succs, InLine;
    assert EdgesOk(code, labels, pc);
  }

  /** `starts` are the labelled positions from pc on. */
  ghost predicate Finds(labels: Labels, pc: nat, starts: seq<nat>) {
    && (forall t | t in starts :: pc <= t < |labels| && labels[t].Some?)
    && forall t: nat | pc <= t < |labels| && labels[t].Some? :: t in starts
  }

  lemma FindsMore(labels: Labels, pc: nat, next: nat, rest: seq<nat>)
    requires pc < next <= |labels| && labels[pc].Some? && Finds(labels, next, rest)
    requires forall t: nat | pc < t < next :: labels[t].None?
    ensures Finds(labels, pc, [pc] + rest)
  {
  }

  /** Decoding finds the instructions that have labels, and no others. */
  lemma {:induction false} ScanLabelled(code: seq<Byte>, labels: Labels, pc: nat)
    requires Labelled(code, labels) && pc < |code| && labels[pc].Some?
    ensures I.Scan(code, pc).Some? && Finds(labels, pc, I.Scan(code, pc).value)
    decreases |code| - pc
  {
    InLineAt(code, labels, pc);
    SameSize(code[pc]);
    I.ScanStep(code, pc);
    hide Labelled, Emitted, Finds, Width, I.Scan, I.Size, I.Known;
    var next := if code[pc] == OP_EOF then |code| else pc + Width(code[pc]);
    if code[pc] == OP_EOF {
      NothingBehind(labels);
      FindsMore(labels, pc, next, []);
    } else {
      ScanLabelled(code, labels, next);
      FindsMore(labels, pc, next, I.Scan(code, next).value);
    }
  }

  lemma NothingBehind(labels: Labels)
    ensures Finds(labels, |labels|, [])
  {
  }

  /** No more than 32 forward jumps lead to the same instruction. */
  ghost predicate FewJumps(code: seq<Byte>, starts: seq<nat>)
    requires I.InCode(code, starts)
  {
    forall k: nat | k < |starts| && I.IsForward(code[starts[k]]) ::
      I.Rank(code, starts, k, I.JumpTo(code, starts[k])) < I.MAX_JUMPS_TO_ONE
  }

  lemma {:induction false} Found(starts: seq<nat>, x: nat)
    requires x in starts
    ensures I.IndexOf(starts, x).Some?
  {
    if starts[|starts| - 1] != x {
      assert starts == starts[..|starts| - 1] + [starts[|starts| - 1]];
      Found(starts[..|starts| - 1], x);
    }
  }

  lemma {:induction false} Rising(code: seq<Byte>, starts: seq<nat>, i: nat, j: nat)
    requires I.InCode(code, starts) && i < j < |starts|
    ensures starts[i] < starts[j]
    decreases j
  {
    assert starts[j - 1 + 1] == starts[j - 1] + I.Size(code[starts[j - 1]]);
    if i < j - 1 {
      Rising(code, starts, i, j - 1);
    }
  }

  /** A jump leads to an instruction; a loop to one before it. */
  lemma JumpLabelled(code: seq<Byte>, labels: Labels, at: nat)
    requires Labelled(code, labels) && at < |code| && labels[at].Some? && I.IsJump(code[at])
    ensures at + 3 <= |code| && 0 <= I.JumpTo(code, at) < |code| && labels[I.JumpTo(code, at)].Some?
    ensures code[at] == OP_LOOP ==> I.JumpTo(code, at) <= at
  {
    InLineAt(code, labels, at);
    assert EdgesOk(code, labels, at);
    assert Width(code[at]) == 3;
    assert I.JumpTo(code, at) in Succs(code, at);
    hide Labelled, Emitted;
  }

  /** What a jump of labelled code is resolved to. */
  lemma JumpResolved(code: seq<Byte>, labels: Labels, starts: seq<nat>, k: nat)
    requires Labelled(code, labels) && I.Scan(code, 0) == Some(starts) && I.InCode(code, starts)
    requires k < |starts| && I.IsJump(code[starts[k]])
    ensures I.Resolve(code, starts, k).Some? <==>
              (I.IsForward(code[starts[k]]) ==> I.Rank(code, starts, k, I.JumpTo(code, starts[k])) < I.MAX_JUMPS_TO_ONE)
  {
    var at := starts[k];
    ScanLabelled(code, labels, 0);
    assert at in starts;
    JumpLabelled(code, labels, at);
    var x := I.JumpTo(code, at);
    assert x in starts;
    Found(starts, x);
    if code[at] == OP_LOOP {
      var j: nat :| j < |starts| && starts[j] == x;
      if k < j { Rising(code, starts, k, j); }
      assert starts[..k + 1][j] == x;
      Found(starts[..k + 1], x);
    }
    hide Labelled, I.Scan, I.InCode, I.Rank, I.JumpTo, I.IndexOf;
  }

  /** Labelled code is decoded into a list that stands for it exactly when no more
      than 32 forward jumps share a target. */
  lemma LabelledDecodes(code: seq<Byte>, labels: Labels)
    requires Labelled(code, labels)
    ensures I.Scan(code, 0).Some? && I.InCode(code, I.Scan(code, 0).value)
    ensures I.WellFormed(code) <==> FewJumps(code, I.Scan(code, 0).value)
  {
    ScanLabelled(code, labels, 0);
    I.ScanInCode(code, 0);
    var starts := I.Scan(code, 0).value;
    hide Labelled, Finds, InLine, I.Scan, I.InCode, I.IsForward, I.Rank, I.JumpTo, I.Resolve, Emitted, Width;
    forall k: nat | k < |starts|
      ensures starts[k] < |code| && code[starts[k]] != OP_INITIALIZE_ARRAY
    {
      NoArray(code, labels, starts, k);
    }
    forall k: nat | k < |starts| && I.IsJump(code[starts[k]])
      ensures I.Resolve(code, starts, k).Some? <==>
              (I.IsForward(code[starts[k]]) ==> I.Rank(code, starts, k, I.JumpTo(code, starts[k])) < I.MAX_JUMPS_TO_ONE)
    {
      JumpResolved(code, labels, starts, k);
    }
    Conclude(code, starts);
  }

  lemma NoArray(code: seq<Byte>, labels: Labels, starts: seq<nat>, k: nat)
    requires Labelled(code, labels) && Finds(labels, 0, starts) && k < |starts|
    ensures starts[k] < |code| && code[starts[k]] != OP_INITIALIZE_ARRAY
  {
    assert starts[k] in starts;
    InLineAt(code, labels, starts[k]);
    SameSize(code[starts[k]]);
  }

  lemma Conclude(code: seq<Byte>, starts: seq<nat>)
    requires I.Scan(code, 0) == Some(starts) && I.InCode(code, starts)
    requires forall k: nat | k < |starts| :: code[starts[k]] != OP_INITIALIZE_ARRAY
    requires forall k: nat | k < |starts| && I.IsJump(code[starts[k]]) ::
               I.Resolve(code, starts, k).Some? <==>
               (I.IsForward(code[starts[k]]) ==> I.Rank(code, starts, k, I.JumpTo(code, starts[k])) < I.MAX_JUMPS_TO_ONE)
    ensures I.WellFormed(code) <==> FewJumps(code, starts)
  {
    assert forall k: nat | k < |starts| && I.IsForward(code[starts[k]]) :: I.IsJump(code[starts[k]]);
    hide I.Scan, I.InCode, I.IsForward, I.Rank, I.JumpTo, I.Resolve;
  }

  /** The code of every function can be decoded, and gives the whole code back when it
      is encoded, exactly when no more than 32 forward jumps share a target: those
      beyond lose it. */
  lemma FunDecodes(f: Fun)
    requires GenFun(f).Some? && NearFun(f)
    ensures var code := GenFun(f).value.code;
            && I.Scan(code, 0).Some? && I.InCode(code, I.Scan(code, 0).value)
            && (I.WellFormed(code) <==> FewJumps(code, I.Scan(code, 0).value))
            && (FewJumps(code, I.Scan(code, 0).value) ==>
                  I.Decode(code).Some? && I.Listed(I.Decode(code).value) && I.Encode(I.Decode(code).value) == code)
  {
    hide NearFun, LabFun, Labelled, FewJumps, I.Scan, I.InCode, I.WellFormed, I.Decode, I.Listed, I.Encode;
    FunLabelled(f);
    var code, labels := GenFun(f).value.code, LabFun(f);
    LabelledDecodes(code, labels);
    if I.WellFormed(code) {
      I.CodeRoundTrip(code);
      FunEnd(f);
      EndsOnce(code, labels, |code| - 1);
    }
  }

  lemma FunEnd(f: Fun)
    requires GenFun(f).Some?
    ensures var n := |GenFun(f).value.code|;
            n > 0 && LabFun(f)[n - 1] == Some([]) && GenFun(f).value.code[n - 1] == OP_EOF
  {
    hide GenDecls, LabDecls, GenParams;
  }

  /** Decoding stops at the one end of file that has a label. */
  lemma EndsOnce(code: seq<Byte>, labels: Labels, end: nat)
    requires Labelled(code, labels) && end < |code| && labels[end].Some? && code[end] == OP_EOF
    ensures I.Scan(code, 0).Some? && I.Scan(code, 0).value != []
    ensures var starts := I.Scan(code, 0).value; starts[|starts| - 1] == end
  {
    ScanLabelled(code, labels, 0);
    I.ScanInCode(code, 0);
    var starts := I.Scan(code, 0).value;
    var last := starts[|starts| - 1];
    InLineAt(code, labels, last);
    assert end in starts;
    hide Labelled, I.Scan;
  }

  /** The same of the code of a package, up to its end of file. */
  lemma MainDecodes(ds: seq<Decl>)
    requires GenProgram(ds).Some? && NearDecls(ds, StartCtx(false, []))
    ensures var code := GenProgram(ds).value.main.code;
            && I.Scan(code, 0).Some? && I.InCode(code, I.Scan(code, 0).value)
            && (I.WellFormed(code) <==> FewJumps(code, I.Scan(code, 0).value))
            && (FewJumps(code, I.Scan(code, 0).value) ==>
                  I.Decode(code).Some? && I.Listed(I.Decode(code).value)
                  && I.Encode(I.Decode(code).value) + [OP_NIL, OP_RETURN] == code)
  {
    hide NearDecls, LabDecls, GenDecls, Labelled, FewJumps, I.Scan, I.InCode, I.WellFormed, I.Decode, I.Listed, I.Encode;
    MainLabelled(ds);
    var code, labels := GenProgram(ds).value.main.code, LabMain(ds);
    LabelledDecodes(code, labels);
    if I.WellFormed(code) {
      I.CodeRoundTrip(code);
      EndsOnce(code, labels, |code| - 3);
    }
  }
}
