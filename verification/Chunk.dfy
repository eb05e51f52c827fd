// The growable byte buffer code is emitted into, and its constants.
module Chunks {
  import opened Wrappers
  import opened Collections
  import opened Bytecode
  import opened CodeGen

  /** A buffer put aside while code is emitted into another one. */
  datatype Context = Context(code: array<Byte>, inUse: nat)

  /** Patching the operand of a jump emitted with a zero distance. */
  lemma Patched(a: seq<Byte>, op: Byte, b: seq<Byte>, d: nat)
    ensures (a + [op, 0, 0] + b)[|a| + 1 := Lo(d)][|a| + 2 := Hi(d)] == a + Jump(op, d) + b
  {
  }

  class Chunk {
    ghost var Contents: seq<Byte>  // the bytes emitted so far
    var code: array<Byte>          // its length is the capacity
    var inUse: nat
    var constants: seq<Value>

    ghost predicate Valid()
      reads this, code
    {
      inUse <= code.Length && (code.Length == 0 || code.Length >= 8) && Contents == code[..inUse]
    }

    constructor ()
      ensures Valid() && fresh(code) && Contents == [] && constants == []
    {
      code, inUse, constants := new Byte[0], 0, [];
      Contents := [];
    }

    /** One doubling is enough for the two bytes that are written at most. */
    method GrowIfNecessary(capacity: nat)
      requires Valid() && capacity <= inUse + 2
      modifies this`code
      ensures Valid() && (code == old(code) || fresh(code)) && code.Length >= capacity
    {
      if capacity > code.Length {
        var grown := new Byte[GrowCapacity(code.Length)];
        for i := 0 to inUse
          invariant inUse <= grown.Length && code == old(code) && code[..] == old(code[..])
          invariant forall j | 0 <= j < i :: grown[j] == code[j]
        {
          grown[i] := code[i];
        }
        code := grown;
      }
    }

    method Write(b: Byte)
      requires Valid()
      modifies this`code, this`inUse, this`Contents, code
      ensures Valid() && Contents == old(Contents) + [b] && (code == old(code) || fresh(code))
    {
      GrowIfNecessary(inUse + 1);
      code[inUse] := b;
      inUse := inUse + 1;
      Contents := Contents + [b];
    }

    /** The value is cut to 16 bits. */
    method WriteU16(v: nat)
      requires Valid()
      modifies this`code, this`inUse, this`Contents, code
      ensures Valid() && Contents == old(Contents) + [Lo(v), Hi(v)] && (code == old(code) || fresh(code))
    {
      GrowIfNecessary(inUse + 2);
      code[inUse] := Lo(v);
      code[inUse + 1] := Hi(v);
      inUse := inUse + 2;
      Contents := Contents + [Lo(v), Hi(v)];
    }

    method PatchU16(at: nat, v: nat)
      requires Valid() && at + 2 <= inUse
      modifies this`Contents, code
      ensures Valid() && Contents == old(Contents)[at := Lo(v)][at + 1 := Hi(v)]
    {
      code[at] := Lo(v);
      code[at + 1] := Hi(v);
      Contents := Contents[at := Lo(v)][at + 1 := Hi(v)];
    }

    method AddConstant(v: Value) returns (k: Option<Byte>)
      requires Valid()
      modifies this`constants
      ensures k.Some? <==> old(|constants|) < MAX_CONSTANTS
      ensures k.Some? ==> k.value == old(|constants|) && constants == old(constants) + [v]
      ensures k.None? ==> constants == old(constants)
    {
      if |constants| >= MAX_CONSTANTS {
        return None;
      }
      k := Some(|constants|);
      constants := constants + [v];
    }

    method StartNewContext() returns (prev: Context)
      requires Valid()
      modifies this`code, this`inUse, this`Contents
      ensures Valid() && fresh(code) && Contents == []
      ensures prev == Context(old(code), old(inUse))
    {
      prev := Context(code, inUse);
      code, inUse := new Byte[0], 0;
      Contents := [];
    }

    method RestoreContext(prev: Context) returns (actual: Context)
      requires Valid() && prev.inUse <= prev.code.Length && (prev.code.Length == 0 || prev.code.Length >= 8)
      modifies this`code, this`inUse, this`Contents
      ensures Valid() && code == prev.code && inUse == prev.inUse && Contents == prev.code[..prev.inUse]
      ensures actual == Context(old(code), old(inUse))
    {
      actual := Context(code, inUse);
      code, inUse := prev.code, prev.inUse;
      Contents := code[..inUse];
    }

    method WriteContext(prev: Context)
      requires Valid() && prev.inUse <= prev.code.Length && prev.code != code
      modifies this`code, this`inUse, this`Contents, code
      ensures Valid() && Contents == old(Contents) + old(prev.code[..prev.inUse]) && (code == old(code) || fresh(code))
    {
      for i := 0 to prev.inUse
        invariant Valid() && (code == old(code) || fresh(code)) && prev.code != code
        invariant prev.code[..] == old(prev.code[..])
        invariant Contents == old(Contents) + old(prev.code[..])[..i]
      {
        Write(prev.code[i]);
      }
      assert old(prev.code[..])[..prev.inUse] == old(prev.code[..prev.inUse]);
    }
  }
}
