// The instruction set: numbers of the opcodes, sizes of the instructions and
// the little-endian encoding of 16-bit operands.
module Bytecode {

  type Byte = b: int | 0 <= b < 256

  const OP_CONSTANT: Byte := 0
  const OP_NIL: Byte := 1
  const OP_TRUE: Byte := 2
  const OP_FALSE: Byte := 3
  const OP_POP: Byte := 4
  const OP_EQUAL: Byte := 5
  const OP_GREATER: Byte := 6
  const OP_LESS: Byte := 7
  const OP_RETURN: Byte := 8
  const OP_NEGATE: Byte := 9
  const OP_PRINT: Byte := 10
  const OP_EOF: Byte := 11
  const OP_ADD: Byte := 12
  const OP_SUB: Byte := 13
  const OP_DEFINE_GLOBAL: Byte := 14
  const OP_GET_GLOBAL: Byte := 15
  const OP_SET_GLOBAL: Byte := 16
  const OP_GET_LOCAL: Byte := 17
  const OP_SET_LOCAL: Byte := 18
  const OP_MUL: Byte := 19
  const OP_DIV: Byte := 20
  const OP_NOT: Byte := 21
  const OP_JUMP_IF_FALSE: Byte := 22
  const OP_JUMP: Byte := 23
  const OP_LOOP: Byte := 24
  const OP_CALL: Byte := 25
  const OP_INITIALIZE_STRUCT: Byte := 26
  const OP_GET_STRUCT_FIELD: Byte := 27
  const OP_SET_STRUCT_FIELD: Byte := 28
  const OP_ENTER_PACKAGE: Byte := 29
  const OP_EXIT_PACKAGE: Byte := 30
  const OP_ENTER_MONITOR: Byte := 31
  const OP_EXIT_MONITOR: Byte := 32
  const OP_INITIALIZE_ARRAY: Byte := 33
  const OP_GET_ARRAY_ELEMENT: Byte := 34
  const OP_SET_ARRAY_ELEMENT: Byte := 35
  const OP_FAST_CONST_8: Byte := 36
  const OP_FAST_CONST_16: Byte := 37
  const OP_CONST_1: Byte := 38
  const OP_CONST_2: Byte := 39
  const OP_NO_OP: Byte := 40
  const OP_PACKAGE_CONST: Byte := 41
  const OP_ENTER_MONITOR_EXPLICIT: Byte := 42
  const OP_EXIT_MONITOR_EXPLICIT: Byte := 43
  const OP_BINARY_OP_AND: Byte := 44
  const OP_BINARY_OP_OR: Byte := 45
  const OP_LEFT_SHIFT: Byte := 46
  const OP_RIGHT_SHIFT: Byte := 47
  const OP_MODULO: Byte := 48
  const OP_GET_ARRAY_LENGTH: Byte := 49

  const U16_LIMIT: nat := 0x10000

  /** Low byte of a value stored by write_u16_le; higher bits are cut off. */
  function Lo(n: nat): Byte {
    n % 256
  }

  function Hi(n: nat): Byte {
    n / 256 % 256
  }

  function U16(lo: Byte, hi: Byte): nat {
    lo + 256 * hi
  }

  /** A 16-bit operand reads back as written exactly when it fits 16 bits:
      this is when a patched jump lands where the compiler meant it to. */
  lemma U16RoundTrip(n: nat)
    ensures U16(Lo(n), Hi(n)) == n % U16_LIMIT
    ensures U16(Lo(n), Hi(n)) == n <==> n < U16_LIMIT
  {
    assert n == n / 256 * 256 + n % 256;
    assert n / 256 == n / 256 / 256 * 256 + n / 256 % 256;
    assert n / 256 / 256 == n / U16_LIMIT;
  }

  /** `seg` stands in `code` at index `pc`. */
  ghost predicate At(code: seq<Byte>, pc: nat, seg: seq<Byte>) {
    pc + |seg| <= |code| && code[pc..pc + |seg|] == seg
  }

  lemma AtSplit(code: seq<Byte>, pc: nat, a: seq<Byte>, b: seq<Byte>)
    requires At(code, pc, a + b)
    ensures At(code, pc, a) && At(code, pc + |a|, b)
  {
    var s := code[pc..pc + |a + b|];
    assert s[..|a|] == a && s[|a|..] == b;
    assert s[..|a|] == code[pc..pc + |a|];
    assert s[|a|..] == code[pc + |a|..pc + |a| + |b|];
  }
}
