// The one-pass compiler: a Pratt parser that emits code while it reads, patches
// forward jumps once it knows where they lead, and compiles the increment of a
// `for` into a buffer of its own.
module Compiler {
  import opened Wrappers
  import opened Bytecode
  import opened Syntax
  import opened CodeGen
  import opened Parser
  import opened CompilerSpec
  import opened Chunks

  /** The scanner's output; compilers of nested functions share it. */
  class TokenStream {
    var rest: Tokens

    constructor (ts: Tokens)
      ensures rest == ts
    {
      rest := ts;
    }

    method Advance() returns (previous: Token)
      modifies this
      ensures previous == Cur(old(rest)) && rest == Rest(old(rest))
    {
      previous := Cur(rest);
      rest := Rest(rest);
    }

    /** match: consume the token if it is the current one. */
    method Match(t: Token) returns (yes: bool)
      modifies this
      ensures yes == (Cur(old(rest)) == t)
      ensures rest == if yes then Rest(old(rest)) else old(rest)
    {
      yes := Cur(rest) == t;
      if yes { rest := Rest(rest); }
    }

    /** consume: false is a reported error. */
    method Consume(t: Token) returns (ok: bool)
      requires t != Eof
      modifies this
      ensures ok == Expect(t, old(rest)).Some?
      ensures rest == if ok then Expect(t, old(rest)).value else old(rest)
    {
      ok := Match(t);
    }
  }

  class Compiler {
    const parser: TokenStream
    const chunk: Chunk
    const inFunction: bool
    var locals: seq<Local>
    var localDepth: nat
    var maxLocals: nat
    var monitorsEntered: seq<Byte>
    var lastMonitorAllocated: nat
    var compilingSet: bool
    var newLocalSetBody: int
    var functions: seq<FunObj>

    ghost predicate Valid()
      reads this, chunk, chunk.code
    {
      chunk.Valid()
    }

    ghost function Tables(): Ctx
      reads this, chunk
    {
      Ctx(inFunction, locals, localDepth, maxLocals, chunk.constants, lastMonitorAllocated, monitorsEntered,
              compilingSet, newLocalSetBody, functions)
    }

    ghost function Bytes(): seq<Byte>
      reads chunk
    {
      chunk.Contents
    }

    constructor (parser: TokenStream, inFunction: bool)
      ensures this.parser == parser && fresh(chunk) && fresh(chunk.code)
      ensures Valid() && Bytes() == [] && Tables() == StartCtx(inFunction, []).(depth := 0)
    {
      this.parser, this.inFunction := parser, inFunction;
      chunk := new Chunk();
      locals, localDepth, maxLocals := [CALLEE], 0, 0;
      monitorsEntered, lastMonitorAllocated := [], 0;
      compilingSet, newLocalSetBody, functions := false, -2, [];
    }

    // ----- emitting -----

    method Emit(b: Byte)
      requires Valid()
      modifies chunk, chunk.code
      ensures Valid() && (chunk.code == old(chunk.code) || fresh(chunk.code))
      ensures Bytes() == old(Bytes()) + [b] && Tables() == old(Tables())
    {
      chunk.Write(b);
    }

    method Emit2(a: Byte, b: Byte)
      requires Valid()
      modifies chunk, chunk.code
      ensures Valid() && (chunk.code == old(chunk.code) || fresh(chunk.code))
      ensures Bytes() == old(Bytes()) + [a, b] && Tables() == old(Tables())
    {
      chunk.Write(a);
      chunk.Write(b);
    }

    method Here() returns (at: nat)
      requires Valid()
      ensures at == |Bytes()|
    {
      at := chunk.inUse;
    }

    /** A jump whose distance is not known yet; the result is where it goes. */
    method EmitJump(op: Byte) returns (at: nat)
      requires Valid()
      modifies chunk, chunk.code
      ensures Valid() && (chunk.code == old(chunk.code) || fresh(chunk.code))
      ensures Bytes() == old(Bytes()) + [op, 0, 0] && at == |old(Bytes())| + 1 && Tables() == old(Tables())
    {
      Emit(op);
      Emit2(0, 0);
      at := chunk.inUse - 2;
    }

    /** Make the jump lead to the end of the code emitted so far. */
    method PatchJumpHere(at: nat, ghost a: seq<Byte>, ghost op: Byte, ghost b: seq<Byte>)
      requires Valid() && Bytes() == a + [op, 0, 0] + b && at == |a| + 1
      modifies chunk, chunk.code
      ensures Valid() && chunk.code == old(chunk.code)
      ensures Bytes() == a + Jump(op, |b|) + b && Tables() == old(Tables())
    {
      var distance := chunk.inUse - at - 2;
      chunk.PatchU16(at, distance);
      Patched(a, op, b, |b|);
    }

    method EmitLoop(start: nat)
      requires Valid() && start <= |Bytes()|
      modifies chunk, chunk.code
      ensures Valid() && (chunk.code == old(chunk.code) || fresh(chunk.code))
      ensures Bytes() == old(Bytes()) + Jump(OP_LOOP, |old(Bytes())| - start + 3) && Tables() == old(Tables())
    {
      Emit(OP_LOOP);
      chunk.WriteU16(chunk.inUse - start + 2);
    }

    method EmitConstant(v: Value) returns (ok: bool)
      requires Valid()
      modifies chunk, chunk.code
      ensures Valid() && (chunk.code == old(chunk.code) || fresh(chunk.code))
      ensures ok == GenConst(v, old(Tables())).Some?
      ensures ok ==> Bytes() == old(Bytes()) + GenConst(v, old(Tables())).value.code && Tables() == GenConst(v, old(Tables())).value.c
    {
      var k := chunk.AddConstant(v);
      if k.None? {
        return false;
      }
      Emit2(OP_CONSTANT, k.value);
      ok := true;
    }

    /** The exits of all monitors entered, innermost first. */
    method EmitExitAllMonitors()
      requires Valid()
      modifies chunk, chunk.code
      ensures Valid() && (chunk.code == old(chunk.code) || fresh(chunk.code))
      ensures Bytes() == old(Bytes()) + ExitAll(monitorsEntered) && Tables() == old(Tables())
    {
      var i := |monitorsEntered|;
      assert monitorsEntered[..i] == monitorsEntered;
      while i > 0
        invariant i <= |monitorsEntered|
        invariant Valid() && (chunk.code == old(chunk.code) || fresh(chunk.code)) && Tables() == old(Tables())
        invariant Bytes() + ExitAll(monitorsEntered[..i]) == old(Bytes()) + ExitAll(monitorsEntered)
      {
        ghost var b := Bytes();
        i := i - 1;
        assert monitorsEntered[..i + 1][..i] == monitorsEntered[..i];
        Emit2(OP_EXIT_MONITOR, monitorsEntered[i]);
        assert Bytes() + ExitAll(monitorsEntered[..i]) == b + ([OP_EXIT_MONITOR, monitorsEntered[i]] + ExitAll(monitorsEntered[..i]));
      }
      assert Bytes() + ExitAll([]) == Bytes();
    }

    // ----- scopes -----

    /** resolve_local_variable: search from the innermost local. */
    method ResolveLocal(x: Name) returns (slot: int)
      ensures slot == Resolve(locals, x)
    {
      var i := |locals| - 1;
      assert locals[..i + 1] == locals;
      while i >= 0
        invariant -1 <= i < |locals| && Resolve(locals[..i + 1], x) == Resolve(locals, x)
      {
        assert locals[..i + 1][..i] == locals[..i];
        if locals[i].name == x {
          return i;
        }
        i := i - 1;
      }
      slot := -1;
    }

    method AddLocalVariable(x: Name) returns (ok: bool)
      requires Valid()
      modifies this`locals, this`maxLocals
      ensures ok == AddLocal(old(Tables()), x).Some?
      ensures ok ==> Tables() == AddLocal(old(Tables()), x).value
    {
      var slot := ResolveLocal(x);
      if slot != -1 || |locals| >= MAX_LOCALS {
        return false;
      }
      locals := locals + [Local(x, localDepth)];
      if maxLocals < |locals| {
        maxLocals := |locals|;
      }
      ok := true;
    }

    method OpenScope()
      modifies this`localDepth
      ensures Tables() == BeginScope(old(Tables()))
    {
      localDepth := localDepth + 1;
    }

    method CloseScope()
      requires localDepth > 0
      modifies this`localDepth, this`locals
      ensures Tables() == EndScope(old(Tables()))
    {
      localDepth := localDepth - 1;
      while |locals| > 0 && locals[|locals| - 1].depth > localDepth
        invariant localDepth == old(localDepth) - 1
        invariant Visible(locals, localDepth) == Visible(old(locals), localDepth)
      {
        locals := locals[..|locals| - 1];
      }
    }

    // ----- expressions -----

    method ParsePrecedence(p: nat) returns (ok: bool)
      requires Valid() && p > 0
      modifies this, parser, chunk, chunk.code
      ensures Valid() && (chunk.code == old(chunk.code) || fresh(chunk.code))
      ensures Did(ok, CExpr(p, old(parser.rest), old(Tables())), old(Bytes()), Bytes(), Tables(), parser.rest)
      decreases |parser.rest|, 2
    {
      hide GenExpr, PPrefix, PLoop, Prec, Grows, Bytes, Tables;
      ghost var c0, ts0, a := Tables(), parser.rest, Bytes();
      ok := Prefix(p);
      ghost var e := if PPrefix(p, ts0).Some? then PPrefix(p, ts0).value.0 else Lit(LNil);
      if !ok {
        if PPrefix(p, ts0).Some? { LeftFails(p, e, PPrefix(p, ts0).value.1, c0); }
        return;
      }
      ghost var o := GenExpr(e, c0).value;
      ok, e, o := Suffixes(p, e, c0, o, a);
    }

    /** Operators and calls behind a left operand, as long as they bind tightly
        enough; no equal sign may follow an operand that is no variable. */
    method Suffixes(p: nat, ghost e0: Expr, ghost c0: Ctx, ghost o0: Out, ghost a: seq<Byte>)
      returns (ok: bool, ghost e: Expr, ghost o: Out)
      requires Valid() && p > 0 && GenExpr(e0, c0) == Some(o0) && Tables() == o0.c && Bytes() == a + o0.code
      modifies this, parser, chunk, chunk.code
      ensures Valid() && (chunk.code == old(chunk.code) || fresh(chunk.code))
      ensures ok ==> PLoop(p, e0, old(parser.rest)) == Some((e, parser.rest)) && |parser.rest| <= |old(parser.rest)|
      ensures ok ==> GenExpr(e, c0) == Some(o) && Tables() == o.c && Bytes() == a + o.code
      ensures !ok && PLoop(p, e0, old(parser.rest)).Some? ==> GenExpr(PLoop(p, e0, old(parser.rest)).value.0, c0).None?
      decreases |parser.rest|, 4
    {
      hide GenExpr, PPrefix, Prec, Grows, CSuffix, Joined, Bytes, Tables;
      ok, e, o := true, e0, o0;
      while p <= Prec(Cur(parser.rest))
        invariant Valid() && (chunk.code == old(chunk.code) || fresh(chunk.code))
        invariant ok && |parser.rest| <= |old(parser.rest)| && PLoop(p, e0, old(parser.rest)) == PLoop(p, e, parser.rest)
        invariant GenExpr(e, c0) == Some(o) && Tables() == o.c && Bytes() == a + o.code
        decreases |parser.rest|
      {
        ghost var ts := parser.rest;
        ok := Suffix();
        if !ok {
          SuffixFails(p, e, ts, c0, o);
          return;
        }
        SuffixDone(p, e, ts, c0, o);
        ghost var t := CSuffix(ts, o.c).value.0;
        Assoc(a, o.code, t.code);
        e, o := Joined(e, ts), Out(o.code + t.code, t.c);
      }
      ok := !(p <= PREC_ASSIGNMENT && Cur(parser.rest) == EqualTok);
    }

    /** The infix rule of the current token. */
    method Suffix() returns (ok: bool)
      requires Valid() && Prec(Cur(parser.rest)) > 0
      modifies this, parser, chunk, chunk.code
      ensures Valid() && (chunk.code == old(chunk.code) || fresh(chunk.code))
      ensures Did(ok, CSuffix(old(parser.rest), old(Tables())), old(Bytes()), Bytes(), Tables(), parser.rest)
      decreases |parser.rest|, 3
    {
      hide CBinary, CCall, Prec;
      var t := parser.Advance();
      assert t.Operator? || t.OpenParen? by { PrecTokens(t); }
      if t.Operator? {
        ok := BinarySuffix(t.op);
      } else {
        ok := FunctionCall();
      }
    }

    method BinarySuffix(op: BinOp) returns (ok: bool)
      requires Valid()
      modifies this, parser, chunk, chunk.code
      ensures Valid() && (chunk.code == old(chunk.code) || fresh(chunk.code))
      ensures Did(ok, CBinary(op, old(parser.rest), old(Tables())), old(Bytes()), Bytes(), Tables(), parser.rest)
      decreases |parser.rest|, 3
    {
      hide GenExpr, PExpr, OpCode, Tables, Bytes;
      ok := ParsePrecedence(OpPrec(op) + 1);
      if ok {
        EmitOperator(op);
      }
    }

    method EmitOperator(op: BinOp)
      requires Valid()
      modifies chunk, chunk.code
      ensures Valid() && (chunk.code == old(chunk.code) || fresh(chunk.code))
      ensures Bytes() == old(Bytes()) + OpCode(op) && Tables() == old(Tables())
    {
      match op
      case Mod => Emit(OP_MODULO);
      case BitAnd => Emit(OP_BINARY_OP_AND);
      case BitOr => Emit(OP_BINARY_OP_OR);
      case Shr => Emit(OP_RIGHT_SHIFT);
      case Shl => Emit(OP_LEFT_SHIFT);
      case Add => Emit(OP_ADD);
      case Sub => Emit(OP_SUB);
      case Mul => Emit(OP_MUL);
      case Div => Emit(OP_DIV);
      case NotEq => Emit2(OP_EQUAL, OP_NOT);
      case Eq => Emit(OP_EQUAL);
      case Greater => Emit(OP_GREATER);
      case GreaterEq => Emit2(OP_LESS, OP_NOT);
      case Less => Emit(OP_LESS);
      case LessEq => Emit2(OP_GREATER, OP_NOT);
    }

    method FunctionCall() returns (ok: bool)
      requires Valid()
      modifies this, parser, chunk, chunk.code
      ensures Valid() && (chunk.code == old(chunk.code) || fresh(chunk.code))
      ensures Did(ok, CCall(old(parser.rest), old(Tables())), old(Bytes()), Bytes(), Tables(), parser.rest)
      decreases |parser.rest|, 6
    {
      hide GenArgs, PArgs;
      var n;
      ok, n := Arguments();
      if ok {
        Emit2(OP_CALL, n % 256);
        Emit(0);
      }
    }

    /** One more argument and the comma behind it, if there is one. */
    method Argument(ghost ts0: Tokens, ghost c0: Ctx, ghost es: seq<Expr>, ghost o: Out, ghost a: seq<Byte>)
      returns (ok: bool, more: bool, ghost e: Expr, ghost r: Out)
      requires Valid() && Cur(ts0) != CloseParen && ArgsSoFar(ts0, c0, es, o, true, parser.rest)
      requires Tables() == o.c && Bytes() == a + o.code
      modifies this, parser, chunk, chunk.code
      ensures Valid() && (chunk.code == old(chunk.code) || fresh(chunk.code))
      ensures !ok ==> CArgs(ts0, c0).None?
      ensures ok ==> ArgsSoFar(ts0, c0, es + [e], r, more, parser.rest) && |parser.rest| < |old(parser.rest)|
      ensures ok ==> Tables() == r.c && Bytes() == a + r.code
      decreases |parser.rest|, 4
    {
      hide CExpr, CArgs, PArgs, ArgsSoFar, Tables, Bytes;
      ghost var ts := parser.rest;
      e, r := Lit(LNil), o;
      ok := Expression();
      if !ok {
        ArgsFail(ts0, c0, es, o, ts);
        return false, false, e, r;
      }
      e, r := ArgsGoOn(ts0, c0, es, o, ts);
      Assoc(a, o.code, r.code);
      r := Out(o.code + r.code, r.c);
      more := parser.Match(Comma);
    }

    /** Arguments up to the closing parenthesis. */
    method Arguments() returns (ok: bool, n: nat)
      requires Valid()
      modifies this, parser, chunk, chunk.code
      ensures Valid() && (chunk.code == old(chunk.code) || fresh(chunk.code))
      ensures Did(ok, CArgs(old(parser.rest), old(Tables())), old(Bytes()), Bytes(), Tables(), parser.rest)
      ensures ok ==> n == |PArgs(old(parser.rest)).value.0|
      decreases |parser.rest|, 5
    {
      hide CExpr, CArgs, PArgs, PExpr, GenExpr, GenArgs, Grows, ArgsSoFar, Tables, Bytes;
      n := 0;
      ghost var a, c0, ts0, es := Bytes(), Tables(), parser.rest, [];
      assert a + [] == a;
      if Cur(parser.rest) == CloseParen {
        NoArgs(parser.rest, c0);
        ok := parser.Consume(CloseParen);
        return;
      }
      ghost var o := Out([], c0);
      ArgsBegin(ts0, c0);
      var more := true;
      while more
        invariant Valid() && (chunk.code == old(chunk.code) || fresh(chunk.code))
        invariant |parser.rest| <= |ts0| && n == |es| && ArgsSoFar(ts0, c0, es, o, more, parser.rest)
        invariant Tables() == o.c && Bytes() == a + o.code
        decreases |parser.rest|
      {
        ghost var e, r;
        ok, more, e, r := Argument(ts0, c0, es, o, a);
        if !ok { return; }
        es, o, n := es + [e], r, n + 1;
      }
      ArgsEnd(ts0, c0, es, o, parser.rest);
      ok := parser.Consume(CloseParen);
    }

    method Expression() returns (ok: bool)
      requires Valid()
      modifies this, parser, chunk, chunk.code
      ensures Valid() && (chunk.code == old(chunk.code) || fresh(chunk.code))
      ensures Did(ok, CExpr(PREC_ASSIGNMENT, old(parser.rest), old(Tables())), old(Bytes()), Bytes(), Tables(), parser.rest)
      decreases |parser.rest|, 3
    {
      ok := ParsePrecedence(PREC_ASSIGNMENT);
    }

    /** The prefix rule of the current token. */
    method Prefix(p: nat) returns (ok: bool)
      requires Valid() && p > 0
      modifies this, parser, chunk, chunk.code
      ensures Valid() && (chunk.code == old(chunk.code) || fresh(chunk.code))
      ensures Did(ok, CPrefix(p, old(parser.rest), old(Tables())), old(Bytes()), Bytes(), Tables(), parser.rest)
      decreases |parser.rest|, 1
    {
      hide PExpr, GenVar, GenNumber, GenExpr, CPrefix, CGroup, CUnary, CVariable;
      PrefixCases(p, parser.rest, Tables());
      if parser.rest == [] {
        return false;
      }
      var t := parser.Advance();
      match t
      case OpenParen =>
        ok := Grouping();
      case Operator(op) =>
        if op != Sub { return false; }
        ok := UnaryOperator(Minus);
      case BangTok =>
        ok := UnaryOperator(Bang);
      case Ident(x) => ok := Variable(x, p <= PREC_ASSIGNMENT);
      case NumberTok(v, decimal) => ok := NumberLiteral(v, decimal);
      case StringTok(s) => ok := EmitConstant(VStr(s));
      case NilTok => Emit(OP_NIL); ok := true;
      case TrueTok => Emit(OP_TRUE); ok := true;
      case FalseTok => Emit(OP_FALSE); ok := true;
      case _ => ok := false;
    }

    method NumberLiteral(v: nat, decimal: bool) returns (ok: bool)
      requires Valid()
      modifies chunk, chunk.code
      ensures Valid() && (chunk.code == old(chunk.code) || fresh(chunk.code))
      ensures ok == GenNumber(v, decimal, old(Tables())).Some?
      ensures ok ==> Bytes() == old(Bytes()) + GenNumber(v, decimal, old(Tables())).value.code
                     && Tables() == GenNumber(v, decimal, old(Tables())).value.c
    {
      var is8 := v <= 127;
      var is16 := !is8 && v <= 32767;
      ok := true;
      if decimal || (!is8 && !is16) {
        ok := EmitConstant(VNum(v));
      } else if v == 1 {
        Emit(OP_CONST_1);
      } else if v == 2 {
        Emit(OP_CONST_2);
      } else if is8 {
        Emit2(OP_FAST_CONST_8, v);
      } else {
        Emit(OP_FAST_CONST_16);
        chunk.WriteU16(v);
      }
    }

    method Grouping() returns (ok: bool)
      requires Valid()
      modifies this, parser, chunk, chunk.code
      ensures Valid() && (chunk.code == old(chunk.code) || fresh(chunk.code))
      ensures Did(ok, CGroup(old(parser.rest), old(Tables())), old(Bytes()), Bytes(), Tables(), parser.rest)
      decreases |parser.rest|, 4
    {
      hide PExpr, GenExpr;
      ok := Expression();
      if ok { ok := parser.Consume(CloseParen); }
    }

    method UnaryOperator(op: UnOp) returns (ok: bool)
      requires Valid()
      modifies this, parser, chunk, chunk.code
      ensures Valid() && (chunk.code == old(chunk.code) || fresh(chunk.code))
      ensures Did(ok, CUnary(op, old(parser.rest), old(Tables())), old(Bytes()), Bytes(), Tables(), parser.rest)
      decreases |parser.rest|, 3
    {
      hide PExpr, GenExpr;
      ok := ParsePrecedence(PREC_UNARY);
      if ok { Emit(if op == Minus then OP_NEGATE else OP_NOT); }
    }

    /** variable and named_variable. */
    method Variable(x: Name, canAssign: bool) returns (ok: bool)
      requires Valid()
      modifies this, parser, chunk, chunk.code
      ensures Valid() && (chunk.code == old(chunk.code) || fresh(chunk.code))
      ensures Did(ok, CVariable(x, canAssign, old(parser.rest), old(Tables())), old(Bytes()), Bytes(), Tables(), parser.rest)
      decreases |parser.rest|, 4
    {
      hide PExpr, GenExpr, GenVar;
      if Cur(parser.rest) == OpenBrace {
        return false;
      }
      var isSet := false;
      if canAssign {
        isSet := parser.Match(EqualTok);
      }
      if isSet {
        ok := SetVariable(x);
      } else {
        ok := GetVariable(x);
      }
    }

    method GetVariable(x: Name) returns (ok: bool)
      requires Valid()
      modifies chunk, chunk.code
      ensures Valid() && (chunk.code == old(chunk.code) || fresh(chunk.code))
      ensures ok == GenVar(x, old(Tables())).Some?
      ensures ok ==> Bytes() == old(Bytes()) + GenVar(x, old(Tables())).value.code
                     && Tables() == GenVar(x, old(Tables())).value.c
    {
      hide Resolve;
      var slot := ResolveLocal(x);
      if slot == newLocalSetBody {
        return false;
      }
      if slot != -1 {
        Emit2(OP_GET_LOCAL, slot % 256);
      } else {
        var k := chunk.AddConstant(VStr(x));
        if k.None? {
          return false;
        }
        Emit2(OP_GET_GLOBAL, k.value);
      }
      ok := true;
    }

    /** After the equal sign.  The name's constant precedes those of the value. */
    method SetVariable(x: Name) returns (ok: bool)
      requires Valid()
      modifies this, parser, chunk, chunk.code
      ensures Valid() && (chunk.code == old(chunk.code) || fresh(chunk.code))
      ensures Did(ok, CAssign(x, old(parser.rest), old(Tables())), old(Bytes()), Bytes(), Tables(), parser.rest)
      decreases |parser.rest|, 4
    {
      hide PExpr, Resolve, CExpr, CAssign;
      AssignCase(x, parser.rest, Tables());
      var slot := ResolveLocal(x);
      if slot == newLocalSetBody {
        return false;
      }
      var op, id := OP_SET_LOCAL, slot % 256;
      if slot == -1 {
        var k := chunk.AddConstant(VStr(x));
        if k.None? {
          return false;
        }
        op, id := OP_SET_GLOBAL, k.value;
      }
      if compilingSet {
        return false;
      }
      compilingSet := true;
      ok := Expression();
      if ok { Emit2(op, id); }
    }

    // ----- statements -----

    /** An expression and a semicolon. */
    method ExpressionSemicolon() returns (ok: bool)
      requires Valid()
      modifies this, parser, chunk, chunk.code
      ensures Valid() && (chunk.code == old(chunk.code) || fresh(chunk.code))
      ensures Did(ok, CExprSemi(old(parser.rest), old(Tables())), old(Bytes()), Bytes(), Tables(), parser.rest)
    {
      hide PExpr, GenExpr;
      ok := Expression();
      if ok { ok := parser.Consume(Semicolon); }
    }

    method ExpressionStatement() returns (ok: bool)
      requires Valid()
      modifies this, parser, chunk, chunk.code
      ensures Valid() && (chunk.code == old(chunk.code) || fresh(chunk.code))
      ensures Did(ok, CEffect(old(parser.rest), old(Tables())), old(Bytes()), Bytes(), Tables(), parser.rest)
    {
      hide PExprSemi, GenExpr;
      ok := ExpressionSemicolon();
      if ok {
        if compilingSet {
          compilingSet := false;
        } else {
          Emit(OP_POP);
        }
      }
    }

    method PrintStatement() returns (ok: bool)
      requires Valid()
      modifies this, parser, chunk, chunk.code
      ensures Valid() && (chunk.code == old(chunk.code) || fresh(chunk.code))
      ensures Did(ok, CPrint(old(parser.rest), old(Tables())), old(Bytes()), Bytes(), Tables(), parser.rest)
    {
      hide CExprSemi;
      ok := ExpressionSemicolon();
      if ok { Emit(OP_PRINT); }
    }

    method Condition() returns (ok: bool)
      requires Valid()
      modifies this, parser, chunk, chunk.code
      ensures Valid() && (chunk.code == old(chunk.code) || fresh(chunk.code))
      ensures Did(ok, CCond(old(parser.rest), old(Tables())), old(Bytes()), Bytes(), Tables(), parser.rest)
    {
      hide PExpr, GenExpr, Tables, Bytes, Grows;
      ok := parser.Consume(OpenParen);
      if ok { ok := Expression(); }
      if ok { ok := parser.Consume(CloseParen); }
    }

    method VarDeclaration() returns (ok: bool)
      requires Valid()
      modifies this, parser, chunk, chunk.code
      ensures Valid() && (chunk.code == old(chunk.code) || fresh(chunk.code))
      ensures Did(ok, CVarDecl(old(parser.rest), old(Tables())), old(Bytes()), Bytes(), Tables(), parser.rest)
    {
      hide CVarDecl, CInitializer, Declare, Bytes, Tables;
      VarDeclCase(parser.rest, Tables());
      if !Cur(parser.rest).Ident? {
        return false;
      }
      var t := parser.Advance();
      var id;
      ok, id := DeclareVariable(t.name);
      if !ok { return; }
      ghost var a, c1, ts1 := Bytes(), Tables(), parser.rest;
      ok := VariableExpressionDeclaration();
      if !ok { return; }
      ghost var o := CInitializer(ts1, c1).value.0.code;
      Assoc(a, o, if Tables().depth > 0 then [OP_SET_LOCAL, id] else [OP_DEFINE_GLOBAL, id]);
      DefineVariable(id);
      ok := parser.Consume(Semicolon);
    }

    /** The end of a declaration: the value is stored, and the name can be used. */
    method DefineVariable(id: Byte)
      requires Valid()
      modifies this`newLocalSetBody, chunk, chunk.code
      ensures Valid() && (chunk.code == old(chunk.code) || fresh(chunk.code))
      ensures Bytes() == old(Bytes()) + if old(Tables()).depth > 0 then [OP_SET_LOCAL, id] else [OP_DEFINE_GLOBAL, id]
      ensures Tables() == if old(Tables()).depth > 0 then old(Tables()).(pending := -2) else old(Tables())
    {
      if localDepth > 0 {
        newLocalSetBody := -2;
        Emit2(OP_SET_LOCAL, id);
      } else {
        Emit2(OP_DEFINE_GLOBAL, id);
      }
    }

    method DeclareVariable(x: Name) returns (ok: bool, id: Byte)
      requires Valid()
      modifies this, chunk`constants
      ensures Valid() && Bytes() == old(Bytes())
      ensures ok == Declare(x, old(Tables())).Some?
      ensures ok ==> (id, Tables()) == Declare(x, old(Tables())).value
    {
      hide AddLocal;
      id := 0;
      if localDepth > 0 {
        var slot := |locals|;
        ok := AddLocalVariable(x);
        if ok {
          newLocalSetBody := slot;
          id := slot % 256;
        }
      } else {
        var k := chunk.AddConstant(VStr(x));
        ok := k.Some?;
        if ok { id := k.value; }
      }
    }

    method VariableExpressionDeclaration() returns (ok: bool)
      requires Valid()
      modifies this, parser, chunk, chunk.code
      ensures Valid() && (chunk.code == old(chunk.code) || fresh(chunk.code))
      ensures Did(ok, CInitializer(old(parser.rest), old(Tables())), old(Bytes()), Bytes(), Tables(), parser.rest)
    {
      hide CExpr;
      var hasValue := parser.Match(EqualTok);
      if hasValue {
        ok := Expression();
      } else {
        Emit(OP_NIL);
        ok := true;
      }
    }

    method ForLoopInitializer() returns (ok: bool)
      requires Valid()
      modifies this, parser, chunk, chunk.code
      ensures Valid() && (chunk.code == old(chunk.code) || fresh(chunk.code))
      ensures Did(ok, CInit(old(parser.rest), old(Tables())), old(Bytes()), Bytes(), Tables(), parser.rest)
    {
      hide PExprSemi, GenEffect, PVarDecl, GenVarDecl;
      var none := parser.Match(Semicolon);
      if none {
        assert Bytes() + [] == Bytes();
        return true;
      }
      var isVar := parser.Match(VarTok);
      if isVar {
        ok := VarDeclaration();
      } else {
        ok := ExpressionStatement();
      }
    }

    method ForLoopIncrement() returns (ok: bool)
      requires Valid()
      modifies this, parser, chunk, chunk.code
      ensures Valid() && (chunk.code == old(chunk.code) || fresh(chunk.code))
      ensures Did(ok, CIncr(old(parser.rest), old(Tables())), old(Bytes()), Bytes(), Tables(), parser.rest)
    {
      hide PExpr, GenExpr;
      ok := Expression();
      compilingSet := false;
      if ok { ok := parser.Consume(CloseParen); }
    }

    method Statement() returns (ok: bool)
      requires Valid()
      modifies this, parser, chunk, chunk.code
      ensures Valid() && (chunk.code == old(chunk.code) || fresh(chunk.code))
      ensures Did(ok, CStmt(old(parser.rest), old(Tables())), old(Bytes()), Bytes(), Tables(), parser.rest)
      decreases |parser.rest|, 6
    {
      hide CStmt, CPrint, CBraces, CFor, CWhile, CIf, CReturn, CSync, CEffect;
      StmtCases(parser.rest, Tables());
      match Cur(parser.rest)
      case PrintTok => var t := parser.Advance(); ok := PrintStatement();
      case OpenBrace => var t := parser.Advance(); ok := BlockStatement();
      case ForTok => var t := parser.Advance(); ok := ForLoop();
      case WhileTok => var t := parser.Advance(); ok := WhileStatement();
      case IfTok => var t := parser.Advance(); ok := IfStatement();
      case ReturnTok => var t := parser.Advance(); ok := ReturnStatement();
      case SyncTok => var t := parser.Advance(); ok := SyncStatement();
      case _ => ok := ExpressionStatement();
    }

    method IfStatement() returns (ok: bool)
      requires Valid()
      modifies this, parser, chunk, chunk.code
      ensures Valid() && (chunk.code == old(chunk.code) || fresh(chunk.code))
      ensures Did(ok, CIf(old(parser.rest), old(Tables())), old(Bytes()), Bytes(), Tables(), parser.rest)
      decreases |parser.rest|, 8
    {
      hide CBranches, CCond;
      ok := Condition();
      if !ok { return; }
      assert |parser.rest| < old(|parser.rest|) by { CondShrinks(old(parser.rest), old(Tables())); }
      ok := Branches();
    }

    method Branches() returns (ok: bool)
      requires Valid()
      modifies this, parser, chunk, chunk.code
      ensures Valid() && (chunk.code == old(chunk.code) || fresh(chunk.code))
      ensures Did(ok, CBranches(old(parser.rest), old(Tables())), old(Bytes()), Bytes(), Tables(), parser.rest)
      decreases |parser.rest|, 8
    {
      hide CStmt, CElse, Jump, Bytes, Tables;
      ghost var a, p := Bytes(), [];
      if CStmt(parser.rest, Tables()).Some? { p := CStmt(parser.rest, Tables()).value.0.code; }
      var elseJump;
      ok, elseJump := ThenBranch();
      if !ok { return; }
      ghost var ts1, c1, b := parser.rest, Tables(), a + Jump(OP_JUMP_IF_FALSE, |p| + 3) + p;
      ok := ElseBranch();
      if !ok { return; }
      ghost var q := CElse(ts1, c1).value.0.code;
      PatchJumpHere(elseJump, b, OP_JUMP, q);
      BranchesPatched(a, p, q);
    }

    /** The first branch, with the jump around it patched and the one behind it
        still open. */
    method ThenBranch() returns (ok: bool, elseJump: nat)
      requires Valid()
      modifies this, parser, chunk, chunk.code
      ensures Valid() && (chunk.code == old(chunk.code) || fresh(chunk.code))
      ensures var r := CStmt(old(parser.rest), old(Tables()));
              if r.None? then !ok
              else
                var p := r.value.0.code;
                var b := old(Bytes()) + Jump(OP_JUMP_IF_FALSE, |p| + 3) + p;
                ok && Bytes() == b + [OP_JUMP, 0, 0] && elseJump == |b| + 1
                && Tables() == r.value.0.c && parser.rest == r.value.1
      decreases |parser.rest|, 7
    {
      hide CStmt, Jump, Bytes, Tables;
      ghost var a, c0, ts0 := Bytes(), Tables(), parser.rest;
      elseJump := EmitJump(OP_JUMP_IF_FALSE);
      var thenJump := elseJump;
      ok := Statement();
      if !ok { return; }
      ghost var p, toEnd := CStmt(ts0, c0).value.0.code, [OP_JUMP, 0, 0];
      elseJump := EmitJump(OP_JUMP);
      Assoc(a + [OP_JUMP_IF_FALSE, 0, 0], p, toEnd);
      PatchJumpHere(thenJump, a, OP_JUMP_IF_FALSE, p + toEnd);
      JumpSize3(OP_JUMP_IF_FALSE, |p| + 3);
      Assoc(a + Jump(OP_JUMP_IF_FALSE, |p| + 3), p, toEnd);
    }

    method ElseBranch() returns (ok: bool)
      requires Valid()
      modifies this, parser, chunk, chunk.code
      ensures Valid() && (chunk.code == old(chunk.code) || fresh(chunk.code))
      ensures Did(ok, CElse(old(parser.rest), old(Tables())), old(Bytes()), Bytes(), Tables(), parser.rest)
      decreases |parser.rest|, 7
    {
      hide CStmt;
      var hasElse := parser.Match(ElseTok);
      if hasElse {
        ok := Statement();
      } else {
        assert Bytes() + [] == Bytes();
        ok := true;
      }
    }

    method WhileStatement() returns (ok: bool)
      requires Valid()
      modifies this, parser, chunk, chunk.code
      ensures Valid() && (chunk.code == old(chunk.code) || fresh(chunk.code))
      ensures Did(ok, CWhile(old(parser.rest), old(Tables())), old(Bytes()), Bytes(), Tables(), parser.rest)
      decreases |parser.rest|, 7
    {
      hide CStmt, CCond, LoopCode, Bytes, Tables;
      ghost var a0, c0, ts0 := Bytes(), Tables(), parser.rest;
      var loopStart := Here();
      ok := Condition();
      if !ok { return; }
      CondShrinks(ts0, c0);
      ghost var o, ts1 := CCond(ts0, c0).value.0, parser.rest;
      var exitJump := EmitJump(OP_JUMP_IF_FALSE);
      ok := Statement();
      if !ok { return; }
      EndLoop(loopStart, exitJump, a0, o.code, CStmt(ts1, o.c).value.0.code);
    }

    /** emit_loop, and the exit patched to lead behind it. */
    method EndLoop(loopStart: nat, exitJump: nat, ghost a: seq<Byte>, ghost o: seq<Byte>, ghost body: seq<Byte>)
      requires Valid() && Bytes() == a + o + [OP_JUMP_IF_FALSE, 0, 0] + body
      requires loopStart == |a| && exitJump == |a + o| + 1
      modifies chunk, chunk.code
      ensures Valid() && (chunk.code == old(chunk.code) || fresh(chunk.code))
      ensures Bytes() == a + LoopCode(o, body) && Tables() == old(Tables())
    {
      hide Jump, LoopCode, Bytes, Tables;
      EmitLoop(loopStart);
      ghost var back := Jump(OP_LOOP, |o| + |body| + 6);
      Assoc(a + o + [OP_JUMP_IF_FALSE, 0, 0], body, back);
      PatchJumpHere(exitJump, a + o, OP_JUMP_IF_FALSE, body + back);
      LoopPatched(a, o, body, back);
    }

    method ForLoop() returns (ok: bool)
      requires Valid()
      modifies this, parser, chunk, chunk.code
      ensures Valid() && (chunk.code == old(chunk.code) || fresh(chunk.code))
      ensures Did(ok, CFor(old(parser.rest), old(Tables())), old(Bytes()), Bytes(), Tables(), parser.rest)
      decreases |parser.rest|, 8
    {
      hide CInit, CForRest, EndScope, Bytes;
      OpenScope();
      ok := parser.Consume(OpenParen);
      if !ok { return; }
      ghost var c1, ts1 := Tables(), parser.rest;
      ok := ForLoopInitializer();
      if !ok { return; }
      InitShrinks(ts1, c1);
      ghost var i := CInit(ts1, c1).value.0;
      ghost var ts2 := parser.rest;
      ok := ForLoopRest();
      if !ok { return; }
      ghost var p := CForRest(ts2, i.c).value.0;
      Assoc(old(Bytes()), i.code, p.code);
      CloseScope();
    }

    /** The increment is compiled ahead of the body and written behind it. */
    method ForLoopRest() returns (ok: bool)
      requires Valid()
      modifies this, parser, chunk, chunk.code
      ensures Valid() && (chunk.code == old(chunk.code) || fresh(chunk.code))
      ensures Did(ok, CForRest(old(parser.rest), old(Tables())), old(Bytes()), Bytes(), Tables(), parser.rest)
      decreases |parser.rest|, 7
    {
      hide CStmt, CExprSemi, CBodyIncr, LoopCode, Bytes, Tables;
      ghost var a0, c0, ts0 := Bytes(), Tables(), parser.rest;
      var loopStart := Here();
      ok := ExpressionSemicolon();
      if !ok { return; }
      ExprSemiShrinks(ts0, c0);
      ghost var o, ts1 := CExprSemi(ts0, c0).value.0, parser.rest;
      var exitJump := EmitJump(OP_JUMP_IF_FALSE);
      ok := BodyAndIncrement();
      if !ok { return; }
      EndLoop(loopStart, exitJump, a0, o.code, CBodyIncr(ts1, o.c).value.0.code);
    }

    method BodyAndIncrement() returns (ok: bool)
      requires Valid()
      modifies this, parser, chunk, chunk.code
      ensures Valid() && (chunk.code == old(chunk.code) || fresh(chunk.code))
      ensures Did(ok, CBodyIncr(old(parser.rest), old(Tables())), old(Bytes()), Bytes(), Tables(), parser.rest)
      decreases |parser.rest|, 7
    {
      hide CStmt, CIncr, Bytes, Tables;
      ghost var a, c, ts := Bytes(), Tables(), parser.rest;
      var increment;
      ok, increment := ParkIncrement();
      if !ok { return; }
      IncrShrinks(ts, c);
      ghost var q, ts1 := CIncr(ts, c).value.0, parser.rest;
      ok := Statement();
      if !ok { return; }
      WriteIncrement(increment, q.code);
      Assoc(a, CStmt(ts1, q.c).value.0.code, q.code);
    }

    /** Compile the increment into a chunk of its own. */
    method ParkIncrement() returns (ok: bool, increment: Context)
      requires Valid()
      modifies this, parser, chunk, chunk.code
      ensures Valid() && (chunk.code == old(chunk.code) || fresh(chunk.code))
      ensures var r := CIncr(old(parser.rest), old(Tables()));
              if r.None? then !ok
              else ok && Tables() == r.value.0.c && parser.rest == r.value.1 && Bytes() == old(Bytes())
                   && chunk.code == old(chunk.code) && increment.code != chunk.code && fresh(increment.code)
                   && increment.inUse <= increment.code.Length
                   && increment.code[..increment.inUse] == r.value.0.code
    {
      hide CIncr;
      ghost var c0 := Tables();
      var prev := chunk.StartNewContext();
      assert Tables() == c0;
      ok := ForLoopIncrement();
      if !ok { return ok, prev; }
      ghost var q, c1 := CIncr(old(parser.rest), c0).value.0.code, Tables();
      assert [] + q == q;
      increment := chunk.RestoreContext(prev);
      assert Tables() == c1;
    }

    method WriteIncrement(increment: Context, ghost q: seq<Byte>)
      requires Valid() && increment.inUse <= increment.code.Length && increment.code != chunk.code
      requires increment.code[..increment.inUse] == q
      modifies chunk, chunk.code
      ensures Valid() && (chunk.code == old(chunk.code) || fresh(chunk.code))
      ensures Bytes() == old(Bytes()) + q && Tables() == old(Tables())
    {
      chunk.WriteContext(increment);
    }

    method BlockStatement() returns (ok: bool)
      requires Valid()
      modifies this, parser, chunk, chunk.code
      ensures Valid() && (chunk.code == old(chunk.code) || fresh(chunk.code))
      ensures Did(ok, CBraces(old(parser.rest), old(Tables())), old(Bytes()), Bytes(), Tables(), parser.rest)
      decreases |parser.rest|, 9
    {
      hide CBlock, EndScope;
      OpenScope();
      ok := BlockDeclarations();
      if ok { CloseScope(); }
    }

    method ReturnStatement() returns (ok: bool)
      requires Valid()
      modifies this, parser, chunk, chunk.code
      ensures Valid() && (chunk.code == old(chunk.code) || fresh(chunk.code))
      ensures Did(ok, CReturn(old(parser.rest), old(Tables())), old(Bytes()), Bytes(), Tables(), parser.rest)
    {
      hide CExpr, CExprSemi, ExitAll, Bytes;
      ghost var a := Bytes();
      SemiCase(parser.rest, Tables());
      if !inFunction {
        return false;
      }
      var none := parser.Match(Semicolon);
      if none {
        EmitExitAllMonitors();
        Emit2(OP_NIL, OP_RETURN);
        Assoc(a, ExitAll(monitorsEntered), [OP_NIL, OP_RETURN]);
        ok := true;
      } else {
        ok := ReturnValue();
      }
    }

    /** The monitors are left once the value stands on the stack. */
    method ReturnValue() returns (ok: bool)
      requires Valid() && inFunction && Cur(parser.rest) != Semicolon
      modifies this, parser, chunk, chunk.code
      ensures Valid() && (chunk.code == old(chunk.code) || fresh(chunk.code))
      ensures Did(ok, CReturn(old(parser.rest), old(Tables())), old(Bytes()), Bytes(), Tables(), parser.rest)
    {
      hide CExpr, CExprSemi, ExitAll, Bytes;
      ghost var a, c, ts := Bytes(), Tables(), parser.rest;
      SemiCase(ts, c);
      ok := Expression();
      if !ok { return; }
      EmitExitAllMonitors();
      ok := parser.Consume(Semicolon);
      if !ok { return; }
      Emit(OP_RETURN);
      ReturnPieces(a, CExpr(PREC_ASSIGNMENT, ts, c).value.0.code, ExitAll(c.held));
    }

    method SyncStatement() returns (ok: bool)
      requires Valid()
      modifies this, parser, chunk, chunk.code
      ensures Valid() && (chunk.code == old(chunk.code) || fresh(chunk.code))
      ensures Did(ok, CSync(old(parser.rest), old(Tables())), old(Bytes()), Bytes(), Tables(), parser.rest)
      decreases |parser.rest|, 7
    {
      hide CStmt;
      ghost var c0 := Tables();
      ok := EmitEnterMonitor();
      if !ok { return; }
      ghost var c1, ts := Tables(), parser.rest;
      ok := Statement();
      if !ok { return; }
      StmtKeepsHeld(ts, c1);
      EmitExitMonitor();
    }

    method EmitEnterMonitor() returns (ok: bool)
      requires Valid()
      modifies this`lastMonitorAllocated, this`monitorsEntered, chunk, chunk.code
      ensures Valid() && (chunk.code == old(chunk.code) || fresh(chunk.code))
      ensures ok == (inFunction && old(lastMonitorAllocated) < MAX_MONITORS_PER_FUNCTION)
      ensures ok ==> var m := old(lastMonitorAllocated);
                     Bytes() == old(Bytes()) + [OP_ENTER_MONITOR, m]
                     && Tables() == old(Tables()).(nextMon := m + 1, held := old(monitorsEntered) + [m])
    {
      if !inFunction || lastMonitorAllocated >= MAX_MONITORS_PER_FUNCTION {
        return false;
      }
      var m := lastMonitorAllocated;
      lastMonitorAllocated := m + 1;
      monitorsEntered := monitorsEntered + [m];
      Emit2(OP_ENTER_MONITOR, m);
      ok := true;
    }

    method EmitExitMonitor()
      requires Valid() && monitorsEntered != []
      modifies this`monitorsEntered, chunk, chunk.code
      ensures Valid() && (chunk.code == old(chunk.code) || fresh(chunk.code))
      ensures var held := old(monitorsEntered);
              Bytes() == old(Bytes()) + [OP_EXIT_MONITOR, held[|held| - 1]]
              && Tables() == old(Tables()).(held := held[..|held| - 1])
    {
      var m := monitorsEntered[|monitorsEntered| - 1];
      monitorsEntered := monitorsEntered[..|monitorsEntered| - 1];
      Emit2(OP_EXIT_MONITOR, m);
    }

    // ----- declarations -----

    method Declaration() returns (ok: bool)
      requires Valid()
      modifies this, parser, chunk, chunk.code
      ensures Valid() && (chunk.code == old(chunk.code) || fresh(chunk.code))
      ensures Did(ok, CDecl(old(parser.rest), old(Tables())), old(Bytes()), Bytes(), Tables(), parser.rest)
      decreases |parser.rest|, 7
    {
      hide CDecl, CVarDecl, CFunDecl, CStmt;
      ghost var ts := parser.rest;
      DeclCases(parser.rest, Tables());
      var isVar := parser.Match(VarTok);
      if isVar {
        ok := VarDeclaration();
        return;
      }
      var isFun := parser.Match(FunTok);
      if isFun {
        var synced := parser.Match(SyncTok);
        assert parser.rest == if synced then ts[2..] else ts[1..];
        ok := FunctionDeclaration(synced);
      } else {
        ok := Statement();
      }
    }

    /** Declarations up to the closing brace. */
    method BlockDeclarations() returns (ok: bool)
      requires Valid()
      modifies this, parser, chunk, chunk.code
      ensures Valid() && (chunk.code == old(chunk.code) || fresh(chunk.code))
      ensures Did(ok, CBlock(old(parser.rest), old(Tables())), old(Bytes()), Bytes(), Tables(), parser.rest)
      decreases |parser.rest|, 8
    {
      hide CDecl, CBlock, BlockSoFar, Bytes, Tables;
      ghost var a, c0, ts0, ds := Bytes(), Tables(), parser.rest, [];
      ghost var o := Out([], c0);
      BlockBegins(ts0, c0);
      assert a + [] == a;
      while Cur(parser.rest) != CloseBrace && Cur(parser.rest) != Eof
        invariant Valid() && (chunk.code == old(chunk.code) || fresh(chunk.code))
        invariant |parser.rest| <= |ts0| && BlockSoFar(ts0, c0, ds, o, parser.rest)
        invariant Tables() == o.c && Bytes() == a + o.code
        decreases |parser.rest|
      {
        ghost var ts := parser.rest;
        ok := Declaration();
        if !ok {
          BlockFails(ts0, c0, ds, o, ts);
          return;
        }
        ghost var d, p := BlockGoesOn(ts0, c0, ds, o, ts);
        Assoc(a, o.code, p.code);
        ds, o := ds + [d], Out(o.code + p.code, p.c);
      }
      BlockEnds(ts0, c0, ds, o, parser.rest);
      ok := parser.Consume(CloseBrace);
    }

    method FunctionParameters() returns (ok: bool, n: nat)
      requires Valid()
      modifies this`locals, this`maxLocals, parser
      ensures Bytes() == old(Bytes())
      ensures var r := CParams(old(parser.rest), old(Tables()));
              if r.None? then !ok else ok && n == r.value.0 && Tables() == r.value.1 && parser.rest == r.value.2
    {
      hide PMoreParams, GenParams, AddLocal;
      n := 0;
      ghost var c0, ts0, ps := Tables(), parser.rest, [];
      assert GenParams(ps, c0) == Some(c0) by { NoParams(c0); }
      if Cur(parser.rest) == CloseParen {
        ok := parser.Consume(CloseParen);
        return;
      }
      OntoNothing(PMoreParams(ts0));
      var more := true;
      while more
        invariant Valid() && Bytes() == old(Bytes()) && n == |ps|
        invariant PMoreParams(ts0) == if more then Onto(ps, PMoreParams(parser.rest))
                                      else if Cur(parser.rest) == CloseParen then Some((ps, parser.rest[1..])) else None
        invariant GenParams(ps, c0) == Some(Tables())
        decreases more, |parser.rest|
      {
        ghost var ts, c1 := parser.rest, Tables();
        MoreParams(ts);
        n := n + 1;
        if !Cur(parser.rest).Ident? {
          return false, n;
        }
        var t := parser.Advance();
        ok := AddLocalVariable(t.name);
        if !ok {
          ParamsFail(ps, ts, c0, c1);
          return;
        }
        ParamDone(ps, t.name, c0, c1);
        if Cur(parser.rest) == Comma { OntoTwice(ps, t.name, PMoreParams(parser.rest[1..])); }
        ps := ps + [t.name];
        more := parser.Match(Comma);
      }
      ok := parser.Consume(CloseParen);
    }

    method FunctionDeclaration(synced: bool) returns (ok: bool)
      requires Valid()
      modifies this, parser, chunk, chunk.code
      ensures Valid() && (chunk.code == old(chunk.code) || fresh(chunk.code))
      ensures Did(ok, CFunDecl(synced, old(parser.rest), old(Tables())), old(Bytes()), Bytes(), Tables(), parser.rest)
      decreases |parser.rest|, 10
    {
      hide CFun;
      if inFunction || !Cur(parser.rest).Ident? {
        return false;
      }
      var t := parser.Advance();
      var name := chunk.AddConstant(VStr(t.name));
      if name.None? {
        return false;
      }
      var obj;
      ok, obj := FunctionBody(synced);
      if !ok { return; }
      var k := chunk.AddConstant(VFun(|functions|));
      if k.None? {
        return false;
      }
      functions := functions + [obj];
      Emit2(OP_CONSTANT, k.value);
      if localDepth == 0 {
        Emit2(OP_DEFINE_GLOBAL, name.value);
      }
    }

    /** A function is compiled by a compiler of its own that reads on where this
        one stands. */
    method FunctionBody(synced: bool) returns (ok: bool, obj: FunObj)
      modifies parser
      ensures var r := CFun(synced, old(parser.rest));
              if r.None? then !ok else ok && obj == r.value.0 && parser.rest == r.value.1
      decreases |parser.rest|, 10
    {
      hide CFunBlock, CHeader, StartCtx;
      obj := FunObj([], [], 0, 0);
      var f := new Compiler(parser, true);
      f.OpenScope();
      StartInFunction();
      var n;
      ok, n := f.FunctionHeader();
      if !ok { return; }
      HeaderShrinks(old(parser.rest));
      assert f.Tables() == CHeader(old(parser.rest), StartCtx(true, [])).value.1;
      assert f.Bytes() == [];
      ok := f.FunctionBlock(synced);
      if !ok { return; }
      obj := f.EndCompiler(n);
    }

    /** The finished function. */
    method EndCompiler(n: nat) returns (obj: FunObj)
      requires Valid()
      ensures obj == FunObj(Bytes(), Tables().consts, n, Tables().maxLocals)
    {
      obj := FunObj(chunk.code[..chunk.inUse], chunk.constants, n, maxLocals);
    }

    method FunctionHeader() returns (ok: bool, n: nat)
      requires Valid()
      modifies this`locals, this`maxLocals, parser
      ensures Valid() && Bytes() == old(Bytes())
      ensures var r := CHeader(old(parser.rest), old(Tables()));
              if r.None? then !ok else ok && n == r.value.0 && Tables() == r.value.1 && parser.rest == r.value.2
    {
      hide CParams;
      n := 0;
      ok := parser.Consume(OpenParen);
      if !ok { return; }
      ok, n := FunctionParameters();
      if ok { ok := parser.Consume(OpenBrace); }
    }

    method FunctionBlock(synced: bool) returns (ok: bool)
      requires Valid() && Bytes() == [] && lastMonitorAllocated == 0 && monitorsEntered == [] && inFunction
      modifies this, parser, chunk, chunk.code
      ensures Valid() && (chunk.code == old(chunk.code) || fresh(chunk.code))
      ensures Did(ok, CFunBlock(synced, old(parser.rest), old(Tables())), old(Bytes()), Bytes(), Tables(), parser.rest)
      decreases |parser.rest|, 9
    {
      hide CBlock, ExitAll, FunCode, Bytes;
      if synced {
        ok := EmitEnterMonitor();
      }
      ghost var c1, ts1 := Tables(), parser.rest;
      assert c1 == EnterMain(synced, old(Tables()));
      assert Bytes() == if synced then [OP_ENTER_MONITOR, 0] else [];
      ok := BlockDeclarations();
      if !ok { return; }
      BlockKeepsHeld(ts1, c1);
      EmitExitAllMonitors();
      Emit2(OP_NIL, OP_RETURN);
      Emit(OP_EOF);
      FunPieces(synced, CBlock(ts1, c1).value.0.code, c1.held);
    }
  }

  /** compile_bytecode: the declarations up to the end of the text. */
  method CompileBytecode(source: Tokens) returns (r: Option<Program>)
    ensures r == CProgram(source)
  {
    hide CDecl, CProgram, ProgramSoFar;
    var parser := new TokenStream(source);
    var c := new Compiler(parser, false);
    ghost var ds, o := [], Out([], StartCtx(false, []));
    ProgramBegins(source);
    while Cur(parser.rest) != Eof
      invariant c.Valid() && fresh(c.chunk.code) && ProgramSoFar(source, ds, o, parser.rest)
      invariant c.Tables() == o.c && c.Bytes() == o.code
      decreases |parser.rest|
    {
      ghost var ts := parser.rest;
      var ok := c.Declaration();
      if !ok {
        ProgramFails(source, ds, o, ts);
        return None;
      }
      ghost var d, p := ProgramGoesOn(source, ds, o, ts);
      ds, o := ds + [d], Out(o.code + p.code, p.c);
    }
    ProgramEnds(source, ds, o, parser.rest);
    c.Emit(OP_EOF);
    c.Emit2(OP_NIL, OP_RETURN);
    var main := c.EndCompiler(0);
    r := Some(Program(main, c.functions));
  }

  lemma PrecTokens(t: Token)
    requires Prec(t) > 0
    ensures t.Operator? || t.OpenParen?
  {
  }
}
