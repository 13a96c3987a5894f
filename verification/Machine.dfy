/**
 The stack machine the emitter's bytecode is for: opcode numbers of include/ember.h and the
 stack discipline the emitter relies on. Arithmetic, calls, arrays and truth are a parameter.
 */
module Machine {
  import opened Options

  datatype Value = Nil | Bool(b: bool) | Num(n: real) | Str(s: string) | Ref(id: nat)

  /** Globals, and the heap of arrays and objects behind references. */
  datatype World = World(globals: map<string, Value>, heap: map<nat, seq<Value>>)

  type byte = n: nat | n < 256

  const PUSH_CONST: nat := 0
  const POP: nat := 1
  const ADD: nat := 2
  const SUB: nat := 3
  const MUL: nat := 4
  const DIV: nat := 5
  const MOD: nat := 6
  const EQUAL: nat := 7
  const NOT_EQUAL: nat := 8
  const LESS: nat := 9
  const LESS_EQUAL: nat := 10
  const GREATER: nat := 11
  const GREATER_EQUAL: nat := 12
  const JUMP: nat := 13
  const JUMP_IF_FALSE: nat := 14
  const LOOP: nat := 15
  const CALL: nat := 16
  const SET_GLOBAL: nat := 20
  const GET_GLOBAL: nat := 21
  const AND: nat := 22
  const OR: nat := 23
  const NOT: nat := 24
  const ARRAY_NEW: nat := 25
  const ARRAY_GET: nat := 26
  const ARRAY_SET: nat := 27
  const INTERPOLATE: nat := 33
  const BREAK: nat := 34
  const CONTINUE: nat := 35

  /**
   What is not the compiler's business: the value an instruction computes from its operands (it may
   fail, and may change the world), the value of an undefined global, and which values are true.
   */
  datatype Vm = Vm(
    prim: (nat, seq<Value>, World) -> Option<(Value, World)>,
    undefined: string -> Option<Value>,
    truthy: Value -> bool)
  {
    function Get(x: string, w: World): Option<Value> {
      if x in w.globals then Some(w.globals[x]) else undefined(x)
    }
  }

  function Set(w: World, x: string, v: Value): World {
    w.(globals := w.globals[x := v])
  }

  datatype State = State(pc: nat, stack: seq<Value>, world: World)

  /** A program: bytes and constant pool. */
  datatype Program = Program(code: seq<nat>, consts: seq<Value>)

  datatype Result = Running(s: State) | Stopped

  /** Operands popped by a computing instruction, by opcode and operand byte. */
  function Arity(op: nat, operand: nat): Option<nat> {
    if ADD <= op <= GREATER_EQUAL || op == AND || op == OR || op == ARRAY_GET then Some(2)
    else if op == NOT || op == INTERPOLATE then Some(1)
    else if op == ARRAY_SET then Some(3)
    else if op == ARRAY_NEW then Some(operand)
    else if op == CALL then Some(operand + 1)
    else None
  }

  predicate HasOperand(op: nat) {
    op == PUSH_CONST || op == GET_GLOBAL || op == SET_GLOBAL || op == ARRAY_NEW || op == CALL
    || op == JUMP || op == JUMP_IF_FALSE || op == LOOP || op == BREAK || op == CONTINUE
  }

  function Compute(vm: Vm, s: State, op: nat, count: nat, size: nat): Result {
    if |s.stack| < count then Stopped
    else
      var base := |s.stack| - count;
      match vm.prim(op, s.stack[base..], s.world)
      case None => Stopped
      case Some((v, w)) => Running(State(s.pc + size, s.stack[..base] + [v], w))
  }

  /** One instruction. Forward jumps count from after the operand, CONTINUE too, LOOP from one later. */
  function Step(vm: Vm, p: Program, s: State): Result {
    if s.pc >= |p.code| || (HasOperand(p.code[s.pc]) && s.pc + 1 >= |p.code|) then Stopped
    else
      var op := p.code[s.pc];
      var arg := if HasOperand(op) then p.code[s.pc + 1] else 0;
      if op == PUSH_CONST then
        if arg < |p.consts| then Running(s.(pc := s.pc + 2, stack := s.stack + [p.consts[arg]])) else Stopped
      else if op == POP then
        if s.stack != [] then Running(s.(pc := s.pc + 1, stack := s.stack[..|s.stack| - 1])) else Stopped
      else if op == GET_GLOBAL then
        if arg < |p.consts| && p.consts[arg].Str? && vm.Get(p.consts[arg].s, s.world).Some?
        then Running(s.(pc := s.pc + 2, stack := s.stack + [vm.Get(p.consts[arg].s, s.world).value])) else Stopped
      else if op == SET_GLOBAL then
        if arg < |p.consts| && p.consts[arg].Str? && s.stack != []
        then Running(s.(pc := s.pc + 2, world := Set(s.world, p.consts[arg].s, s.stack[|s.stack| - 1]))) else Stopped
      else if op == JUMP || op == BREAK then Running(s.(pc := s.pc + 2 + arg))
      else if op == JUMP_IF_FALSE then
        if s.stack == [] then Stopped
        else Running(State(if vm.truthy(s.stack[|s.stack| - 1]) then s.pc + 2 else s.pc + 2 + arg,
                           s.stack[..|s.stack| - 1], s.world))
      else if op == CONTINUE then if arg <= s.pc + 2 then Running(s.(pc := s.pc + 2 - arg)) else Stopped
      else if op == LOOP then if arg <= s.pc + 3 then Running(s.(pc := s.pc + 3 - arg)) else Stopped
      else
        match Arity(op, arg)
        case Some(count) => Compute(vm, s, op, count, if HasOperand(op) then 2 else 1)
        case None => Stopped
  }

  /** `n` instructions; a machine that has stopped stays stopped. */
  function Run(vm: Vm, p: Program, r: Result, n: nat): Result
    decreases n
  {
    if n == 0 || r.Stopped? then r else Run(vm, p, Step(vm, p, r.s), n - 1)
  }

  lemma {:induction false} RunJoins(vm: Vm, p: Program, r: Result, m: nat, n: nat)
    ensures Run(vm, p, r, m + n) == Run(vm, p, Run(vm, p, r, m), n)
    decreases m
  {
    if m > 0 && r.Running? {
      RunJoins(vm, p, Step(vm, p, r.s), m - 1, n);
    }
  }

  /** A machine still running after `n` instructions was running after every fewer. */
  lemma RunningBefore(vm: Vm, p: Program, r: Result, m: nat, n: nat)
    requires m <= n && Run(vm, p, r, n).Running?
    ensures Run(vm, p, r, m).Running?
  {
    RunJoins(vm, p, r, m, n - m);
  }
}
