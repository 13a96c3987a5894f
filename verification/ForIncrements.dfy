/** The increments of `for` headers: collected as tokens, recognised by pattern, emitted as compound assignments. */
module ForIncrements {
  import opened Options
  import opened Machine
  import opened Syntax
  import opened Pratt
  import S = Statements

  function StepBy(x: string, up: bool): S.Increment {
    Compound(if up then OpAdd else OpSub, x, Const(Num(1.0)))
  }

  /** The recognised patterns of two and three tokens; any operator but the compound ones falls back to addition. */
  function IncrementOf(ts: seq<Token>): Option<S.Increment> {
    if |ts| == 2 && ts[0].TIdent? && (ts[1] == TPlusPlus || ts[1] == TMinusMinus) then
      Some(StepBy(ts[0].x, ts[1] == TPlusPlus))
    else if |ts| == 2 && (ts[0] == TPlusPlus || ts[0] == TMinusMinus) && ts[1].TIdent? then
      Some(StepBy(ts[1].x, ts[0] == TPlusPlus))
    else if |ts| == 3 && ts[0].TIdent? && ts[2].TNumber? then
      Some(Compound(if ts[1].TOpEqual? then ts[1].cop else OpAdd, ts[0].x, Const(Num(ts[2].n))))
    else None
  }

  /** For steps, before or after the name, the emitted increment does what the step does when its value is dropped. */
  lemma StepsMeanSteps(vm: Vm, x: string, up: bool, w: World)
    ensures var inc := IncrementOf(Bare(PostStep(x, up)));
      inc == IncrementOf(Bare(PreStep(x, up))) && inc.Some?
      && S.Drop(Eval(vm, inc.value, w)) == S.Drop(Eval(vm, PostStep(x, up), w)) == S.Drop(Eval(vm, PreStep(x, up), w))
  {
    var inc := StepBy(x, up);
    assert Bare(PostStep(x, up)) == [TIdent(x), StepToken(up)] && Bare(PreStep(x, up)) == [StepToken(up), TIdent(x)];
    if vm.Get(x, w).Some? {
      var was := vm.Get(x, w).value;
      assert Eval(vm, inc.e, w) == Some((Num(1.0), w));
      assert Opcode(inc.cop) == StepOp(up);
    }
  }

  /** Three tokens from a name to a number: whatever stands between, all but the compound operators become an addition. */
  lemma OtherOperatorsAdd(x: string, t: Token, n: real)
    ensures IncrementOf([TIdent(x), t, TNumber(n)])
      == Some(Compound(if t.TOpEqual? then t.cop else OpAdd, x, Const(Num(n))))
  {
  }

  /** An assigned number as increment: a compound assignment is emitted as itself, a plain one is not. */
  lemma AssignedIncrements(x: string, n: real, t: Token)
    requires t == TEqual || t.TOpEqual?
    ensures var e := if t == TEqual then Assign(x, Const(Num(n))) else Compound(t.cop, x, Const(Num(n)));
      Bare(e) == [TIdent(x), t, TNumber(n)] && (IncrementOf(Bare(e)) == Some(e) <==> t.TOpEqual?)
  {
    var e := if t == TEqual then Assign(x, Const(Num(n))) else Compound(t.cop, x, Const(Num(n)));
    assert Print(Const(Num(n)), P_ASSIGNMENT) == [TNumber(n)];
    assert Bare(e) == [TIdent(x), t] + [TNumber(n)];
  }

  /**
   A plain assignment in the header is emitted as an addition, which has the assignment's effect exactly when the
   variable is defined and adding the number to its value gives the number and changes nothing else.
   */
  lemma PlainAssignmentAdds(vm: Vm, x: string, n: real, w: World)
    ensures var e := Assign(x, Const(Num(n)));
      IncrementOf(Bare(e)).Some?
      && (S.Drop(Eval(vm, IncrementOf(Bare(e)).value, w)) == S.Drop(Eval(vm, e, w)) <==>
        && vm.Get(x, w).Some?
        && var r := vm.prim(ADD, [vm.Get(x, w).value, Num(n)], w);
        && r.Some? && r.value.0 == Num(n) && Set(r.value.1, x, Num(n)) == Set(w, x, Num(n)))
  {
    var e, inc := Assign(x, Const(Num(n))), Compound(OpAdd, x, Const(Num(n)));
    AssignedIncrements(x, n, TEqual);
    assert IncrementOf(Bare(e)) == Some(inc);
    assert Eval(vm, e, w) == Some((Num(n), Set(w, x, Num(n))));
    assert Eval(vm, inc.e, w) == Some((Num(n), w));
    if vm.Get(x, w).Some? {
      var r := vm.prim(ADD, [vm.Get(x, w).value, Num(n)], w);
      assert Eval(vm, inc, w) == Store(x, r);
      if r.Some? {
        var v, w1 := r.value.0, r.value.1;
        assert Set(w1, x, v).globals[x] == v && Set(w, x, Num(n)).globals[x] == Num(n);
      }
    }
  }

  /** In a machine that adds numbers it has that effect exactly on zero. */
  lemma PlainAssignmentFromZero(vm: Vm, x: string, a: real, n: real, w: World)
    requires vm.Get(x, w) == Some(Num(a)) && vm.prim(ADD, [Num(a), Num(n)], w) == Some((Num(a + n), w))
    ensures var e := Assign(x, Const(Num(n)));
      IncrementOf(Bare(e)).Some?
      && (S.Drop(Eval(vm, IncrementOf(Bare(e)).value, w)) == S.Drop(Eval(vm, e, w)) <==> a == 0.0)
  {
    hide IncrementOf, Eval, Bare;
    PlainAssignmentAdds(vm, x, n, w);
  }
}
