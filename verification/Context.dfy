/** Running code in a larger context: a run never looks at the frames below the one it starts in, nor at
    temporaries of that frame that its own code was not given. */
module Context {
  import opened Values
  import opened Store
  import opened Machine

  /** All frames, the innermost last. */
  function Frames(s: State): seq<Frame> { s.callers + [s.frame] }

  /** The frame with additional temporaries. */
  function Wider(f: Frame, extra: seq<Val>): Frame { f.(temps := f.temps + extra) }

  function Shifted(c: CellRef, n: nat): CellRef {
    if c.TmpRef? then TmpRef(c.depth + n, c.i) else c
  }

  function AllShifted(cs: seq<CellRef>, n: nat): seq<CellRef> {
    seq(|cs|, i requires 0 <= i < |cs| => Shifted(cs[i], n))
  }

  /** The same state with `below` under its call stack and `extra` temporaries in its outermost frame. */
  function Embed(s: State, below: seq<Frame>, extra: seq<Val>): State {
    if s.callers == [] then
      s.(frame := Wider(s.frame, extra), callers := below, args := AllShifted(s.args, |below|))
    else
      s.(callers := below + [Wider(s.callers[0], extra)] + s.callers[1..], args := AllShifted(s.args, |below|))
  }

  // ----- one step -----

  lemma EmbedRead(p: Program, s: State, o: Operand, below: seq<Frame>, extra: seq<Val>)
    requires ReadOp(p, s, o).Some?
    ensures ReadOp(p, Embed(s, below, extra), o) == ReadOp(p, s, o)
  {
  }

  lemma EmbedWrite(s: State, o: Operand, v: Val, below: seq<Frame>, extra: seq<Val>)
    requires s.status.Running? && !WriteOp(s, o, v).status.Wild?
    ensures WriteOp(Embed(s, below, extra), o, v) == Embed(WriteOp(s, o, v), below, extra)
  {
    if o.kind.FetchTmp? && s.callers == [] {
      var i := o.off.idx;
      assert (s.frame.temps + extra)[i := v] == s.frame.temps[i := v] + extra;
    }
  }

  lemma EmbedFrame(s: State, d: nat, below: seq<Frame>, extra: seq<Val>)
    requires d <= |s.callers|
    ensures |Embed(s, below, extra).callers| == |below| + |s.callers|
    ensures Frames(Embed(s, below, extra))[|below| + d] == if d == 0 then Wider(Frames(s)[0], extra) else Frames(s)[d]
  {
  }

  lemma EmbedLoad(p: Program, s: State, c: CellRef, below: seq<Frame>, extra: seq<Val>)
    requires Load(p, s, c).Some?
    ensures Load(p, Embed(s, below, extra), Shifted(c, |below|)) == Load(p, s, c)
  {
    if c.TmpRef? {
      EmbedFrame(s, c.depth, below, extra);
    }
  }

  lemma {:induction false} EmbedLoadAll(p: Program, s: State, cs: seq<CellRef>, below: seq<Frame>, extra: seq<Val>)
    requires LoadAll(p, s, cs).Some?
    ensures LoadAll(p, Embed(s, below, extra), AllShifted(cs, |below|)) == LoadAll(p, s, cs)
    decreases |cs|
  {
    if cs != [] {
      hide Load, Embed;
      EmbedLoad(p, s, cs[0], below, extra);
      EmbedLoadAll(p, s, cs[1..], below, extra);
      assert AllShifted(cs, |below|)[1..] == AllShifted(cs[1..], |below|);
    }
  }

  lemma EmbedPop(s: State, below: seq<Frame>, extra: seq<Val>)
    requires s.callers != []
    ensures Embed(s, below, extra).callers != []
    ensures Pop(Embed(s, below, extra)) == Embed(Pop(s), below, extra)
    ensures |Last(s.callers).temps| <= |Last(Embed(s, below, extra).callers).temps|
    ensures Embed(s, below, extra).frame == s.frame
  {
    var e := Embed(s, below, extra);
    assert e.callers == below + [Wider(s.callers[0], extra)] + s.callers[1..];
    if |s.callers| == 1 {
      assert Init(e.callers) == below;
    } else {
      assert Init(e.callers) == below + [Wider(s.callers[0], extra)] + Init(s.callers)[1..];
    }
  }

  lemma EmbedReturn(p: Program, s: State, i: IR, below: seq<Frame>, extra: seq<Val>)
    requires s.status.Running? && !StepReturn(p, s, i).status.Wild?
    ensures StepReturn(p, Embed(s, below, extra), i) == Embed(StepReturn(p, s, i), below, extra)
  {
    if s.frame.env != 0 {
      EmbedPop(s, below, extra);
      if !i.op1.kind.Unused? {
        EmbedRead(p, s, i.op1, below, extra);
        hide Embed;
        EmbedSet(Pop(s), s.frame.retTmp, ReadOp(p, s, i.op1).value, below, extra);
      }
    }
  }

  lemma EmbedSet(s: State, i: nat, v: Val, below: seq<Frame>, extra: seq<Val>)
    requires i < |s.frame.temps|
    ensures i < |Embed(s, below, extra).frame.temps|
    ensures SetTmp(Embed(s, below, extra), i, v) == Embed(SetTmp(s, i, v), below, extra)
  {
    if s.callers == [] {
      assert (s.frame.temps + extra)[i := v] == s.frame.temps[i := v] + extra;
    }
  }

  lemma EmbedCall(p: Program, s: State, i: IR, below: seq<Frame>, extra: seq<Val>)
    requires s.status.Running? && !StepCall(p, s, i).status.Wild?
    ensures StepCall(p, Embed(s, below, extra), i) == Embed(StepCall(p, s, i), below, extra)
  {
    EmbedRead(p, s, i.op1, below, extra);
    EmbedLoadAll(p, s, s.args, below, extra);
    var s1 := StepCall(p, s, i);
    var e := Embed(s, below, extra);
    assert AllShifted([], |below|) == [];
    if s1.callers == s.callers + [s.frame] {
      PushFrame(s, below, extra);
    }
  }

  lemma PushFrame(s: State, below: seq<Frame>, extra: seq<Val>)
    ensures var e := Embed(s, below, extra);
            e.callers + [e.frame] == below + [Wider((s.callers + [s.frame])[0], extra)] + (s.callers + [s.frame])[1..]
  {
  }

  lemma EmbedSend(p: Program, s: State, i: IR, below: seq<Frame>, extra: seq<Val>)
    requires s.status.Running? && !StepSend(p, s, i).status.Wild?
    ensures StepSend(p, Embed(s, below, extra), i) == Embed(StepSend(p, s, i), below, extra)
  {
    var c := RefOf(p, s, i.op1).value;
    EmbedFrame(s, |s.callers|, below, extra);
    assert AllShifted(s.args + [c], |below|) == AllShifted(s.args, |below|) + [Shifted(c, |below|)];
  }

  lemma EmbedDispatch(p: Program, s: State, v: Val, below: seq<Frame>, extra: seq<Val>)
    requires s.status.Running? && !Dispatch(p, s, v).status.Wild?
    ensures Dispatch(p, Embed(s, below, extra), v) == Embed(Dispatch(p, s, v), below, extra)
  {
    hide WriteOp;
    if s.tries != [] {
      var left := if Last(s.tries).phase > 1 then Init(s.tries) else s.tries;
      if left != [] {
        var s1 := s.(tries := left, exc := None, pc := Last(left).addr);
        EmbedWrite(s1, p.code[Last(left).addr].op1, v, below, extra);
      }
    }
  }

  /** The opcodes that write at most one or two operands of the current frame. */
  lemma EmbedAssign(p: Program, s: State, i: IR, below: seq<Frame>, extra: seq<Val>)
    requires s.status.Running? && !StepAssign(p, s, i).status.Wild?
    ensures StepAssign(p, Embed(s, below, extra), i) == Embed(StepAssign(p, s, i), below, extra)
  {
    hide ReadOp, WriteOp, Assignable;
    var v := ReadOp(p, s, i.op2);
    if v.Some? {
      EmbedRead(p, s, i.op2, below, extra);
      var s1 := WriteOp(s, i.op1, v.value);
      WildStays(s, i.op1, v.value);
      if Assignable(s.heap, s.frame.env, i.op1.off) == Some(true) {
        WildStays(s1, i.result, v.value);
        EmbedWrite(s, i.op1, v.value, below, extra);
        if !i.result.kind.Unused? {
          EmbedWrite(s1, i.result, v.value, below, extra);
        }
      }
    }
    EnvSame(s, below, extra);
  }

  lemma EnvSame(s: State, below: seq<Frame>, extra: seq<Val>)
    ensures var e := Embed(s, below, extra);
            && e.frame.env == s.frame.env && e.heap == s.heap && e.pc == s.pc && e.status == s.status
            && e.tries == s.tries && e.exc == s.exc
  {
  }

  /** A write leaves the state wild, or only changes a cell. */
  lemma WildStays(s: State, o: Operand, v: Val)
    ensures WriteOp(s, o, v).status == s.status || WriteOp(s, o, v).status.Wild?
    ensures s.status.Wild? ==> WriteOp(s, o, v).status.Wild?
  {
  }

  lemma EmbedApply(s: State, e: Effect, result: Operand, below: seq<Frame>, extra: seq<Val>)
    requires s.status.Running? && !Apply(s, e, result).status.Wild?
    ensures Apply(Embed(s, below, extra), e, result) == Embed(Apply(s, e, result), below, extra)
  {
    hide WriteOp;
    if e.Write? {
      EmbedWrite(s, result, e.v, below, extra);
    }
  }

  lemma EmbedOperator(p: Program, s: State, i: IR, below: seq<Frame>, extra: seq<Val>)
    requires i.op.BINARY? || i.op.COMPARE? || i.op.NOT? || i.op.BWNOT?
    requires s.status.Running? && !Execute(p, s, i).status.Wild?
    ensures Execute(p, Embed(s, below, extra), i) == Embed(Execute(p, s, i), below, extra)
  {
    hide ReadOp, Apply, Embed, Arith, Compare, Not, BwNot;
    EmbedRead(p, s, i.op1, below, extra);
    if i.op.BINARY? || i.op.COMPARE? {
      EmbedRead(p, s, i.op2, below, extra);
      var a, b := ReadOp(p, s, i.op1).value, ReadOp(p, s, i.op2).value;
      EmbedApply(s, if i.op.BINARY? then Arith(i.op.bin, a, b) else Compare(i.op.cmp, a, b), i.result, below, extra);
    } else {
      var a := ReadOp(p, s, i.op1).value;
      EmbedApply(s, if i.op.NOT? then Not(a) else BwNot(a), i.result, below, extra);
    }
  }

  lemma EmbedIncDec(p: Program, s: State, i: IR, op: Step1, below: seq<Frame>, extra: seq<Val>)
    requires s.status.Running? && !StepIncDec(p, s, i, op).status.Wild?
    ensures StepIncDec(p, Embed(s, below, extra), i, op) == Embed(StepIncDec(p, s, i, op), below, extra)
  {
    hide ReadOp, WriteOp, Stepped;
    EmbedRead(p, s, i.op1, below, extra);
    var v := ReadOp(p, s, i.op1).value;
    var eff := Stepped(op, v);
    if eff.Write? {
      var w := eff.v;
      var s1 := WriteOp(s, i.op1, w);
      WildStays(s, i.op1, w);
      WildStays(s1, i.result, if IsPre(op) then w else v);
      EmbedWrite(s, i.op1, w, below, extra);
      EmbedWrite(s1, i.result, if IsPre(op) then w else v, below, extra);
    } else if eff.Raise? {
      EmbedWrite(s, i.result, v, below, extra);
    }
  }

  lemma EmbedTest(p: Program, s: State, i: IR, below: seq<Frame>, extra: seq<Val>)
    requires i.op.JMPZ? || i.op.JMPNZ? || i.op.AND? || i.op.OR?
    requires s.status.Running? && !Execute(p, s, i).status.Wild?
    ensures Execute(p, Embed(s, below, extra), i) == Embed(Execute(p, s, i), below, extra)
  {
    hide ReadOp, WriteOp;
    EmbedRead(p, s, i.op1, below, extra);
    var v := ReadOp(p, s, i.op1).value;
    if i.op.AND? || i.op.OR? {
      if i.op.AND? || Truthy(v) {
        EmbedWrite(s, i.result, if Truthy(v) then v else Null, below, extra);
      }
    } else if !i.result.kind.Unused? {
      EmbedWrite(s, i.result, Bool(Truthy(v)), below, extra);
    }
  }

  lemma EmbedExecute(p: Program, s: State, i: IR, below: seq<Frame>, extra: seq<Val>)
    requires s.status.Running? && !Execute(p, s, i).status.Wild?
    ensures Execute(p, Embed(s, below, extra), i) == Embed(Execute(p, s, i), below, extra)
  {
    hide ReadOp, WriteOp, StepReturn, StepAssign, StepIncDec, StepSend, StepCall, StepBranch, StepAnd, StepOr,
      StepBinary,
         StepCompare, StepUnary;
    match i.op
    case RET => EmbedReturn(p, s, i, below, extra);
    case ASSIGN => EmbedAssign(p, s, i, below, extra);
    case FCALL => EmbedCall(p, s, i, below, extra);
    case LEAVE => EmbedPop(s, below, extra);
    case SENDVAL => EmbedSend(p, s, i, below, extra);
    case INCDEC(op) => EmbedIncDec(p, s, i, op, below, extra);
    case THROW => EmbedRead(p, s, i.op1, below, extra);
    case _ =>
      if i.op.BINARY? || i.op.COMPARE? || i.op.NOT? || i.op.BWNOT? {
        EmbedOperator(p, s, i, below, extra);
      } else if i.op.JMPZ? || i.op.JMPNZ? || i.op.AND? || i.op.OR? {
        EmbedTest(p, s, i, below, extra);
      }
  }

  lemma EmbedStep(p: Program, s: State, below: seq<Frame>, extra: seq<Val>)
    requires !Step(p, s).status.Wild?
    ensures Step(p, Embed(s, below, extra)) == Embed(Step(p, s), below, extra)
  {
    hide Embed, Execute, Dispatch;
    EnvSame(s, below, extra);
    if s.status.Running? {
      if s.exc.Some? {
        EmbedDispatch(p, s, s.exc.value, below, extra);
      } else if s.pc < |p.code| {
        EmbedExecute(p, s, p.code[s.pc], below, extra);
      }
    }
  }

  // ----- runs -----

  lemma {:induction false} WildForever(p: Program, s: State, n: nat)
    requires s.status.Wild?
    ensures Steps(p, s, n) == s
  {
    StoppedStays(p, s, n);
  }

  /** A run in a larger context is the run, in the larger context: frames below the first one and temporaries it
      did not have are neither read nor written. */
  lemma {:induction false} EmbedSteps(p: Program, s: State, n: nat, below: seq<Frame>, extra: seq<Val>)
    requires !Steps(p, s, n).status.Wild?
    ensures Steps(p, Embed(s, below, extra), n) == Embed(Steps(p, s, n), below, extra)
    decreases n
  {
    if n > 0 {
      hide Embed, Step;
      if Step(p, s).status.Wild? {
        WildForever(p, Step(p, s), n - 1);
      }
      EmbedStep(p, s, below, extra);
      EmbedSteps(p, Step(p, s), n - 1, below, extra);
    }
  }

  /** The part of a state that a fragment with `top` temporaries can see. */
  function Alone(s: State, top: nat): State
    requires top <= |s.frame.temps|
  {
    s.(callers := [], frame := s.frame.(temps := s.frame.temps[..top]))
  }

  lemma AloneEmbeds(s: State, top: nat)
    requires top <= |s.frame.temps| && s.args == []
    ensures Embed(Alone(s, top), s.callers, s.frame.temps[top..]) == s
  {
    assert s.frame.temps[..top] + s.frame.temps[top..] == s.frame.temps;
    assert AllShifted([], |s.callers|) == [];
  }
}
