/** The emitters of pic.c as they run: the global `labelcount`, the output
    file and the diagnostic stream are the fields of one generator object,
    and every emitter appends to the output and advances the counter in
    place. Each method is proved to do exactly what its twin in CodeGen
    describes. */
module Pic {
  import opened Registry
  import opened Syntax
  import opened Asm
  import opened CodeGen
  import Properties

  class Generator {
    /** The next label id to hand out. */
    var labelcount: nat
    /** The lines written to the output file so far. */
    var out: seq<Instr>
    /** The "Variable missing!" lines printed so far. */
    var missing: nat

    /** The state after an emitter relative to the state before it: `e.code`
        was appended, the counter moved to `e.next`, `e.missing` diagnostics
        were added. */
    predicate Emitted(out0: seq<Instr>, missing0: nat, e: Emission)
      reads this
    {
      out == out0 + e.code && labelcount == e.next && missing == missing0 + e.missing
    }

    /** The start of a run: the counter is 1 and nothing is written yet. */
    constructor ()
      ensures labelcount == 1 && out == [] && missing == 0
    {
      labelcount := 1;
      out := [];
      missing := 0;
    }

    /** Hands out the current counter value and advances it. */
    method NextLabel() returns (id: nat)
      modifies this
      ensures id == old(labelcount) && labelcount == id + 1
      ensures out == old(out) && missing == old(missing)
    {
      id := labelcount;
      labelcount := labelcount + 1;
    }

    /** `label`: defines label `a`. */
    method EmitLabel(a: nat)
      modifies this
      ensures out == old(out) + [Label(a)]
      ensures labelcount == old(labelcount) && missing == old(missing)
    {
      out := out + [Label(a)];
    }

    /** `go`: jumps to label `a`. */
    method Go(a: nat)
      modifies this
      ensures out == old(out) + GoCode(a)
      ensures labelcount == old(labelcount) && missing == old(missing)
    {
      out := out + [Jump(a)];
      out := out + [Nop];
    }

    /** `writeVarConst` */
    method WriteVarConst(v: Option<VarBinding>, k: int)
      modifies this
      ensures Emitted(old(out), old(missing), ConstAssign(v, k, old(labelcount)))
    {
      if v.None? {
        missing := missing + 1;
        return;
      }
      var t := v.value;
      var bank := if k == 1 then Set else Clr;
      out := out + [Comment(Blank), Comment(AssignConst(t.name))];
      out := out + [Lui(R8, Lat(t.port, bank))];
      out := out + [Li(R9, t.mask)];
      out := out + [Sw(R9, Lat(t.port, bank))];
    }

    /** `writeVarVar`: `led` is the target, `sw` the source. */
    method WriteVarVar(led: Option<VarBinding>, sw: Option<VarBinding>)
      modifies this
      ensures Emitted(old(out), old(missing), VarAssign(led, sw, old(labelcount)))
    {
      if led.None? || sw.None? {
        missing := missing + 1;
        return;
      }
      var l, s := led.value, sw.value;
      out := out + [Comment(Blank), Comment(AssignVar(s.name, l.name))];
      out := out + ReadPort(s);
      var thenLabel := NextLabel();
      var elseLabel := NextLabel();
      var endLabel := NextLabel();
      out := out + [Bne(R9, thenLabel), Nop];
      out := out + LatchWrite(l, Clr);
      out := out + [Jump(endLabel), Nop];
      out := out + [Label(thenLabel)];
      out := out + LatchWrite(l, Set);
      out := out + [Label(endLabel)];
    }

    /** `generateDelay` */
    method GenerateDelay(delayValue: int)
      modifies this
      ensures Emitted(old(out), old(missing), DelayLoop(delayValue, old(labelcount)))
    {
      out := out + [Comment(Blank), Comment(DelayOf(delayValue))];
      out := out + [Li(R10, delayValue)];
      var delayLabel := NextLabel();
      out := out + [Label(delayLabel)];
      out := out + [Addi(R10, -1)];
      out := out + [Bne(R10, delayLabel), Nop];
    }

    /** `translate`: the tree walk. */
    method Translate(p: Node)
      requires WellFormed(p)
      modifies this
      ensures Emitted(old(out), old(missing), Gen(p, old(labelcount)))
      decreases p
    {
      match p
      case Const(_) =>
      case Var(_) =>
      case Block(cs) =>
        ghost var out0, count0, missing0 := out, labelcount, missing;
        for i := 0 to |cs|
          invariant Emitted(out0, missing0, GenSeq(cs[..i], count0))
        {
          assert cs[..i + 1][..i] == cs[..i];
          Translate(cs[i]);
        }
        assert cs[..|cs|] == cs;
      case Assign(cs) =>
        if cs[0].Const? {
          WriteVarConst(VarOf(cs[1]), cs[0].value);
        } else if cs[0].Var? {
          WriteVarVar(VarOf(cs[1]), cs[0].binding);
        }
      case Loop(cs) =>
        var loopLabel := NextLabel();
        EmitLabel(loopLabel);
        Translate(cs[0]);
        Go(loopLabel);
      case Delay(cs) =>
        GenerateDelay(cs[0].value);
      case If(cs) =>
        TranslateIf(cs);
    }

    /** The `tIf` case of `translate`: three labels taken as then, else and
        end before either branch is translated; the else branch (when there
        is one) falls through to a jump to end, the then branch follows its
        label. */
    method TranslateIf(cs: seq<Node>)
      requires WellFormed(If(cs))
      modifies this
      ensures Emitted(old(out), old(missing), GenIf(cs, old(labelcount)))
      decreases cs
    {
      ghost var out0, count0, missing0 := out, labelcount, missing;
      ghost var otherwise := if |cs| == 3 then Gen(cs[2], count0 + 3) else Emission([], count0 + 3, 0);
      var sw := cs[0].binding.value;
      var thenLabel := NextLabel();
      var elseLabel := NextLabel();
      var endLabel := NextLabel();
      out := out + IfHead(sw, thenLabel);
      ghost var out1 := out;
      if |cs| == 3 {
        Translate(cs[2]);
        Go(endLabel);
      } else {
        Go(endLabel);
        assert out1 + otherwise.code == out1;
      }
      assert out == out1 + otherwise.code + GoCode(endLabel);
      ghost var out2 := out;
      ghost var then_ := Gen(cs[1], otherwise.next);
      EmitLabel(thenLabel);
      Translate(cs[1]);
      EmitLabel(endLabel);
      ghost var h, o, g, t := IfHead(sw, count0), otherwise.code, GoCode(count0 + 2), then_.code;
      assert out == out0 + IfCode(sw, count0, otherwise, then_).code by {
        AppendAssoc(out0, h, o);
        AppendAssoc(out0, h + o, g);
        AppendAssoc(out0, h + o + g, [Label(count0)]);
        AppendAssoc(out0, h + o + g + [Label(count0)], t);
        AppendAssoc(out0, h + o + g + [Label(count0)] + t, [Label(count0 + 2)]);
      }
    }

    /** `initVars`: the four ports made digital, then one direction block
        per accessed variable of the registry. */
    method InitVars(variables: seq<VarBinding>)
      modifies this
      ensures out == old(out) + InitCode(variables)
      ensures labelcount == old(labelcount) && missing == old(missing)
    {
      out := out + DigitalBlock("A");
      out := out + DigitalBlock("B");
      out := out + DigitalBlock("D");
      out := out + DigitalBlock("F");
      ghost var head := out;
      assert head == old(out) + AnselCode() by {
        ghost var a, b, d, f := DigitalBlock("A"), DigitalBlock("B"), DigitalBlock("D"), DigitalBlock("F");
        AppendAssoc(old(out), a, b);
        AppendAssoc(old(out), a + b, d);
        AppendAssoc(old(out), a + b + d, f);
      }
      for i := 0 to |variables|
        invariant out == head + TrisCode(variables[..i])
        invariant labelcount == old(labelcount) && missing == old(missing)
      {
        var v := variables[i];
        ghost var before := out;
        if v.accessed != 0 {
          // an input gets its TRIS bit set, an output gets it cleared
          var bank := if v.isInput != 0 then Set else Clr;
          out := out + [Comment(Blank), Comment(InitVar(v.name)), Lui(R8, Tris(v.port, bank)), Li(R9, v.mask), Sw(R9, Tris(v.port, bank))];
        }
        assert out == before + TrisBlock(v);
        assert TrisCode(variables[..i + 1]) == TrisCode(variables[..i]) + TrisBlock(v) by {
          assert variables[..i + 1][..i] == variables[..i];
        }
        AppendAssoc(head, TrisCode(variables[..i]), TrisBlock(v));
      }
      assert variables[..|variables|] == variables;
      AppendAssoc(old(out), AnselCode(), TrisCode(variables));
    }

    /** The labelled part of `conclude`: the final endless loop. */
    method Conclude()
      modifies this
      ensures out == old(out) + ConcludeCode(old(labelcount))
      ensures labelcount == old(labelcount) + 1 && missing == old(missing)
    {
      var a := NextLabel();
      EmitLabel(a);
      Go(a);
    }
  }

  /** The order in which a run calls the emitters: counter set to 1, then
      `initVars`, `translate` of the root and `conclude`. The lines
      returned are the labelled output of the whole run, in which no label
      is defined twice and every jump and branch has its label; one
      diagnostic is printed per assignment with a NULL operand among those
      `translate` reaches. */
  method Compile(variables: seq<VarBinding>, root: Node) returns (code: seq<Instr>, diagnostics: nat)
    requires WellFormed(root)
    ensures code == Program(variables, root)
    ensures UniqueLabels(code) && Closed(code)
    ensures diagnostics == Missing(root)
  {
    var g := new Generator();
    g.InitVars(variables);
    g.Translate(root);
    g.Conclude();
    code, diagnostics := g.out, g.missing;
    Properties.ProgramLabels(variables, root);
    Properties.GenMissing(root, 1);
  }
}
