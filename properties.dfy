/** What the generated code is guaranteed to look like: how far each
    construct moves the label counter, that the labels a construct defines
    come from the range it allocated and are defined once, that every jump
    and branch it emits lands on one of its own labels, the layout of each
    construct, and what `initVars` configures. */
module Properties {
  import opened Registry
  import opened Syntax
  import opened Asm
  import opened CodeGen

  // ---------------------------------------------------------------------
  // Counter accounting

  /** Translating a tree moves the counter by exactly the number of labels
      the tree allocates. */
  lemma {:induction false} GenAdvances(p: Node, c: nat)
    requires WellFormed(p)
    ensures Gen(p, c).next == c + Allocated(p)
    decreases p
  {
    match p
    case Const(_) =>
    case Var(_) =>
    case Block(cs) => GenSeqAdvances(cs, c);
    case Assign(cs) =>
    case Loop(cs) => GenAdvances(cs[0], c + 1);
    case Delay(_) =>
    case If(cs) =>
      if |cs| == 3 {
        GenAdvances(cs[2], c + 3);
        GenAdvances(cs[1], c + 3 + Allocated(cs[2]));
      } else {
        GenAdvances(cs[1], c + 3);
      }
  }

  /** A block allocates the sum of what its statements allocate. */
  lemma {:induction false} GenSeqAdvances(ps: seq<Node>, c: nat)
    requires forall q <- ps :: WellFormed(q)
    ensures GenSeq(ps, c).next == c + AllocatedSeq(ps)
    decreases ps
  {
    if ps != [] {
      var front := ps[..|ps| - 1];
      GenSeqAdvances(front, c);
      GenAdvances(ps[|ps| - 1], c + AllocatedSeq(front));
    }
  }

  /** One "Variable missing!" line per assignment with a NULL operand
      among the assignments `translate` reaches (see `Allocated`). */
  lemma {:induction false} GenMissing(p: Node, c: nat)
    requires WellFormed(p)
    ensures Gen(p, c).missing == Missing(p)
    decreases p
  {
    match p
    case Const(_) =>
    case Var(_) =>
    case Block(cs) => GenSeqMissing(cs, c);
    case Assign(cs) =>
    case Loop(cs) => GenMissing(cs[0], c + 1);
    case Delay(_) =>
    case If(cs) =>
      var otherwise := if |cs| == 3 then Gen(cs[2], c + 3) else Emission([], c + 3, 0);
      if |cs| == 3 {
        GenMissing(cs[2], c + 3);
      }
      GenMissing(cs[1], otherwise.next);
  }

  lemma {:induction false} GenSeqMissing(ps: seq<Node>, c: nat)
    requires forall q <- ps :: WellFormed(q)
    ensures GenSeq(ps, c).missing == MissingSeq(ps)
    decreases ps
  {
    if ps != [] {
      var front := ps[..|ps| - 1];
      GenSeqMissing(front, c);
      GenMissing(ps[|ps| - 1], GenSeq(front, c).next);
    }
  }

  // ---------------------------------------------------------------------
  // Labels

  /** The code of a tree translated with the counter at `c` defines labels only in
      [c, next), each once, and jumps and branches only to its own labels. */
  lemma {:induction false} GenLabels(p: Node, c: nat)
    requires WellFormed(p)
    ensures c <= Gen(p, c).next
    ensures Fragment(Gen(p, c).code, c, Gen(p, c).next)
    decreases p
  {
    match p
    case Const(_) => StraightLineFacts([]);
    case Var(_) => StraightLineFacts([]);
    case Block(cs) => GenSeqLabels(cs, c);
    case Assign(cs) =>
      if cs[0].Const? {
        ConstAssignLabels(VarOf(cs[1]), cs[0].value, c);
      } else if cs[0].Var? {
        VarAssignLabels(VarOf(cs[1]), cs[0].binding, c);
      } else {
        StraightLineFacts([]);
      }
    case Loop(cs) => LoopLabels(cs, c);
    case Delay(cs) => DelayLabels(cs[0].value, c);
    case If(cs) => IfLabels(cs, c);
  }

  lemma {:induction false} GenSeqLabels(ps: seq<Node>, c: nat)
    requires forall q <- ps :: WellFormed(q)
    ensures c <= GenSeq(ps, c).next
    ensures Fragment(GenSeq(ps, c).code, c, GenSeq(ps, c).next)
    decreases ps
  {
    if ps == [] {
      StraightLineFacts([]);
    } else {
      var front := GenSeq(ps[..|ps| - 1], c);
      GenSeqLabels(ps[..|ps| - 1], c);
      var last := Gen(ps[|ps| - 1], front.next);
      GenLabels(ps[|ps| - 1], front.next);
      FragmentConcat(front.code, last.code, c, front.next, last.next);
    }
  }

  /** An assignment of a constant is straight-line code. */
  lemma ConstAssignLabels(v: Option<VarBinding>, k: int, c: nat)
    ensures StraightLine(ConstAssign(v, k, c).code)
    ensures ConstAssign(v, k, c).next == c
    ensures Fragment(ConstAssign(v, k, c).code, c, c)
  {
    StraightLineFacts(ConstAssign(v, k, c).code);
  }

  /** A variable-to-variable assignment defines the then and end labels
      `c` and `c + 2` and branches to exactly those; the else label
      `c + 1` is allocated but never used. */
  lemma VarAssignLabels(led: Option<VarBinding>, sw: Option<VarBinding>, c: nat)
    ensures c <= VarAssign(led, sw, c).next
    ensures Fragment(VarAssign(led, sw, c).code, c, VarAssign(led, sw, c).next)
    ensures led.Some? && sw.Some? ==>
      Defs(VarAssign(led, sw, c).code) == {c, c + 2} == Targets(VarAssign(led, sw, c).code)
  {
    if led.Some? && sw.Some? {
      var l, s := led.value, sw.value;
      var s1 := [Comment(Blank), Comment(AssignVar(s.name, l.name))] + ReadPort(s);
      var b1: seq<Instr> := [Bne(R9, c), Nop];
      var w0, g, w1 := LatchWrite(l, Clr), GoCode(c + 2), LatchWrite(l, Set);
      StraightLineFacts(s1);
      BranchFacts(b1, c);
      StraightLineFacts(w0);
      BranchFacts(g, c + 2);
      LabelFacts(c);
      StraightLineFacts(w1);
      LabelFacts(c + 2);
      Join(s1, b1);
      Join(s1 + b1, w0);
      Join(s1 + b1 + w0, g);
      Join(s1 + b1 + w0 + g, [Label(c)]);
      Join(s1 + b1 + w0 + g + [Label(c)], w1);
      Join(s1 + b1 + w0 + g + [Label(c)] + w1, [Label(c + 2)]);
    } else {
      StraightLineFacts([]);
    }
  }

  /** A delay defines the label `c` and branches back to it. */
  lemma DelayLabels(amount: int, c: nat)
    ensures DelayLoop(amount, c).next == c + 1
    ensures Fragment(DelayLoop(amount, c).code, c, c + 1)
    ensures Defs(DelayLoop(amount, c).code) == {c} == Targets(DelayLoop(amount, c).code)
  {
    var s1: seq<Instr> := [Comment(Blank), Comment(DelayOf(amount)), Li(R10, amount)];
    var s2: seq<Instr> := [Addi(R10, -1)];
    var b1: seq<Instr> := [Bne(R10, c), Nop];
    StraightLineFacts(s1);
    LabelFacts(c);
    StraightLineFacts(s2);
    BranchFacts(b1, c);
    Join(s1, [Label(c)]);
    Join(s1 + [Label(c)], s2);
    Join(s1 + [Label(c)] + s2, b1);
    assert DelayLoop(amount, c).code == s1 + [Label(c)] + s2 + b1;
  }

  /** A loop defines its own label `c` in front of its body's labels and
      jumps back to it. */
  lemma {:induction false} LoopLabels(cs: seq<Node>, c: nat)
    requires WellFormed(Loop(cs))
    ensures c <= Gen(Loop(cs), c).next
    ensures Fragment(Gen(Loop(cs), c).code, c, Gen(Loop(cs), c).next)
    decreases cs
  {
    var body := Gen(cs[0], c + 1);
    GenLabels(cs[0], c + 1);
    LabelFacts(c);
    BranchFacts(GoCode(c), c);
    Join([Label(c)], body.code);
    Join([Label(c)] + body.code, GoCode(c));
  }

  /** An `If` defines its then and end labels `c` and `c + 2` around
      its branches, whose labels all lie above `c + 2`; the else label
      `c + 1` is allocated but never used. */
  lemma {:induction false} IfLabels(cs: seq<Node>, c: nat)
    requires WellFormed(If(cs))
    ensures c <= GenIf(cs, c).next
    ensures Fragment(GenIf(cs, c).code, c, GenIf(cs, c).next)
    decreases cs
  {
    var otherwise := if |cs| == 3 then Gen(cs[2], c + 3) else Emission([], c + 3, 0);
    if |cs| == 3 {
      GenLabels(cs[2], c + 3);
    } else {
      StraightLineFacts([]);
    }
    GenLabels(cs[1], otherwise.next);
    IfCodeLabels(cs[0].binding.value, c, otherwise, Gen(cs[1], otherwise.next));
  }

  /** The `If` layout around two branch fragments over adjacent ranges
      that start above its own three labels. */
  lemma IfCodeLabels(sw: VarBinding, c: nat, otherwise: Emission, then_: Emission)
    requires c + 3 <= otherwise.next <= then_.next
    requires Fragment(otherwise.code, c + 3, otherwise.next)
    requires Fragment(then_.code, otherwise.next, then_.next)
    ensures Fragment(IfCode(sw, c, otherwise, then_).code, c, then_.next)
    ensures Defs(IfCode(sw, c, otherwise, then_).code) == {c, c + 2} + Defs(otherwise.code) + Defs(then_.code)
  {
    var o, t := otherwise.code, then_.code;
    var do, dt := Defs(o), Defs(t);
    assert c !in do && c + 2 !in do && c !in dt && c + 2 !in dt;
    assert do !! dt by {
      forall n | n in dt ensures n !in do {}
    }
    var x3 := IfHead(sw, c) + o + GoCode(c + 2);
    IfOpeningLabels(sw, c, o);
    IfClosingLabels(x3, c, t);
    var code := IfCode(sw, c, otherwise, then_).code;
    assert code == x3 + [Label(c)] + t + [Label(c + 2)];
    forall n | n in Defs(code) ensures c <= n < then_.next {
      assert n in {c, c + 2} || n in do || n in dt;
    }
  }

  /** The then label, the then branch and the end label after the opening. */
  lemma IfClosingLabels(x3: seq<Instr>, c: nat, t: seq<Instr>)
    requires UniqueLabels(x3) && UniqueLabels(t) && Defs(x3) !! Defs(t)
    requires c !in Defs(x3) && c + 2 !in Defs(x3) && c !in Defs(t) && c + 2 !in Defs(t)
    ensures Defs(x3 + [Label(c)] + t + [Label(c + 2)]) == {c, c + 2} + Defs(x3) + Defs(t)
    ensures Targets(x3 + [Label(c)] + t + [Label(c + 2)]) == Targets(x3) + Targets(t)
    ensures UniqueLabels(x3 + [Label(c)] + t + [Label(c + 2)])
  {
    var x4 := x3 + [Label(c)];
    assert Defs(x4) == {c} + Defs(x3) && Targets(x4) == Targets(x3) && UniqueLabels(x4) by {
      LabelFacts(c);
      Join(x3, [Label(c)]);
    }
    var x5 := x4 + t;
    assert Defs(x5) == {c} + Defs(x3) + Defs(t) && Targets(x5) == Targets(x3) + Targets(t) && UniqueLabels(x5) by {
      Join(x4, t);
    }
    LabelFacts(c + 2);
    Join(x5, [Label(c + 2)]);
  }

  /** The test, the else branch and its jump to the end: the branch's own
      labels, and targets the then label, the end label and the branch's. */
  lemma IfOpeningLabels(sw: VarBinding, c: nat, o: seq<Instr>)
    requires UniqueLabels(o)
    ensures Defs(IfHead(sw, c) + o + GoCode(c + 2)) == Defs(o)
    ensures Targets(IfHead(sw, c) + o + GoCode(c + 2)) == {c, c + 2} + Targets(o)
    ensures UniqueLabels(IfHead(sw, c) + o + GoCode(c + 2))
  {
    var s1 := [Comment(Blank), Comment(IfOn(sw.name))] + ReadPort(sw);
    var b1: seq<Instr> := [Bne(R9, c), Nop];
    var g := GoCode(c + 2);
    var x1 := s1 + b1;
    assert IfHead(sw, c) == x1;
    assert Defs(x1) == {} && Targets(x1) == {c} && UniqueLabels(x1) by {
      StraightLineFacts(s1);
      BranchFacts(b1, c);
      Join(s1, b1);
    }
    var x2 := x1 + o;
    assert Defs(x2) == Defs(o) && Targets(x2) == {c} + Targets(o) && UniqueLabels(x2) by {
      Join(x1, o);
    }
    BranchFacts(g, c + 2);
    Join(x2, g);
  }

  // ---------------------------------------------------------------------
  // Layout of each construct

  /** A triple that writes into one register stores into it once. */
  lemma StoresTriple(x: Instr, y: Instr, r: Reg, s: Sym)
    requires !x.Sw? && !y.Sw?
    ensures Stores([x, y, Sw(r, s)]) == [s]
  {
    StoresNone([x, y]);
    StoresSnoc([x, y], Sw(r, s));
    assert [x, y] + [Sw(r, s)] == [x, y, Sw(r, s)];
  }

  /** An assignment of a constant takes no label. With a NULL target it
      writes nothing and reports the missing variable; otherwise it writes
      two comment lines and one lui/li/sw triple that stores the target's
      mask into its latch: the set alias when the constant is 1, the clear
      alias for every other constant, 2 and negative ones included. */
  lemma ConstAssignment(k: int, target: Node, c: nat)
    ensures Gen(Assign([Const(k), target]), c).next == c
    ensures StraightLine(Gen(Assign([Const(k), target]), c).code)
    ensures VarOf(target).None? ==>
      Gen(Assign([Const(k), target]), c).code == [] && Gen(Assign([Const(k), target]), c).missing == 1
    ensures VarOf(target).Some? ==>
      var e, t := Gen(Assign([Const(k), target]), c), VarOf(target).value;
      && e.missing == 0
      && |e.code| == 5 && e.code[..2] == [Comment(Blank), Comment(AssignConst(t.name))]
      && e.code[2..] == [Lui(R8, Lat(t.port, ConstBank(k))), Li(R9, t.mask), Sw(R9, Lat(t.port, ConstBank(k)))]
      && Stores(e.code) == [Lat(t.port, ConstBank(k))]
  {
    var e := Gen(Assign([Const(k), target]), c);
    if VarOf(target).Some? {
      var t := VarOf(target).value;
      var x, y := Lui(R8, Lat(t.port, ConstBank(k))), Li(R9, t.mask);
      var cm := [Comment(Blank), Comment(AssignConst(t.name))];
      StoresNone(cm);
      StoresTriple(x, y, R9, Lat(t.port, ConstBank(k)));
      StoresConcat(cm, [x, y, Sw(R9, Lat(t.port, ConstBank(k)))]);
      assert e.code == cm + [x, y, Sw(R9, Lat(t.port, ConstBank(k)))];
    }
  }

  /** An assignment from a variable with a NULL operand writes nothing,
      takes no label and reports the missing variable. */
  lemma VarAssignmentMissing(source: Option<VarBinding>, target: Node, c: nat)
    requires source.None? || VarOf(target).None?
    ensures Gen(Assign([Var(source), target]), c) == Emission([], c, 1)
  {
  }

  /** An assignment from a variable with both operands present: it reads
      the source's bit, branches to the then label `c` when the bit is set,
      otherwise clears the target and jumps to the end label `c + 2`; at
      `c` it sets the target. It takes three labels and never mentions the
      else label `c + 1`. */
  lemma VarAssignment(source: VarBinding, target: Node, c: nat)
    requires VarOf(target).Some?
    ensures
      var e, l := Gen(Assign([Var(Some(source)), target]), c), VarOf(target).value;
      && e.next == c + 3 && e.missing == 0
      && |e.code| == 17
      && e.code[..2] == [Comment(Blank), Comment(AssignVar(source.name, l.name))]
      && e.code[2..5] == [Lui(R8, PortIn(source.port)), Lw(R9, PortIn(source.port)), Andi(R9, source.mask)]
      && e.code[5..7] == [Bne(R9, c), Nop]
      && e.code[7..10] == [Lui(R8, Lat(l.port, Clr)), Li(R9, l.mask), Sw(R9, Lat(l.port, Clr))]
      && e.code[10..13] == [Jump(c + 2), Nop, Label(c)]
      && e.code[13..16] == [Lui(R8, Lat(l.port, Set)), Li(R9, l.mask), Sw(R9, Lat(l.port, Set))]
      && e.code[16] == Label(c + 2)
  {
    var e, l := Gen(Assign([Var(Some(source)), target]), c), VarOf(target).value;
    assert e == VarAssign(Some(l), Some(source), c);
    assert e.code == [
      Comment(Blank), Comment(AssignVar(source.name, l.name)),
      Lui(R8, PortIn(source.port)), Lw(R9, PortIn(source.port)), Andi(R9, source.mask),
      Bne(R9, c), Nop,
      Lui(R8, Lat(l.port, Clr)), Li(R9, l.mask), Sw(R9, Lat(l.port, Clr)),
      Jump(c + 2), Nop, Label(c),
      Lui(R8, Lat(l.port, Set)), Li(R9, l.mask), Sw(R9, Lat(l.port, Set)),
      Label(c + 2)];
  }

  /** The labels of an assignment from a variable with both operands
      present: it defines and targets exactly the then and end labels, and
      never mentions the else label `c + 1`. */
  lemma VarAssignmentRange(source: VarBinding, target: Node, c: nat)
    requires VarOf(target).Some?
    ensures
      var e := Gen(Assign([Var(Some(source)), target]), c);
      && Fragment(e.code, c, c + 3)
      && Defs(e.code) == {c, c + 2} == Targets(e.code)
      && c + 1 !in Defs(e.code) + Targets(e.code)
  {
    VarAssignLabels(VarOf(target), Some(source), c);
  }

  /** The two stores of a variable-to-variable assignment: the target's
      clear alias on the fall-through path, then its set alias. */
  lemma VarAssignmentStores(source: VarBinding, target: Node, c: nat)
    requires VarOf(target).Some?
    ensures
      var e, l := Gen(Assign([Var(Some(source)), target]), c), VarOf(target).value;
      Stores(e.code) == [Lat(l.port, Clr), Lat(l.port, Set)]
  {
    var e, l := Gen(Assign([Var(Some(source)), target]), c), VarOf(target).value;
    var a := [Comment(Blank), Comment(AssignVar(source.name, l.name))] + ReadPort(source) + [Bne(R9, c), Nop];
    var w0 := LatchWrite(l, Clr);
    var m := GoCode(c + 2) + [Label(c)];
    var w1 := LatchWrite(l, Set);
    assert e.code == a + w0 + m + w1 + [Label(c + 2)];
    StoresNone(a);
    StoresTriple(w0[0], w0[1], R9, Lat(l.port, Clr));
    assert w0 == [w0[0], w0[1], Sw(R9, Lat(l.port, Clr))];
    StoresNone(m);
    StoresTriple(w1[0], w1[1], R9, Lat(l.port, Set));
    assert w1 == [w1[0], w1[1], Sw(R9, Lat(l.port, Set))];
    StoresConcat(a, w0);
    StoresConcat(a + w0, m);
    StoresConcat(a + w0 + m, w1);
    StoresSnoc(a + w0 + m + w1, Label(c + 2));
  }

  /** A delay loads the constant into `$10`, then counts it down around its
      one label until it reaches zero. */
  lemma DelayShape(amount: int, c: nat)
    ensures
      var e := Gen(Delay([Const(amount)]), c);
      && e.next == c + 1 && e.missing == 0
      && |e.code| == 7 && e.code[..2] == [Comment(Blank), Comment(DelayOf(amount))]
      && e.code[2..] == [Li(R10, amount), Label(c), Addi(R10, -1), Bne(R10, c), Nop]
      && Fragment(e.code, c, c + 1)
      && Defs(e.code) == {c} == Targets(e.code)
  {
    DelayLabels(amount, c);
  }

  /** A loop takes its label first, so the body is translated with the counter at `c + 1`
      and never defines `c`; the body is followed by the jump back. */
  lemma LoopShape(body: Node, c: nat)
    requires WellFormed(body)
    ensures
      var e, b := Gen(Loop([body]), c), Gen(body, c + 1);
      && e.code == [Label(c)] + b.code + [Jump(c), Nop]
      && e.next == b.next == c + 1 + Allocated(body)
      && e.missing == b.missing
      && c !in Defs(b.code)
      && Fragment(e.code, c, e.next)
  {
    GenAdvances(body, c + 1);
    GenLabels(body, c + 1);
    LoopLabels([body], c);
  }

  /** The test an `If` opens with: two comment lines, the condition's bit
      read from its port, and a branch to the then label `c` when it is set. */
  lemma IfHeadShape(sw: VarBinding, c: nat)
    ensures IfHead(sw, c)[..2] == [Comment(Blank), Comment(IfOn(sw.name))]
    ensures IfHead(sw, c)[2..] == [Lui(R8, PortIn(sw.port)), Lw(R9, PortIn(sw.port)), Andi(R9, sw.mask), Bne(R9, c), Nop]
  {
  }

  /** An `If` takes its three labels before translating either branch: the
      else branch (when there is one) comes from `c + 3` and the then
      branch after it. The test branches to the then label `c` when the
      condition's bit is set; the else branch falls through to a jump to
      the end label `c + 2`. */
  lemma IfShape(cs: seq<Node>, c: nat)
    requires WellFormed(If(cs))
    ensures
      var e, sw := Gen(If(cs), c), cs[0].binding.value;
      var o := if |cs| == 3 then Gen(cs[2], c + 3) else Emission([], c + 3, 0);
      var t := Gen(cs[1], o.next);
      && e.code == IfHead(sw, c) + o.code + [Jump(c + 2), Nop, Label(c)] + t.code + [Label(c + 2)]
      && o.next == c + 3 + (if |cs| == 3 then Allocated(cs[2]) else 0)
      && e.next == o.next + Allocated(cs[1])
      && e.missing == o.missing + t.missing
  {
    var sw := cs[0].binding.value;
    var o := if |cs| == 3 then Gen(cs[2], c + 3) else Emission([], c + 3, 0);
    if |cs| == 3 {
      GenAdvances(cs[2], c + 3);
    }
    GenAdvances(cs[1], o.next);
    var t := Gen(cs[1], o.next);
    var h := IfHead(sw, c) + o.code;
    assert Gen(If(cs), c) == IfCode(sw, c, o, t);
    assert GoCode(c + 2) + [Label(c)] == [Jump(c + 2), Nop, Label(c)];
    AppendAssoc(h, GoCode(c + 2), [Label(c)]);
  }

  /** The labels of an `If`: its own then and end labels `c` and `c + 2`
      and those of its branches, which all lie above `c + 2`; the else
      label `c + 1` is neither defined nor targeted. */
  lemma IfLabelRange(cs: seq<Node>, c: nat)
    requires WellFormed(If(cs))
    ensures
      var e := Gen(If(cs), c);
      var o := if |cs| == 3 then Gen(cs[2], c + 3) else Emission([], c + 3, 0);
      var t := Gen(cs[1], o.next);
      && Defs(e.code) == {c, c + 2} + Defs(o.code) + Defs(t.code)
      && (forall n <- Defs(o.code) + Defs(t.code) :: c + 2 < n)
      && c + 1 !in Defs(e.code) + Targets(e.code)
      && Fragment(e.code, c, e.next)
  {
    var o := if |cs| == 3 then Gen(cs[2], c + 3) else Emission([], c + 3, 0);
    var t := Gen(cs[1], o.next);
    if |cs| == 3 {
      GenLabels(cs[2], c + 3);
    } else {
      StraightLineFacts([]);
    }
    GenLabels(cs[1], o.next);
    IfCodeLabels(cs[0].binding.value, c, o, t);
  }

  /** Translating "assign 1 to a missing variable" ahead of any statement
      only adds the diagnostic: the output and the counter are those of the
      statement alone. */
  lemma MissingVariableScenario(s: Node, c: nat)
    requires WellFormed(s)
    ensures Gen(Block([Assign([Const(1), Var(None)]), s]), c).code == Gen(s, c).code
    ensures Gen(Block([Assign([Const(1), Var(None)]), s]), c).next == Gen(s, c).next
    ensures Gen(Block([Assign([Const(1), Var(None)]), s]), c).missing == Gen(s, c).missing + 1
  {
    var a := Assign([Const(1), Var(None)]);
    assert [a, s][..1] == [a];
    assert [a][..0] == [];
    assert GenSeq([a], c) == Emission([], c, 1);
    assert GenSeq([a, s], c) == Emission([] + Gen(s, c).code, Gen(s, c).next, 1 + Gen(s, c).missing);
  }

  // ---------------------------------------------------------------------
  // initVars

  /** The variables of a registry the program uses, in registry order. */
  function AccessedVars(vs: seq<VarBinding>): seq<VarBinding>
    decreases |vs|
  {
    if vs == [] then []
    else AccessedVars(vs[..|vs| - 1]) + (if IsAccessed(vs[|vs| - 1]) then [vs[|vs| - 1]] else [])
  }

  /** The used variables are exactly the registry's variables that are
      used, and there are no more of them than variables. */
  lemma {:induction false} AccessedVarsMembers(vs: seq<VarBinding>)
    ensures |AccessedVars(vs)| <= |vs|
    ensures forall i :: 0 <= i < |AccessedVars(vs)| ==> IsAccessed(AccessedVars(vs)[i])
    ensures forall v :: v in AccessedVars(vs) <==> v in vs && IsAccessed(v)
    decreases |vs|
  {
    if vs != [] {
      var front := vs[..|vs| - 1];
      AccessedVarsMembers(front);
      assert vs == front + [vs[|vs| - 1]];
    }
  }

  /** Unused variables leave no trace: the direction code of a registry is
      that of its used variables alone. */
  lemma {:induction false} TrisSkipsUnused(vs: seq<VarBinding>)
    ensures TrisCode(vs) == TrisCode(AccessedVars(vs))
    decreases |vs|
  {
    if vs != [] {
      var front, v := vs[..|vs| - 1], vs[|vs| - 1];
      TrisSkipsUnused(front);
      var a := AccessedVars(front);
      if IsAccessed(v) {
        assert (a + [v])[..|a + [v]| - 1] == a;
        assert (a + [v])[|a + [v]| - 1] == v;
        assert TrisCode(a + [v]) == TrisCode(a) + TrisBlock(v);
      } else {
        assert AccessedVars(vs) == a + [] == a;
        assert TrisBlock(v) == [];
      }
    }
  }

  /** For used variables only, one five-line block per variable, in
      order: the two comment lines, then the variable's mask stored into
      its direction alias. */
  lemma {:induction false} TrisLayout(vs: seq<VarBinding>)
    requires forall i :: 0 <= i < |vs| ==> IsAccessed(vs[i])
    ensures |TrisCode(vs)| == 5 * |vs|
    ensures forall i :: 0 <= i < |vs| ==>
      TrisCode(vs)[5 * i .. 5 * i + 5] ==
        [Comment(Blank), Comment(InitVar(vs[i].name)), Lui(R8, Direction(vs[i])), Li(R9, vs[i].mask), Sw(R9, Direction(vs[i]))]
    decreases |vs|
  {
    if vs != [] {
      var front := vs[..|vs| - 1];
      TrisLayout(front);
      var code, head, last := TrisCode(vs), TrisCode(front), TrisBlock(vs[|vs| - 1]);
      assert code == head + last;
      assert |last| == 5;
      forall i | 0 <= i < |vs|
        ensures code[5 * i .. 5 * i + 5] ==
          [Comment(Blank), Comment(InitVar(vs[i].name)), Lui(R8, Direction(vs[i])), Li(R9, vs[i].mask), Sw(R9, Direction(vs[i]))]
      {
        SliceConcat(head, last, 5 * i, 5 * i + 5);
        if i < |front| {
          assert front[i] == vs[i];
        } else {
          assert code[5 * i .. 5 * i + 5] == last;
        }
      }
    }
  }

  /** The direction code has no labels, jumps or branches. */
  lemma {:induction false} TrisStraight(vs: seq<VarBinding>)
    ensures StraightLine(TrisCode(vs))
    decreases |vs|
  {
    if vs != [] {
      TrisStraight(vs[..|vs| - 1]);
      StraightConcat(TrisCode(vs[..|vs| - 1]), TrisBlock(vs[|vs| - 1]));
    }
  }

  /** The one store of a variable's direction block, if it has one. */
  lemma TrisBlockStores(v: VarBinding)
    ensures Stores(TrisBlock(v)) == if IsAccessed(v) then [Direction(v)] else []
  {
    var b := TrisBlock(v);
    if IsAccessed(v) {
      StoresNone(b[..4]);
      StoresSnoc(b[..4], b[4]);
      assert b == b[..4] + [b[4]];
    }
  }

  /** The direction code stores into the direction alias of each used
      variable, once each, in registry order. */
  lemma {:induction false} TrisStores(vs: seq<VarBinding>)
    ensures |Stores(TrisCode(vs))| == |AccessedVars(vs)|
    ensures forall i :: 0 <= i < |AccessedVars(vs)| ==> Stores(TrisCode(vs))[i] == Direction(AccessedVars(vs)[i])
    decreases |vs|
  {
    if vs != [] {
      var front, v := vs[..|vs| - 1], vs[|vs| - 1];
      TrisStores(front);
      TrisBlockStores(v);
      StoresConcat(TrisCode(front), TrisBlock(v));
      var st, a := Stores(TrisCode(front)), AccessedVars(front);
      var extra := if IsAccessed(v) then [v] else [];
      assert Stores(TrisCode(vs)) == st + Stores(TrisBlock(v));
      assert AccessedVars(vs) == a + extra;
      forall i | 0 <= i < |a + extra| ensures (st + Stores(TrisBlock(v)))[i] == Direction((a + extra)[i]) {
        if i < |a| {
          assert (a + extra)[i] == a[i];
        } else {
          assert (a + extra)[i] == v;
        }
      }
    }
  }

  /** One digital-port block stores once, into the port's `ANSEL`. */
  lemma DigitalStores(port: string)
    ensures StraightLine(DigitalBlock(port))
    ensures Stores(DigitalBlock(port)) == [Ansel(port)]
    ensures forall i :: 0 <= i < |DigitalBlock(port)| && DigitalBlock(port)[i].Sw? ==> DigitalBlock(port)[i].reg == Zero
  {
    StoresTriple(Comment(Digital(port)), Lui(R8, Ansel(port)), Zero, Ansel(port));
  }

  /** `initVars` has no labels or jumps; it first stores into `ANSEL` of
      ports A, B, D and F, in that order (each store is of `$0`, see
      `DigitalStores`), and then writes the direction of every used
      variable, in registry order. */
  lemma InitVarsStores(vs: seq<VarBinding>)
    ensures StraightLine(InitCode(vs))
    ensures |Stores(InitCode(vs))| == 4 + |AccessedVars(vs)|
    ensures Stores(InitCode(vs))[..4] == [Ansel("A"), Ansel("B"), Ansel("D"), Ansel("F")]
    ensures forall i :: 0 <= i < |AccessedVars(vs)| ==> Stores(InitCode(vs))[4 + i] == Direction(AccessedVars(vs)[i])
  {
    var a, b, d, f := DigitalBlock("A"), DigitalBlock("B"), DigitalBlock("D"), DigitalBlock("F");
    DigitalStores("A");
    DigitalStores("B");
    DigitalStores("D");
    DigitalStores("F");
    StoresConcat(a, b);
    StoresConcat(a + b, d);
    StoresConcat(a + b + d, f);
    StraightConcat(a, b);
    StraightConcat(a + b, d);
    StraightConcat(a + b + d, f);
    TrisStraight(vs);
    TrisStores(vs);
    StoresConcat(AnselCode(), TrisCode(vs));
    StraightConcat(AnselCode(), TrisCode(vs));
  }

  /** With nothing used yet, `initVars` writes no direction block. */
  lemma {:induction false} NothingUsed(vs: seq<VarBinding>)
    requires forall i :: 0 <= i < |vs| ==> !IsAccessed(vs[i])
    ensures TrisCode(vs) == []
    decreases |vs|
  {
    if vs != [] {
      NothingUsed(vs[..|vs| - 1]);
    }
  }

  /** On the board's table as `createVars` leaves it, `initVars` only makes
      the four ports digital. */
  lemma BoardInitVars()
    ensures InitCode(CreateVars()) == AnselCode()
  {
    NothingUsed(CreateVars());
  }

  // ---------------------------------------------------------------------
  // The whole run

  /** In the output of a whole run no label is defined twice, every jump
      and branch lands on a defined label, every label defined lies in
      [1, n], and n, the final loop's label, is defined, where n is 1 plus
      what the tree allocates. (Not every id handed out is defined: the
      else label of an assignment from a variable or of an `If` is not.) */
  lemma ProgramLabels(vs: seq<VarBinding>, root: Node)
    requires WellFormed(root)
    ensures UniqueLabels(Program(vs, root)) && Closed(Program(vs, root))
    ensures forall n <- Defs(Program(vs, root)) :: 1 <= n <= 1 + Allocated(root)
    ensures 1 + Allocated(root) in Defs(Program(vs, root))
  {
    var init, body := InitCode(vs), Gen(root, 1);
    var fin := ConcludeCode(body.next);
    InitVarsStores(vs);
    StraightLineFacts(init);
    GenAdvances(root, 1);
    GenLabels(root, 1);
    assert Fragment(fin, body.next, body.next + 1) by {
      LabelFacts(body.next);
      BranchFacts(GoCode(body.next), body.next);
      Join([Label(body.next)], GoCode(body.next));
    }
    FragmentConcat(init, body.code, 1, 1, body.next);
    FragmentConcat(init + body.code, fin, 1, body.next, body.next + 1);
    Join(init + body.code, fin);
    LabelFacts(body.next);
    Join([Label(body.next)], GoCode(body.next));
  }
}
