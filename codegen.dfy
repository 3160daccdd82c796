/** The code generator of pic.c as pure functions: for each emitter, the
    lines it appends to the output file, the label counter it leaves behind
    and the "Variable missing!" diagnostics it prints. The class in
    generator.dfy is proved to produce exactly these. */
module CodeGen {
  import opened Registry
  import opened Syntax
  import opened Asm

  /** The effect of one emitter run with the counter at some value. */
  datatype Emission = Emission(
    code: seq<Instr>, // lines appended to the output
    next: nat,        // value of `labelcount` afterwards
    missing: nat      // "Variable missing!" lines printed
  )

  /** `go`: an unconditional jump to a label and its delay slot. */
  function GoCode(a: nat): seq<Instr> {
    [Jump(a), Nop]
  }

  /** Writes a binding's mask into the set or clear alias of its port latch. */
  function LatchWrite(v: VarBinding, bank: Bank): seq<Instr> {
    [Lui(R8, Lat(v.port, bank)), Li(R9, v.mask), Sw(R9, Lat(v.port, bank))]
  }

  /** Reads a binding's port into `$9` and masks out its bit. */
  function ReadPort(v: VarBinding): seq<Instr> {
    [Lui(R8, PortIn(v.port)), Lw(R9, PortIn(v.port)), Andi(R9, v.mask)]
  }

  /** The latch alias an assignment of the constant `k` writes into: the
      set alias for 1, the clear alias for every other value. */
  function ConstBank(k: int): (b: Bank)
    ensures b == Set <==> k == 1
  {
    if k == 1 then Set else Clr
  }

  /** `writeVarConst`: an assignment of the constant `k` to a variable. */
  function ConstAssign(v: Option<VarBinding>, k: int, c: nat): Emission {
    match v
    case None => Emission([], c, 1)
    case Some(t) =>
      Emission([Comment(Blank), Comment(AssignConst(t.name))] + LatchWrite(t, ConstBank(k)), c, 0)
  }

  /** `writeVarVar`: the target LED follows the source switch. The labels
      `c`, `c + 1` and `c + 2` are taken as then, else and end. */
  function VarAssign(led: Option<VarBinding>, sw: Option<VarBinding>, c: nat): Emission {
    if led.None? || sw.None? then Emission([], c, 1)
    else
      var l, s := led.value, sw.value;
      Emission(
        [Comment(Blank), Comment(AssignVar(s.name, l.name))]
        + ReadPort(s) + [Bne(R9, c), Nop]
        + LatchWrite(l, Clr) + GoCode(c + 2)
        + [Label(c)] + LatchWrite(l, Set)
        + [Label(c + 2)],
        c + 3, 0)
  }

  /** `generateDelay`: a count-down loop on `$10` around the label `c`. */
  function DelayLoop(amount: int, c: nat): Emission {
    Emission([Comment(Blank), Comment(DelayOf(amount)), Li(R10, amount), Label(c), Addi(R10, -1), Bne(R10, c), Nop], c + 1, 0)
  }

  /** The test an `If` opens with: the condition's bit, then a branch to
      the then label when it is set. */
  function IfHead(sw: VarBinding, thenLabel: nat): seq<Instr> {
    [Comment(Blank), Comment(IfOn(sw.name))] + ReadPort(sw) + [Bne(R9, thenLabel), Nop]
  }

  /** `translate`, as a function of the tree and the counter on entry. */
  function Gen(p: Node, c: nat): Emission
    requires WellFormed(p)
    decreases p
  {
    match p
    case Const(_) => Emission([], c, 0)
    case Var(_) => Emission([], c, 0)
    case Block(cs) => GenSeq(cs, c)
    case Assign(cs) =>
      if cs[0].Const? then ConstAssign(VarOf(cs[1]), cs[0].value, c)
      else if cs[0].Var? then VarAssign(VarOf(cs[1]), cs[0].binding, c)
      else Emission([], c, 0)
    case Loop(cs) =>
      var body := Gen(cs[0], c + 1);
      Emission([Label(c)] + body.code + GoCode(c), body.next, body.missing)
    case Delay(cs) => DelayLoop(cs[0].value, c)
    case If(cs) => GenIf(cs, c)
  }

  /** The `tIf` case: labels `c`, `c + 1` and `c + 2` are taken as then,
      else and end; the else branch, when there is one, is translated
      first, from `c + 3`, and the then branch after it. */
  function GenIf(cs: seq<Node>, c: nat): Emission
    requires WellFormed(If(cs))
    decreases cs
  {
    var otherwise := if |cs| == 3 then Gen(cs[2], c + 3) else Emission([], c + 3, 0);
    IfCode(cs[0].binding.value, c, otherwise, Gen(cs[1], otherwise.next))
  }

  /** The layout of an `If` whose labels start at `c`, around the already
      translated else branch (empty when there is none) and then branch. */
  function IfCode(sw: VarBinding, c: nat, otherwise: Emission, then_: Emission): Emission {
    Emission(
      IfHead(sw, c) + otherwise.code + GoCode(c + 2)
      + [Label(c)] + then_.code
      + [Label(c + 2)],
      then_.next, otherwise.missing + then_.missing)
  }

  /** The statements of a block translated one after the other. */
  function GenSeq(ps: seq<Node>, c: nat): Emission
    requires forall q <- ps :: WellFormed(q)
    decreases ps
  {
    if ps == [] then Emission([], c, 0)
    else
      var front := GenSeq(ps[..|ps| - 1], c);
      var last := Gen(ps[|ps| - 1], front.next);
      Emission(front.code + last.code, last.next, front.missing + last.missing)
  }

  /** How many labels translating a tree allocates, counted without
      generating anything: three per variable-to-variable assignment
      whose operands both exist and per `If`, one per loop and per delay,
      counting only the nodes `translate` reaches. From a node it reaches
      a block's statements, a loop's first child, an `If`'s then branch,
      and its else branch when it has exactly three children; any other
      child is never translated and counts nothing. */
  function Allocated(p: Node): nat
    requires WellFormed(p)
    decreases p
  {
    match p
    case Const(_) => 0
    case Var(_) => 0
    case Block(cs) => AllocatedSeq(cs)
    case Assign(cs) => if cs[0].Var? && cs[0].binding.Some? && VarOf(cs[1]).Some? then 3 else 0
    case Loop(cs) => 1 + Allocated(cs[0])
    case Delay(_) => 1
    case If(cs) => 3 + Allocated(cs[1]) + (if |cs| == 3 then Allocated(cs[2]) else 0)
  }

  function AllocatedSeq(ps: seq<Node>): nat
    requires forall q <- ps :: WellFormed(q)
    decreases ps
  {
    if ps == [] then 0 else AllocatedSeq(ps[..|ps| - 1]) + Allocated(ps[|ps| - 1])
  }

  /** How many of the assignments `translate` reaches (see `Allocated`)
      have a NULL operand: one for each such assignment, however many of
      its operands are NULL. */
  function Missing(p: Node): nat
    requires WellFormed(p)
    decreases p
  {
    match p
    case Const(_) => 0
    case Var(_) => 0
    case Block(cs) => MissingSeq(cs)
    case Assign(cs) =>
      if cs[0].Const? then (if VarOf(cs[1]).None? then 1 else 0)
      else if cs[0].Var? then (if VarOf(cs[1]).None? || cs[0].binding.None? then 1 else 0)
      else 0
    case Loop(cs) => Missing(cs[0])
    case Delay(_) => 0
    case If(cs) => Missing(cs[1]) + (if |cs| == 3 then Missing(cs[2]) else 0)
  }

  function MissingSeq(ps: seq<Node>): nat
    requires forall q <- ps :: WellFormed(q)
    decreases ps
  {
    if ps == [] then 0 else MissingSeq(ps[..|ps| - 1]) + Missing(ps[|ps| - 1])
  }

  /** One "configure PORT<port> as digital" block of `initVars`. */
  function DigitalBlock(port: string): seq<Instr> {
    [Comment(Digital(port)), Lui(R8, Ansel(port)), Sw(Zero, Ansel(port))]
  }

  /** The fixed opening of `initVars`: ports A, B, D and F made digital. */
  function AnselCode(): seq<Instr> {
    DigitalBlock("A") + DigitalBlock("B") + DigitalBlock("D") + DigitalBlock("F")
  }

  /** The direction alias a used variable is written into: the set alias
      of its port's `TRIS` for an input, the clear alias for an output. */
  function Direction(v: VarBinding): (s: Sym)
    ensures s.Tris? && s.port == v.port
    ensures s.bank == Set <==> IsInput(v)
  {
    Tris(v.port, if IsInput(v) then Set else Clr)
  }

  /** The direction bit of one variable: set in `TRIS` for an input,
      cleared for an output; nothing for a variable the program never uses. */
  function TrisBlock(v: VarBinding): seq<Instr> {
    if !IsAccessed(v) then []
    else [Comment(Blank), Comment(InitVar(v.name)), Lui(R8, Direction(v)), Li(R9, v.mask), Sw(R9, Direction(v))]
  }

  /** The direction blocks of a whole registry, in registry order. */
  function TrisCode(vs: seq<VarBinding>): seq<Instr>
    decreases |vs|
  {
    if vs == [] then [] else TrisCode(vs[..|vs| - 1]) + TrisBlock(vs[|vs| - 1])
  }

  /** Everything `initVars` writes. */
  function InitCode(vs: seq<VarBinding>): seq<Instr> {
    AnselCode() + TrisCode(vs)
  }

  /** The endless halt loop `conclude` writes around the label `a`. */
  function ConcludeCode(a: nat): seq<Instr> {
    [Label(a)] + GoCode(a)
  }

  /** The labelled part of a whole run: `initVars`, then `translate` of the
      root with the counter starting at 1, then `conclude`. */
  function Program(vs: seq<VarBinding>, root: Node): seq<Instr>
    requires WellFormed(root)
  {
    var body := Gen(root, 1);
    InitCode(vs) + body.code + ConcludeCode(body.next)
  }
}
