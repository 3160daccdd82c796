/** The lines the generator writes, as abstract MIPS instructions, and the
    label bookkeeping over a stretch of them. */
module Asm {

  /** The registers the generated code names: `$0`, `$8`, `$9` and `$10`. */
  datatype Reg = Zero | R8 | R9 | R10

  /** The atomic set and clear aliases of a port's latch or direction register. */
  datatype Bank = Set | Clr

  /** The memory-mapped registers the code addresses through `%hi`/`%lo`. */
  datatype Sym =
    | Lat(port: string, bank: Bank)   // LAT<port>SET / LAT<port>CLR
    | PortIn(port: string)            // PORT<port>
    | Tris(port: string, bank: Bank)  // TRIS<port>SET / TRIS<port>CLR
    | Ansel(port: string)             // ANSEL<port>

  /** What a comment line says; `Blank` is the line holding only a tab. */
  datatype Note =
    | Blank
    | AssignConst(target: string)
    | AssignVar(source: string, target: string)
    | DelayOf(amount: int)
    | IfOn(cond: string)
    | Digital(port: string)
    | InitVar(name: string)

  /** One output line. */
  datatype Instr =
    | Label(id: nat)                // .lbl<id>:
    | Jump(target: nat)             // j .lbl<target>
    | Bne(reg: Reg, target: nat)    // bne <reg>,$0,.lbl<target>
    | Lui(reg: Reg, sym: Sym)       // lui <reg>,%hi(<sym>)
    | Li(reg: Reg, imm: int)        // li <reg>,<imm>
    | Sw(reg: Reg, sym: Sym)        // sw <reg>,%lo(<sym>)($8)
    | Lw(reg: Reg, sym: Sym)        // lw <reg>,%lo(<sym>)($8)
    | Andi(reg: Reg, imm: int)      // andi <reg>,<reg>,<imm>
    | Addi(reg: Reg, imm: int)      // addi <reg>,<reg>,<imm>
    | Nop
    | Comment(note: Note)
  {
    predicate IsBranch() {
      Jump? || Bne?
    }
  }

  /** The label ids a stretch of code defines. */
  function Defs(code: seq<Instr>): set<nat> {
    set i | 0 <= i < |code| && code[i].Label? :: code[i].id
  }

  /** The label ids a stretch of code jumps or branches to. */
  function Targets(code: seq<Instr>): set<nat> {
    set i | 0 <= i < |code| && code[i].IsBranch() :: code[i].target
  }

  /** No label id is defined on two lines. */
  predicate UniqueLabels(code: seq<Instr>) {
    forall i, j :: 0 <= i < j < |code| && code[i].Label? && code[j].Label? ==> code[i].id != code[j].id
  }

  /** Every jump and branch lands on a label of the same stretch. */
  predicate Closed(code: seq<Instr>) {
    Targets(code) <= Defs(code)
  }

  /** The code defines labels only from [lo, hi), each at most once, and all
      of its control flow stays inside it. */
  predicate Fragment(code: seq<Instr>, lo: nat, hi: nat) {
    && (forall n <- Defs(code) :: lo <= n < hi)
    && UniqueLabels(code)
    && Closed(code)
  }

  /** Code without labels and without jumps or branches. */
  predicate StraightLine(code: seq<Instr>) {
    forall i :: 0 <= i < |code| ==> !code[i].Label? && !code[i].IsBranch()
  }

  /** The `sw` lines of a stretch of code, in order: the registers it writes. */
  function Stores(code: seq<Instr>): seq<Sym>
    decreases |code|
  {
    if code == [] then []
    else Stores(code[..|code| - 1]) + (if code[|code| - 1].Sw? then [code[|code| - 1].sym] else [])
  }

  lemma DefsConcat(a: seq<Instr>, b: seq<Instr>)
    ensures Defs(a + b) == Defs(a) + Defs(b)
  {
    var ab := a + b;
    forall n | n in Defs(ab) ensures n in Defs(a) + Defs(b) {
      var i :| 0 <= i < |ab| && ab[i].Label? && ab[i].id == n;
      if i < |a| {
        assert a[i] == ab[i];
      } else {
        assert b[i - |a|] == ab[i];
      }
    }
    forall n | n in Defs(a) + Defs(b) ensures n in Defs(ab) {
      if n in Defs(a) {
        var i :| 0 <= i < |a| && a[i].Label? && a[i].id == n;
        assert ab[i] == a[i];
      } else {
        var i :| 0 <= i < |b| && b[i].Label? && b[i].id == n;
        assert ab[|a| + i] == b[i];
      }
    }
  }

  lemma TargetsConcat(a: seq<Instr>, b: seq<Instr>)
    ensures Targets(a + b) == Targets(a) + Targets(b)
  {
    var ab := a + b;
    forall n | n in Targets(ab) ensures n in Targets(a) + Targets(b) {
      var i :| 0 <= i < |ab| && ab[i].IsBranch() && ab[i].target == n;
      if i < |a| {
        assert a[i] == ab[i];
      } else {
        assert b[i - |a|] == ab[i];
      }
    }
    forall n | n in Targets(a) + Targets(b) ensures n in Targets(ab) {
      if n in Targets(a) {
        var i :| 0 <= i < |a| && a[i].IsBranch() && a[i].target == n;
        assert ab[i] == a[i];
      } else {
        var i :| 0 <= i < |b| && b[i].IsBranch() && b[i].target == n;
        assert ab[|a| + i] == b[i];
      }
    }
  }

  /** Joining two stretches keeps label ids unique when they define
      disjoint sets of labels. */
  lemma UniqueConcat(a: seq<Instr>, b: seq<Instr>)
    requires UniqueLabels(a) && UniqueLabels(b)
    requires Defs(a) !! Defs(b)
    ensures UniqueLabels(a + b)
  {
    var ab := a + b;
    forall i, j | 0 <= i < j < |ab| && ab[i].Label? && ab[j].Label? ensures ab[i].id != ab[j].id {
      if j < |a| {
        assert ab[i] == a[i] && ab[j] == a[j];
      } else if i >= |a| {
        assert ab[i] == b[i - |a|] && ab[j] == b[j - |a|];
      } else {
        assert ab[i] == a[i] && ab[j] == b[j - |a|];
        assert ab[i].id in Defs(a) && ab[j].id in Defs(b);
      }
    }
  }

  /** Straight-line code defines and targets nothing. */
  lemma StraightLineFacts(code: seq<Instr>)
    requires StraightLine(code)
    ensures Defs(code) == {} && Targets(code) == {} && UniqueLabels(code)
  {
    assert forall n :: n !in Defs(code);
    assert forall n :: n !in Targets(code);
  }

  /** Everything the label bookkeeping needs to know about joining two
      stretches of code. */
  lemma Join(a: seq<Instr>, b: seq<Instr>)
    ensures Defs(a + b) == Defs(a) + Defs(b)
    ensures Targets(a + b) == Targets(a) + Targets(b)
    ensures UniqueLabels(a) && UniqueLabels(b) && Defs(a) !! Defs(b) ==> UniqueLabels(a + b)
  {
    DefsConcat(a, b);
    TargetsConcat(a, b);
    if UniqueLabels(a) && UniqueLabels(b) && Defs(a) !! Defs(b) {
      UniqueConcat(a, b);
    }
  }

  /** A single label line. */
  lemma LabelFacts(n: nat)
    ensures Defs([Label(n)]) == {n} && Targets([Label(n)]) == {} && UniqueLabels([Label(n)])
  {
    assert [Label(n)][0] == Label(n);
  }

  /** A jump or branch to `n` followed by its delay slot. */
  lemma BranchFacts(code: seq<Instr>, n: nat)
    requires |code| == 2 && code[0].IsBranch() && code[0].target == n && code[1] == Nop
    ensures Defs(code) == {} && Targets(code) == {n} && UniqueLabels(code)
  {
    assert forall m :: m in Targets(code) ==> m == n;
    assert n in Targets(code);
  }

  /** Two fragments over adjacent ranges make one fragment over their union. */
  lemma FragmentConcat(a: seq<Instr>, b: seq<Instr>, lo: nat, mid: nat, hi: nat)
    requires lo <= mid <= hi
    requires Fragment(a, lo, mid) && Fragment(b, mid, hi)
    ensures Fragment(a + b, lo, hi)
  {
    DefsConcat(a, b);
    TargetsConcat(a, b);
    UniqueConcat(a, b);
    forall n | n in Defs(a + b) ensures lo <= n < hi {
      assert n in Defs(a) || n in Defs(b);
    }
  }

  lemma AppendAssoc<T>(a: seq<T>, b: seq<T>, c: seq<T>)
    ensures (a + b) + c == a + (b + c)
  {
  }

  /** A slice of a concatenation that lies within one of its halves. */
  lemma SliceConcat<T>(a: seq<T>, b: seq<T>, i: nat, j: nat)
    requires i <= j <= |a + b|
    ensures j <= |a| ==> (a + b)[i..j] == a[i..j]
    ensures |a| <= i ==> (a + b)[i..j] == b[i - |a|..j - |a|]
  {
  }

  /** Code with no `sw` line stores nothing. */
  lemma {:induction false} StoresNone(code: seq<Instr>)
    requires forall i :: 0 <= i < |code| ==> !code[i].Sw?
    ensures Stores(code) == []
    decreases |code|
  {
    if code != [] {
      StoresNone(code[..|code| - 1]);
    }
  }

  /** Appending one line adds its store, if it is one. */
  lemma StoresSnoc(code: seq<Instr>, x: Instr)
    ensures Stores(code + [x]) == Stores(code) + (if x.Sw? then [x.sym] else [])
  {
    assert (code + [x])[..|code + [x]| - 1] == code;
  }

  /** Straight-line stretches join into straight-line code. */
  lemma StraightConcat(a: seq<Instr>, b: seq<Instr>)
    requires StraightLine(a) && StraightLine(b)
    ensures StraightLine(a + b)
  {
    forall i | 0 <= i < |a + b| ensures !(a + b)[i].Label? && !(a + b)[i].IsBranch() {
      if i < |a| {
        assert (a + b)[i] == a[i];
      } else {
        assert (a + b)[i] == b[i - |a|];
      }
    }
  }

  lemma StoresConcat(a: seq<Instr>, b: seq<Instr>)
    ensures Stores(a + b) == Stores(a) + Stores(b)
    decreases |b|
  {
    if b == [] {
      assert a + b == a;
    } else {
      var b' := b[..|b| - 1];
      assert (a + b)[..|a + b| - 1] == a + b';
      StoresConcat(a, b');
    }
  }
}
