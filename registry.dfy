/** Port bindings of the board: the `t_varNode` record and the fixed table
    that `createVars` fills in at start-up. */
module Registry {

  /** A C `unsigned int`. */
  type Word = m: int | 0 <= m < 0x1_0000_0000

  /** One variable of the source language bound to one pin of the board.
      `accessed` and `isInput` are C ints, read as truth values. */
  datatype VarBinding = VarBinding(
    name: string,  // symbolic name, the lookup key
    port: string,  // port letter, e.g. "A"
    mask: Word,    // bit mask within the port register
    accessed: int, // non-zero once the program uses the variable
    isInput: int   // 1 for input, 0 for output
  )

  /** The direction test `initVars` makes: any non-zero `isInput` is an input. */
  predicate IsInput(v: VarBinding) {
    v.isInput != 0
  }

  /** The usage test `initVars` makes. */
  predicate IsAccessed(v: VarBinding) {
    v.accessed != 0
  }

  /** The ports whose analog function `initVars` switches off, in order. */
  const DigitalPorts: seq<string> := ["A", "B", "D", "F"]

  /** 2 to the power `k`, i.e. `0x1 << k`. */
  function Bit(k: nat): nat {
    if k == 0 then 1 else 2 * Bit(k - 1)
  }

  /** A freshly defined binding; it starts out not accessed. */
  function NewVar(name: string, port: string, mask: Word, isInput: int): (v: VarBinding)
    ensures v.name == name && v.port == port && v.mask == mask && v.isInput == isInput
    ensures !IsAccessed(v)
  {
    VarBinding(name, port, mask, 0, isInput)
  }

  /** The board's bindings in the order `createVars` defines them:
      eight LEDs, eight switches, then the red, green and blue LEDs. */
  function CreateVars(): (r: seq<VarBinding>)
    ensures |r| == 19
    ensures forall i :: 0 <= i < |r| ==> !IsAccessed(r[i])
  {
    [ NewVar("LD0", "A", 0x1, 0),
      NewVar("LD1", "A", 0x2, 0),
      NewVar("LD2", "A", 0x4, 0),
      NewVar("LD3", "A", 0x8, 0),
      NewVar("LD4", "A", 0x10, 0),
      NewVar("LD5", "A", 0x20, 0),
      NewVar("LD6", "A", 0x40, 0),
      NewVar("LD7", "A", 0x80, 0),
      NewVar("SW0", "F", 0x8, 1),
      NewVar("SW1", "F", 0x20, 1),
      NewVar("SW2", "F", 0x10, 1),
      NewVar("SW3", "D", 0x8000, 1),
      NewVar("SW4", "D", 0x4000, 1),
      NewVar("SW5", "B", 0x800, 1),
      NewVar("SW6", "B", 0x400, 1),
      NewVar("SW7", "B", 0x200, 1),
      NewVar("R", "D", 0x4, 0),
      NewVar("G", "D", 0x1000, 0),
      NewVar("B", "D", 0x8, 0) ]
  }

  /** Names are keys: no two bindings of the table share one. */
  predicate DistinctNames(vs: seq<VarBinding>) {
    forall i, j :: 0 <= i < j < |vs| ==> vs[i].name != vs[j].name
  }

  /** No two bindings of the table drive the same pin. */
  predicate DistinctPins(vs: seq<VarBinding>) {
    forall i, j :: 0 <= i < j < |vs| ==> vs[i].port != vs[j].port || vs[i].mask != vs[j].mask
  }

  /** The LEDs LD0..LD7 are the outputs on bits 0..7 of port A. */
  lemma LedsOnPortA()
    ensures forall i :: 0 <= i < 8 ==>
      && CreateVars()[i].port == "A"
      && CreateVars()[i].mask == Bit(i)
      && !IsInput(CreateVars()[i])
  {
    assert Bit(1) == 2 && Bit(2) == 4 && Bit(3) == 8 && Bit(4) == 16;
    assert Bit(5) == 32 && Bit(6) == 64 && Bit(7) == 128;
  }

  /** The position a name takes in the table: "LDk" is k, "SWk" is 8 + k,
      then "R", "G", "B". */
  function NameOrder(name: string): int {
    if |name| == 0 then -1
    else if name[0] == 'L' then name[|name| - 1] as int - '0' as int
    else if name[0] == 'S' then 8 + name[|name| - 1] as int - '0' as int
    else if name == "R" then 16
    else if name == "G" then 17
    else if name == "B" then 18
    else -1
  }

  /** Names are the table's keys: every name decodes to its own position,
      so no two bindings share one. */
  lemma BoardNamesDistinct()
    ensures forall i :: 0 <= i < |CreateVars()| ==> NameOrder(CreateVars()[i].name) == i
    ensures DistinctNames(CreateVars())
  {
    var r := CreateVars();
    assert forall i :: 0 <= i < |r| ==> NameOrder(r[i].name) == i;
  }

  /** No two bindings drive the same pin. */
  lemma BoardPinsDistinct()
    ensures DistinctPins(CreateVars())
  {
    var r := CreateVars();
    forall i, j | 0 <= i < j < |r| ensures r[i].port != r[j].port || r[i].mask != r[j].mask {
      if j < 8 {
        assert r[i].port == r[j].port == "A";
      } else if j < 11 {
        assert i < 8 ==> r[i].port != r[j].port;
      } else if j < 13 {
        assert i < 11 ==> r[i].port != r[j].port;
      } else if j < 16 {
        assert i < 13 ==> r[i].port != r[j].port;
      } else {
        assert i < 16 && r[i].port == "D" ==> i == 11 || i == 12;
      }
    }
  }

  /** Every direction is 0 or 1, exactly the switches are inputs, every port
      is one that `initVars` makes digital, and every mask fits the 16-bit
      immediate of `andi`. */
  lemma BoardDirectionsAndPorts()
    ensures forall i :: 0 <= i < 19 ==>
      && (CreateVars()[i].isInput == 0 || CreateVars()[i].isInput == 1)
      && (IsInput(CreateVars()[i]) <==> 8 <= i < 16)
      && CreateVars()[i].port in DigitalPorts
      && CreateVars()[i].mask < 0x1_0000
  {
  }
}
