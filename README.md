# PIC32 code generator of the mips32 compiler, modelled in Dafny

The compiler reads a small board-control language (assignments to LEDs,
reads of switches, `if`, endless `loop`, busy-wait `delay`) and writes
MIPS32 assembly for a PIC32 board. This project models its back end,
`pic.c` with the types of `pic.h`:

- the board's **port bindings** (`t_varNode`) and the fixed table that
  `createVars` fills in (module `Registry`, `registry.dfy`);
- the **syntax tree** (`t_node` with its seven tags) and the arities the
  generator relies on (module `Syntax`, `syntax.dfy`);
- the **output lines** as abstract MIPS instructions, with the label sets
  and label predicates over a stretch of code (module `Asm`, `asm.dfy`);
- every emitter as a **pure function** of the tree and the label counter
  on entry, returning the lines written, the counter afterwards and the
  number of "Variable missing!" diagnostics (module `CodeGen`,
  `codegen.dfy`);
- the emitters **as the C program runs them**: the global `labelcount`,
  the output file and the diagnostic stream are the fields of a
  `Generator` object; `translate` is a recursive method, the block case
  and `initVars` are loops, and every method is proved to append exactly
  what its `CodeGen` twin describes (module `Pic`, `generator.dfy`);
- the **properties** of the generated code (module `Properties`,
  `properties.dfy`): how far each construct moves the counter, that the
  labels a construct defines come from the range it allocated and are
  defined once, that every jump and branch lands on a label of the same
  construct, the exact layout of each construct, what `initVars`
  configures, and that a whole run's output has unique labels and no
  dangling jump.

One output line is one `Instr`: `.lbl<n>:` is `Label(n)`, `j .lbl<n>` is
`Jump(n)`, `bne $r,$0,.lbl<n>` is `Bne(r, n)`, `lui`/`li`/`sw`/`lw`/
`andi`/`addi`/`nop` are their namesakes over the memory-mapped symbols
`LAT<p>SET`/`LAT<p>CLR`, `PORT<p>`, `TRIS<p>SET`/`TRIS<p>CLR` and
`ANSEL<p>`, and a comment line (or a line holding only a tab) is a
`Comment` whose `Note` records what it names.

An assignment of a constant writes the set alias only for the constant 1
and the clear alias for every other value, 2 and negative values included
(`pic.c:62-64`); the model does the same (`Properties.ConstAssignment`).
Nothing in `pic.c` marks a binding as accessed: `main` calls `initVars`
after the parser has run and before `translate` (`pic.c:323`,
`pic.c:335-336`), so `InitVars` takes the flags as it finds them in the
registry.

## Model

| member | source | states |
|---|---|---|
| Registry.NewVar | pic.h:20 | a new binding carries the given name, port, mask and direction and starts out not accessed |
| Registry.CreateVars | pic.c:16-41 | the board table has 19 bindings, none of them accessed yet |
| Registry.LedsOnPortA | pic.c:17-25 | LD0..LD7 are outputs on port A with masks 2^0..2^7 |
| Registry.BoardNamesDistinct | pic.c:18-40 | each name of the table decodes to its own position, so no two bindings share a name |
| Registry.BoardPinsDistinct | pic.c:18-40 | no two bindings of the table drive the same port and bit |
| Registry.BoardDirectionsAndPorts | pic.c:27-40 | every direction is 0 or 1, exactly SW0..SW7 are inputs, every port is one of A, B, D, F and every mask fits 16 bits |
| Syntax.VarOf | pic.h:13-14 | the `var` field is present only on a variable node, where it is that node's binding |
| Pic.Generator.constructor | pic.c:316 | a run starts with the counter at 1 and nothing written |
| Pic.Generator.NextLabel | pic.c:82-84 | hands out the counter's value and increments it, writing nothing |
| Pic.Generator.EmitLabel | pic.c:44-46 | appends the one label line, counter unchanged |
| Pic.Generator.Go | pic.c:49-52 | appends the jump to the label and its `nop`, counter unchanged |
| Pic.Generator.WriteVarConst | pic.c:55-65 | appends exactly `ConstAssign` of the target, constant and counter; see `Properties.ConstAssignment` for what that is |
| Pic.Generator.WriteVarVar | pic.c:68-105 | appends exactly `VarAssign`, taking three labels; see `Properties.VarAssignment` |
| Pic.Generator.GenerateDelay | pic.c:108-125 | appends exactly `DelayLoop`, taking one label; see `Properties.DelayShape` |
| Pic.Generator.Translate | pic.c:128-191 | the tree walk appends exactly `Gen` of the tree from the counter on entry, the block case statement by statement through its loop invariant |
| Pic.Generator.TranslateIf | pic.c:151-187 | the `tIf` case appends exactly `GenIf`: labels taken first, else branch, jump to end, then branch |
| Pic.Generator.InitVars | pic.c:225-261 | appends the four digital-port blocks and then one direction block per accessed binding, in registry order, leaving counter and diagnostics alone |
| Pic.Generator.Conclude | pic.c:203-208 | appends the self-loop on the next label and advances the counter by one |
| Pic.Compile | pic.c:316-337 | a whole run writes `Program` of the registry and tree, whose labels are unique and whose every jump and branch is defined, and prints one diagnostic per assignment with a NULL operand among the assignments `translate` reaches |
| Properties.GenAdvances | pic.c:128-191 | translating a tree moves the counter by exactly the labels it allocates: 3 per variable assignment with both operands and per `if`, 1 per loop and per delay, 0 otherwise, counting only the nodes `translate` reaches: a block's statements, a loop's first child, an `if`'s then branch, and its else branch when it has exactly three children |
| Properties.GenSeqAdvances | pic.c:138-141 | a block moves the counter by the sum of its statements |
| Properties.GenMissing | pic.c:128-191 | one diagnostic per assignment with a NULL operand among those `translate` reaches (a block's statements, a loop's first child, an `if`'s then branch, and its else branch when it has exactly three children); an assignment with two NULL operands gives one |
| Properties.GenSeqMissing | pic.c:138-141 | a block's diagnostics are the sum of its statements' |
| Properties.GenLabels | pic.c:128-191 | the code of a tree, with the counter at c on entry, defines labels only in [c, next), each once, and jumps only to its own labels |
| Properties.GenSeqLabels | pic.c:138-141 | the same for a block, whose statements use adjacent label ranges |
| Properties.ConstAssignLabels | pic.c:55-65 | a constant assignment has no label, jump or branch and takes no label |
| Properties.VarAssignLabels | pic.c:81-104 | a variable assignment defines and targets exactly the then and end labels c and c+2 |
| Properties.DelayLabels | pic.c:115-124 | a delay defines and targets exactly its label c and takes one label |
| Properties.LoopLabels | pic.c:142-147 | a loop's label, its body's labels and its jump back form one well-labelled fragment |
| Properties.IfLabels | pic.c:151-187 | an `if` is one well-labelled fragment over the labels it allocated |
| Properties.IfCodeLabels | pic.c:159-186 | the `if` layout around two branch fragments above c+2 defines c, c+2 and the branches' labels, each once, and jumps only to them |
| Properties.IfOpeningLabels | pic.c:159-179 | the test, else branch and jump to end define only the else branch's labels and target c, c+2 and the branch's targets |
| Properties.IfClosingLabels | pic.c:181-186 | the then label, then branch and end label add c and c+2 without defining a label twice |
| CodeGen.ConstBank | pic.c:62-64 | the latch alias is the set alias exactly when the constant is 1 |
| Properties.ConstAssignment | pic.c:55-65 | NULL target: nothing written, one diagnostic; otherwise the blank and "assign to variable <target>" comments and one lui/li/sw of the target's mask into `LAT<port>SET` iff the constant is 1, else `LAT<port>CLR`; no label either way |
| Properties.VarAssignmentMissing | pic.c:69-72 | a NULL source or target writes nothing, takes no label and gives one diagnostic |
| Properties.VarAssignment | pic.c:68-105 | the fixed 17-line layout: the two comments, read the source bit, `bne` to c, clear the target, `j` c+2, c:, set the target, c+2:; three labels taken |
| Properties.VarAssignmentRange | pic.c:81-104 | with both operands present the code defines and targets exactly c and c+2, each once; c+1 is never defined or targeted |
| Properties.VarAssignmentStores | pic.c:90-101 | the only stores are the target's clear alias and then its set alias |
| Properties.DelayShape | pic.c:108-125 | the blank and "delay v" comments, then li $10,v; c:; addi $10,-1; bne $10 to c; nop; one label taken |
| Properties.LoopShape | pic.c:142-147 | label c, then the body with the counter at c+1 (so the body never defines c), then j c; nop |
| Properties.IfHeadShape | pic.c:159-167 | the test of an `if`: the two comments, the condition's bit read from its port, `bne` to the then label c and its `nop` |
| Properties.IfShape | pic.c:151-187 | three labels taken before either branch; test, else branch with the counter at c+3, j c+2, c:, then branch after the else branch's labels, c+2: |
| Properties.IfLabelRange | pic.c:151-187 | an `if` defines c, c+2 and its branches' labels, all of which lie above c+2; c+1 is never defined or targeted |
| Properties.MissingVariableScenario | pic.c:56-58 | assigning 1 to a NULL variable ahead of a statement leaves the output and counter of the statement alone and adds one diagnostic |
| Properties.AccessedVarsMembers | pic.c:245-246 | the used bindings are exactly the accessed members of the registry |
| CodeGen.Direction | pic.c:249-259 | a binding's direction alias is `TRIS<port>SET` iff it is an input |
| Properties.TrisSkipsUnused | pic.c:245-246 | unaccessed bindings contribute nothing to the direction code |
| Properties.TrisLayout | pic.c:245-260 | for accessed bindings, five lines per binding in order: two comments, then its mask stored into its direction alias |
| Properties.TrisStraight | pic.c:245-260 | the direction code has no label, jump or branch |
| Properties.TrisBlockStores | pic.c:246-259 | one binding's block stores once into its direction alias when accessed, and not at all otherwise |
| Properties.TrisStores | pic.c:245-260 | the direction code stores into each accessed binding's direction alias, once each, in registry order |
| Properties.DigitalStores | pic.c:226-228 | one digital-port block is straight-line, stores once, into `ANSEL<port>`, and every store in it is of `$0` |
| Properties.InitVarsStores | pic.c:225-261 | `initVars` is straight-line, stores into ANSELA, ANSELB, ANSELD, ANSELF in that order, then writes one direction per accessed binding in registry order |
| Properties.NothingUsed | pic.c:245-246 | with no binding accessed, no direction block is written |
| Properties.BoardInitVars | pic.c:245-260 | on the table as `createVars` leaves it, `initVars` only makes the four ports digital |
| Properties.ProgramLabels | pic.c:316-337 | a whole run's labels are unique, every jump and branch lands on a defined label, every label lies in [1, n] and the final self-loop's label n, 1 plus what the tree allocates, is defined |

## Left out

- `main`'s argument handling, `fopen`/`fclose`, `yyparse` and `yylex_destroy` (pic.c:305-339) are I/O and the parser; `Pic.Compile` takes the registry and the tree as parameters instead.
- `printNode` (pic.c:264-302) only prints the tree to standard output for debugging; it writes nothing to the assembly.
- `init` (pic.c:194-200) and the text after the halt loop in `conclude` (pic.c:210-221) are fixed lines that name no variable and define no `.lbl<n>` label. The one label among them, `main:` (pic.c:199), is not of the form `.lbl<n>`, so it cannot collide with a generated label and no generated jump or branch targets it. `Program` and `Properties.ProgramLabels` therefore cover only `initVars`, `translate` and the halt loop.
- Variable nodes: in C a variable node's `var` points into the `variables` registry (pic.h:13, pic.c:246); in the model `Var(Some(b))` holds its own copy of the binding, and nothing states that the bindings of a tree are registry members. No behaviour is lost, because nothing changes a binding while code is generated: `translate` only reads the fields of its operands and `initVars` only reads the registry.
- The bodies of `findVar` and `newVar` are not part of this model; `Registry.NewVar` assumes a new binding starts with `accessed` 0, and the setting of `accessed`, done while parsing, is input to `InitVars`.
- The textual form of each line (`fprintf` formats, `%%hi`/`%%lo`, `0x%x` rendering, comment wording) is abstracted to `Instr` and `Note`; in particular `0x%x` of a negative delay, which C prints as its 32-bit two's complement, is kept as the integer.
- The label counter is a `nat`, so wrap-around of the C `int` after 2^31 − 1 labels is not modelled.
- The "Variable missing!" line goes to standard output, not to the assembly; it is modelled as the count `missing`.
- Pic.Generator.Translate: requires `WellFormed`, a non-NULL tree in which every child `translate` reads is present (two under an assignment, the first under a loop and a delay, condition and then branch under an `if`), with a constant as a delay's operand and a non-NULL variable as an `if` condition. Children beyond those are allowed and ignored, as in the C code; an `if` with four or more children takes the path without else (pic.c:170). On trees that miss a child, or that give a delay a non-constant operand or an `if` a NULL or non-variable condition, the C code dereferences NULL or reads a field the parser did not set; that is not modelled.
- Syntax.VarOf: the `var` field of a node that is not a variable, which an assignment reads when an operand is not a variable (pic.c:134, pic.c:136), is whatever the parser left there, and the parser is not part of this model; it is modelled as NULL, so such an assignment writes nothing and gives one diagnostic.
- Pic.Generator.TranslateIf: the `tIf` case is a method of its own, and the `j end; nop` pair that the C code writes in both arms of `if(p->n == 3)` is written through `Go`; the lines are the same.
- An assignment whose first child is neither a constant nor a variable writes nothing (pic.c:132-137 falls through); the model does the same, with no separate lemma.
