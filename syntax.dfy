/** The syntax tree handed to the code generator: `t_node` with its closed
    set of seven tags `t_nodeType`. */
module Syntax {
  import opened Registry

  /** A possibly NULL `t_varNode *`. */
  datatype Option<T> = None | Some(value: T)

  /** One constructor per tag. Only `Const` carries `value` and only `Var`
      carries `var`; the other tags keep their operands in `children`, whose
      length is the C field `n`. */
  datatype Node =
    | Const(value: int)
    | Var(binding: Option<VarBinding>)
    | Block(children: seq<Node>)
    | Assign(children: seq<Node>)
    | Loop(children: seq<Node>)
    | Delay(children: seq<Node>)
    | If(children: seq<Node>)

  /** The `var` field as `translate` reads it: NULL on any node but a `Var`. */
  function VarOf(p: Node): (b: Option<VarBinding>)
    ensures b.Some? ==> p.Var? && p.binding == b
    ensures p.Var? ==> b == p.binding
  {
    if p.Var? then p.binding else None
  }

  /** The children `translate` reads: an assignment its source and target,
      a loop and a delay their first operand (for a delay, a constant), and
      an `If` a non-NULL condition variable and a then branch, plus the else
      branch when it has exactly three children. Children beyond those are
      never read. The branches, loop bodies and block statements that get
      translated are well formed in turn; the operands of an assignment are
      never translated themselves. */
  predicate WellFormed(p: Node) {
    match p
    case Const(_) => true
    case Var(_) => true
    case Block(cs) => forall q <- cs :: WellFormed(q)
    case Assign(cs) => |cs| >= 2
    case Loop(cs) => |cs| >= 1 && WellFormed(cs[0])
    case Delay(cs) => |cs| >= 1 && cs[0].Const?
    case If(cs) =>
      && |cs| >= 2
      && cs[0].Var? && cs[0].binding.Some?
      && WellFormed(cs[1])
      && (|cs| == 3 ==> WellFormed(cs[2]))
  }
}
