/** The compiler's block graph as the emitter sees it (dolang-compile/src/cfg/mod.rs). */
module FlowGraphs {

  import B = Bytecode
  import opened Graphs

  /** How a block ends. `If` and `UnpackIf` go to `yes` on success, else to `no`. */
  datatype Term =
    | Ret
    | Branch(to: nat)
    | If(yes: nat, no: nat)
    | UnpackIf(sig: nat, yes: nat, no: nat)
    | NlBranch(depth: nat, indicator: nat)
    | ElseFallthrough(kind: nat)

  datatype Block = Block(insts: seq<B.Inst>, term: Term, inbound: set<nat>)

  function Succs(term: Term): set<nat> {
    match term
    case Branch(to) => {to}
    case If(yes, no) => {yes, no}
    case UnpackIf(_, yes, no) => {yes, no}
    case _ => {}
  }

  ghost predicate WellFormed(graph: seq<Block>) {
    forall x, y :: 0 <= x < |graph| && y in Succs(graph[x].term) ==> y < |graph|
  }

  function Edges(graph: seq<Block>): (g: Graph)
    ensures |g| == |graph| && forall x :: 0 <= x < |g| ==> g[x] == Succs(graph[x].term)
  {
    seq(|graph|, x requires 0 <= x < |graph| => Succs(graph[x].term))
  }

  // ----- trampolines -----

  /** Where an edge leads once trampolines, the blocks from `n` on, are skipped. */
  function Resolve(graph: seq<Block>, n: nat, y: nat): nat {
    if n <= y < |graph| && graph[y].term.Branch? then graph[y].term.to else y
  }

  function Collapse(graph: seq<Block>, n: nat, term: Term): Term {
    match term
    case Branch(to) => Branch(Resolve(graph, n, to))
    case If(yes, no) => If(Resolve(graph, n, yes), Resolve(graph, n, no))
    case UnpackIf(sig, yes, no) => UnpackIf(sig, Resolve(graph, n, yes), Resolve(graph, n, no))
    case _ => term
  }
}
