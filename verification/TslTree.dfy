/** Parsed search filters: tsl.Node, and the identifier walk of the TSL library. */
module TslTree {
  datatype Func = IdentOp | StringOp | NumberOp | Operator(name: string)

  /** A tsl.Node; Left and Right are interface values in Go, so any shape can be built. */
  datatype Node = Node(func: Func, left: Left, right: Right)
  datatype Left = NoLeft | Name(text: string) | Number(value: real) | Child(node: Node)
  datatype Right = NoRight | One(node: Node) | Many(nodes: seq<Node>) | Alien

  /** What a walk returns: a tree, a bad-request error, or a run-time panic. */
  datatype Walked = Tree(node: Node) | Rejected | Panic
  datatype AllWalked = Trees(nodes: seq<Node>) | NotAll(why: Walked)

  function Ident(name: string): Node {
    Node(IdentOp, Name(name), NoRight)
  }

  /** A tree as the parser builds them: identifiers carry their name, operators have a left operand. */
  predicate Parsed(n: Node)
    decreases n
  {
    match n.func
    case IdentOp => n.left.Name? && n.right.NoRight?
    case Operator(_) =>
      && n.left.Child? && Parsed(n.left.node)
      && (match n.right
          case NoRight => true
          case One(r) => Parsed(r)
          case Many(rs) => AllParsed(rs)
          case Alien => true)
    case _ => !n.left.Child? && n.right.NoRight?
  }

  predicate AllParsed(ns: seq<Node>)
    decreases ns
  {
    ns == [] || (Parsed(ns[0]) && AllParsed(ns[1..]))
  }

  /** No right-hand side of a type that the walks do not know. */
  predicate Plain(n: Node)
    decreases n
  {
    && (n.left.Child? ==> Plain(n.left.node))
    && (match n.right
        case One(r) => Plain(r)
        case Many(rs) => AllPlain(rs)
        case NoRight => true
        case Alien => false)
  }

  predicate AllPlain(ns: seq<Node>)
    decreases ns
  {
    ns == [] || (Plain(ns[0]) && AllPlain(ns[1..]))
  }

  /** The identifiers of a tree from left to right. */
  function Idents(n: Node): seq<string>
    decreases n
  {
    match n.func
    case IdentOp => if n.left.Name? then [n.left.text] else []
    case Operator(_) =>
      (if n.left.Child? then Idents(n.left.node) else []) +
      (match n.right
       case One(r) => Idents(r)
       case Many(rs) => AllIdents(rs)
       case NoRight => []
       case Alien => [])
    case _ => []
  }

  function AllIdents(ns: seq<Node>): seq<string>
    decreases ns
  {
    if ns == [] then [] else Idents(ns[0]) + AllIdents(ns[1..])
  }

  /** Every name is ok. */
  predicate AllOk(names: seq<string>, ok: string -> bool) {
    forall i :: 0 <= i < |names| ==> ok(names[i])
  }

  lemma AllOkBoth(a: seq<string>, b: seq<string>, ok: string -> bool)
    ensures AllOk(a + b, ok) <==> AllOk(a, ok) && AllOk(b, ok)
  {
    if AllOk(a + b, ok) {
      forall i | 0 <= i < |a| ensures ok(a[i]) { assert a[i] == (a + b)[i]; }
      forall i | 0 <= i < |b| ensures ok(b[i]) { assert b[i] == (a + b)[|a| + i]; }
    }
  }

  /** The tree with every identifier renamed. */
  function Map(f: string -> string, n: Node): Node
    decreases n
  {
    match n.func
    case IdentOp => if n.left.Name? then n.(left := Name(f(n.left.text))) else n
    case Operator(_) =>
      Node(n.func,
           if n.left.Child? then Child(Map(f, n.left.node)) else n.left,
           match n.right
           case One(r) => One(Map(f, r))
           case Many(rs) => Many(MapAll(f, rs))
           case NoRight => NoRight
           case Alien => Alien)
    case _ => n
  }

  function MapAll(f: string -> string, ns: seq<Node>): (ms: seq<Node>)
    ensures |ms| == |ns|
    decreases ns
  {
    if ns == [] then [] else [Map(f, ns[0])] + MapAll(f, ns[1..])
  }

  // ---------- ident.Walk ----------

  /** What the callback of ident.Walk answers for an identifier. */
  datatype Answer = Renamed(name: string) | Refused | Crashed

  /** ident.Walk: calls the callback on every identifier from left to right; the callback has a state. */
  function IdentWalk<S>(call: (S, string) -> (S, Answer), s: S, n: Node): (S, Walked)
    decreases n
  {
    match n.func
    case IdentOp =>
      if !n.left.Name? then (s, Panic)
      else
        var (s1, answer) := call(s, n.left.text);
        (s1, match answer
             case Renamed(name) => Tree(n.(left := Name(name)))
             case Refused => Rejected
             case Crashed => Panic)
    case Operator(_) =>
      if n.left.Name? || n.left.Number? then (s, Panic)
      else
        var (s1, l) := if n.left.Child? then IdentWalk(call, s, n.left.node) else (s, Tree(n));
        if !l.Tree? then (s1, l)
        else
          var left := if n.left.Child? then Child(l.node) else NoLeft;
          (match n.right
           case NoRight => (s1, Tree(Node(n.func, left, NoRight)))
           case One(r) =>
             var (s2, w) := IdentWalk(call, s1, r);
             (s2, if w.Tree? then Tree(Node(n.func, left, One(w.node))) else w)
           case Many(rs) =>
             var (s2, ws) := IdentWalkAll(call, s1, rs);
             (s2, if ws.Trees? then Tree(Node(n.func, left, Many(ws.nodes))) else ws.why)
           case Alien => (s1, Rejected))
    case _ => (s, Tree(n))
  }

  function IdentWalkAll<S>(call: (S, string) -> (S, Answer), s: S, ns: seq<Node>): (S, AllWalked)
    decreases ns
  {
    if ns == [] then (s, Trees([]))
    else
      var (s1, w) := IdentWalk(call, s, ns[0]);
      if !w.Tree? then (s1, NotAll(w))
      else
        var (s2, ws) := IdentWalkAll(call, s1, ns[1..]);
        (s2, if ws.Trees? then Trees([w.node] + ws.nodes) else ws)
  }
}
