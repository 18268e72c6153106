/** FieldNameWalk: checks every field name of a filter and turns it into the SQL column it stands for. */
module FieldNames {
  import opened Wrappers
  import opened Text
  import opened TslTree

  const PROPERTIES := "properties."
  const PROPERTY_EXPRESSION := "properties ->>"

  /** getField: the trimmed name, or None for a name that is not allowed. */
  function GetField(name: string, disallowed: set<string>): Option<string> {
    var trimmed := Trim(name);
    if PROPERTY_EXPRESSION <= trimmed then Some(trimmed)
    else
      var parts := Split(trimmed, '.');
      if |parts| > 2 then None
      else
        var checkName := if |parts| > 1 then parts[1] else trimmed;
        if checkName in disallowed then None else Some(trimmed)
  }

  /** hasProperty; None where the type assertion on the identifier's name panics. */
  function HasProperty(n: Node): Option<bool> {
    if !n.left.Child? || n.left.node.func != IdentOp then Some(false)
    else if !n.left.node.left.Name? then None
    else Some(PROPERTIES <= n.left.node.left.text)
  }

  function PropertyExpression(name: string): string
    requires PROPERTIES <= name
  {
    "properties ->> '" + name[11..] + "'"
  }

  /** propertiesNodeConverter. */
  function ConvertProperty(n: Node): Node
    requires HasProperty(n) == Some(true)
  {
    n.(left := Child(Ident(PropertyExpression(n.left.node.left.text))))
  }

  /** tsl.Node{}: what a missing left operand becomes. */
  const ZERO := Node(Operator(""), NoLeft, NoRight)

  function FieldNameWalk(n0: Node, disallowed: set<string>): Walked
    decreases n0, 1
  {
    if HasProperty(n0).None? then Panic
    else WalkConverted(n0, if HasProperty(n0).value then ConvertProperty(n0) else n0, disallowed)
  }

  /** The walk of n0 once its own left property, if any, is converted. */
  function WalkConverted(n0: Node, n: Node, disallowed: set<string>): Walked
    requires n == n0 || (HasProperty(n0) == Some(true) && n == ConvertProperty(n0))
    decreases n0, 0
  {
    match n.func
    case IdentOp =>
      if !n.left.Name? then Rejected else FieldIdent(n.left.text, disallowed)
    case Operator(_) =>
      if n.left.Name? || n.left.Number? then Panic
      else
        var l := if n != n0 then FieldIdent(n.left.node.left.text, disallowed)
                 else if n.left.Child? then FieldNameWalk(n.left.node, disallowed)
                 else Tree(ZERO);
        if !l.Tree? then l
        else
          (match n.right
           case NoRight => Tree(Node(n.func, Child(l.node), NoRight))
           case One(right) =>
             var r := FieldNameWalk(right, disallowed);
             if r.Tree? then Tree(Node(n.func, Child(l.node), One(r.node))) else r
           case Many(rights) =>
             var rr := FieldNameWalkAll(rights, disallowed);
             if rr.Trees? then Tree(Node(n.func, Child(l.node), Many(rr.nodes))) else rr.why
           case Alien => Rejected)
    case _ => Tree(Node(n.func, n.left, NoRight))
  }

  function FieldIdent(name: string, disallowed: set<string>): Walked {
    var field := GetField(name, disallowed);
    if field.Some? then Tree(Ident(field.value)) else Rejected
  }

  function FieldNameWalkAll(ns: seq<Node>, disallowed: set<string>): AllWalked
    decreases ns
  {
    if ns == [] then Trees([])
    else
      var w := FieldNameWalk(ns[0], disallowed);
      if !w.Tree? then NotAll(w)
      else
        var ws := FieldNameWalkAll(ns[1..], disallowed);
        if ws.Trees? then Trees([w.node] + ws.nodes) else ws
  }

  /** The loop over a right-hand list, which stops at the first error. */
  method WalkAllFieldNames(v: seq<Node>, disallowed: set<string>) returns (walked: AllWalked)
    ensures walked == FieldNameWalkAll(v, disallowed)
    decreases v
  {
    var rr: seq<Node> := [];
    for i := 0 to |v|
      invariant FieldNameWalkAll(v, disallowed) == Prepended(rr, FieldNameWalkAll(v[i..], disallowed))
    {
      assert v[i..][1..] == v[i + 1..];
      var r := WalkFieldNames(v[i], disallowed);
      if !r.Tree? {
        return NotAll(r);
      }
      rr := rr + [r.node];
    }
    assert v[|v|..] == [] && rr + [] == rr;
    return Trees(rr);
  }

  /** The walk as it runs: the right-hand list is collected in a loop. */
  method WalkFieldNames(n0: Node, disallowed: set<string>) returns (walked: Walked)
    ensures walked == FieldNameWalk(n0, disallowed)
    decreases n0
  {
    var property := HasProperty(n0);
    if property.None? {
      return Panic;
    }
    var n := n0;
    if property.value {
      n := ConvertProperty(n);
    }
    match n.func
    case IdentOp =>
      return if !n.left.Name? then Rejected else FieldIdent(n.left.text, disallowed);
    case Operator(_) =>
      if n.left.Name? || n.left.Number? {
        return Panic;
      }
      var l := Tree(ZERO);
      if property.value {
        l := FieldIdent(n.left.node.left.text, disallowed);
      } else if n.left.Child? {
        l := WalkFieldNames(n.left.node, disallowed);
      }
      if !l.Tree? {
        return l;
      }
      match n.right {
        case NoRight =>
          return Tree(Node(n.func, Child(l.node), NoRight));
        case One(right) =>
          var r := WalkFieldNames(right, disallowed);
          return if r.Tree? then Tree(Node(n.func, Child(l.node), One(r.node))) else r;
        case Many(v) =>
          var rr := WalkAllFieldNames(v, disallowed);
          return if rr.Trees? then Tree(Node(n.func, Child(l.node), Many(rr.nodes))) else rr.why;
        case Alien =>
          return Rejected;
      }
    case _ =>
      return Tree(Node(n.func, n.left, NoRight));
  }

  function Prepended(done: seq<Node>, rest: AllWalked): AllWalked {
    if rest.Trees? then Trees(done + rest.nodes) else rest
  }

  // ---------- what the walk accepts and returns ----------

  predicate FieldOk(name: string, disallowed: set<string>) {
    GetField(name, disallowed).Some?
  }

  function Allowed(disallowed: set<string>): string -> bool {
    name => FieldOk(name, disallowed)
  }

  /** The tree with every property identifier that is a left operand in its converted form. */
  function Converted(n: Node): Node
    decreases n
  {
    if !n.func.Operator? then n
    else
      Node(n.func,
           if !n.left.Child? then n.left
           else if HasProperty(n) == Some(true) then Child(Ident(PropertyExpression(n.left.node.left.text)))
           else Child(Converted(n.left.node)),
           match n.right
           case One(r) => One(Converted(r))
           case Many(rs) => Many(ConvertedAll(rs))
           case NoRight => NoRight
           case Alien => Alien)
  }

  function ConvertedAll(ns: seq<Node>): (ms: seq<Node>)
    ensures |ms| == |ns|
    decreases ns
  {
    if ns == [] then [] else [Converted(ns[0])] + ConvertedAll(ns[1..])
  }

  function Trimming(): string -> string {
    name => Trim(name)
  }

  function Trimmed(n: Node): Node {
    Map(Trimming(), n)
  }

  /** An identifier is accepted as a tree if and only if it is accepted as a name. */
  lemma IdentAccepts(name: string, disallowed: set<string>)
    ensures FieldIdent(name, disallowed) == Expected(true, Ident(name), disallowed)
  {
    assert Idents(Ident(name)) == [name];
    assert AllOk([name], Allowed(disallowed)) <==> FieldOk([name][0], disallowed);
  }

  /** The walk's result on a tree whose converted form is c. */
  function Expected(plain: bool, c: Node, disallowed: set<string>): Walked {
    if plain && AllOk(Idents(c), Allowed(disallowed)) then Tree(Trimmed(c)) else Rejected
  }

  function ExpectedAll(plain: bool, cs: seq<Node>, disallowed: set<string>): AllWalked {
    if plain && AllOk(AllIdents(cs), Allowed(disallowed)) then Trees(MapAll(Trimming(), cs)) else NotAll(Rejected)
  }

  /** The left operand of an operator, converted or walked. */
  lemma LeftAccepts(n: Node, disallowed: set<string>)
    requires Parsed(n) && n.func.Operator?
    requires FieldNameWalk(n.left.node, disallowed) ==
             Expected(Plain(n.left.node), Converted(n.left.node), disallowed)
    ensures LeftWalk(n, disallowed) == Expected(Plain(n.left.node), Converted(n).left.node, disallowed)
  {
    if HasProperty(n) == Some(true) { IdentAccepts(PropertyExpression(n.left.node.left.text), disallowed); }
  }

  /**
   * On a parsed tree the walk succeeds exactly when every identifier, in its converted form, is an
   * allowed field and every right-hand side is absent, a node or a list; it then returns the
   * converted tree with its identifiers trimmed, and otherwise an error. It never panics.
   */
  lemma {:induction false} WalkAccepts(n: Node, disallowed: set<string>)
    requires Parsed(n)
    ensures FieldNameWalk(n, disallowed) ==
            if Plain(n) && AllOk(Idents(Converted(n)), Allowed(disallowed)) then Tree(Trimmed(Converted(n))) else Rejected
    decreases n
  {
    if n.func == IdentOp {
      IdentAccepts(n.left.text, disallowed);
    } else if n.func.Operator? {
      WalkAccepts(n.left.node, disallowed);
      LeftAccepts(n, disallowed);
      match n.right {
        case One(r) =>
          WalkAccepts(r, disallowed);
          WalkOfOne(n, disallowed);
          ExpectedOne(n, disallowed);
        case Many(rs) =>
          WalkAllAccepts(rs, disallowed);
          WalkOfMany(n, disallowed);
          ExpectedMany(n, disallowed);
        case _ =>
          NoneAccepts(n, disallowed);
      }
    }
  }

  lemma NoneAccepts(n: Node, disallowed: set<string>)
    requires Parsed(n) && n.func.Operator? && !n.right.One? && !n.right.Many?
    requires LeftWalk(n, disallowed) == Expected(Plain(n.left.node), Converted(n).left.node, disallowed)
    ensures FieldNameWalk(n, disallowed) == Expected(Plain(n), Converted(n), disallowed)
  {
    assert Idents(Converted(n)) == Idents(Converted(n).left.node);
  }

  /** What the walk makes of the left operand. */
  function LeftWalk(n: Node, disallowed: set<string>): Walked
    requires Parsed(n) && n.func.Operator?
  {
    if HasProperty(n) == Some(true) then FieldIdent(PropertyExpression(n.left.node.left.text), disallowed)
    else FieldNameWalk(n.left.node, disallowed)
  }

  /** An operator from its walked operands. */
  function WithRight(func: Func, l: Walked, r: Walked): Walked {
    if !l.Tree? then l else if !r.Tree? then r else Tree(Node(func, Child(l.node), One(r.node)))
  }

  function WithRights(func: Func, l: Walked, rr: AllWalked): Walked {
    if !l.Tree? then l else if !rr.Trees? then rr.why else Tree(Node(func, Child(l.node), Many(rr.nodes)))
  }

  lemma WalkOfOne(n: Node, disallowed: set<string>)
    requires Parsed(n) && n.func.Operator? && n.right.One?
    ensures FieldNameWalk(n, disallowed) ==
            WithRight(n.func, LeftWalk(n, disallowed), FieldNameWalk(n.right.node, disallowed))
  {
  }

  lemma WalkOfMany(n: Node, disallowed: set<string>)
    requires Parsed(n) && n.func.Operator? && n.right.Many?
    ensures FieldNameWalk(n, disallowed) ==
            WithRights(n.func, LeftWalk(n, disallowed), FieldNameWalkAll(n.right.nodes, disallowed))
  {
  }

  lemma ExpectedOne(n: Node, disallowed: set<string>)
    requires Parsed(n) && n.func.Operator? && n.right.One?
    ensures Expected(Plain(n), Converted(n), disallowed) ==
            WithRight(n.func, Expected(Plain(n.left.node), Converted(n).left.node, disallowed),
                      Expected(Plain(n.right.node), Converted(n.right.node), disallowed))
  {
    AllOkBoth(Idents(Converted(n).left.node), Idents(Converted(n.right.node)), Allowed(disallowed));
  }

  lemma ExpectedMany(n: Node, disallowed: set<string>)
    requires Parsed(n) && n.func.Operator? && n.right.Many?
    ensures Expected(Plain(n), Converted(n), disallowed) ==
            WithRights(n.func, Expected(Plain(n.left.node), Converted(n).left.node, disallowed),
                       ExpectedAll(AllPlain(n.right.nodes), ConvertedAll(n.right.nodes), disallowed))
  {
    AllOkBoth(Idents(Converted(n).left.node), AllIdents(ConvertedAll(n.right.nodes)), Allowed(disallowed));
  }

  lemma {:induction false} WalkAllAccepts(ns: seq<Node>, disallowed: set<string>)
    requires AllParsed(ns)
    ensures FieldNameWalkAll(ns, disallowed) ==
            ExpectedAll(AllPlain(ns), ConvertedAll(ns), disallowed)
    decreases ns
  {
    if ns != [] {
      WalkAccepts(ns[0], disallowed);
      WalkAllAccepts(ns[1..], disallowed);
      var cs := ConvertedAll(ns);
      assert cs[1..] == ConvertedAll(ns[1..]);
      AllOkBoth(Idents(cs[0]), AllIdents(cs[1..]), Allowed(disallowed));
    }
  }

  // ---------- shape and second walks ----------

  /** Same operators, literals and list lengths; only identifiers may differ. */
  predicate SameShape(n: Node, m: Node)
    decreases n
  {
    && n.func == m.func
    && (match n.func
        case IdentOp => n.left.Name? && m.left.Name?
        case Operator(_) =>
          && n.left.Child? && m.left.Child? && SameShape(n.left.node, m.left.node)
          && (match n.right
              case NoRight => m.right.NoRight?
              case One(r) => m.right.One? && SameShape(r, m.right.node)
              case Many(rs) => m.right.Many? && SameShapes(rs, m.right.nodes)
              case Alien => m.right.Alien?)
        case _ => n.left == m.left)
  }

  predicate SameShapes(ns: seq<Node>, ms: seq<Node>)
    decreases ns
  {
    |ns| == |ms| && (ns == [] || (SameShape(ns[0], ms[0]) && SameShapes(ns[1..], ms[1..])))
  }

  /** What the walk makes of an accepted tree, and a second walk of its result. */
  function Again(n: Node): Node {
    Trimmed(Converted(n))
  }

  /** The same for the left operand of an operator. */
  function AgainLeft(l: Node): Node {
    if l.func == IdentOp && l.left.Name? && PROPERTIES <= l.left.text
    then Ident(Trim(PropertyExpression(l.left.text))) else Again(l)
  }

  lemma AgainOperator(n: Node)
    requires n.func.Operator? && n.left.Child? && HasProperty(n).Some?
    ensures Again(n) == Node(n.func, Child(AgainLeft(n.left.node)),
                             match n.right
                             case One(r) => One(Again(r))
                             case Many(rs) => Many(MapAll(Trimming(), ConvertedAll(rs)))
                             case NoRight => NoRight
                             case Alien => Alien)
  {
    if HasProperty(n) == Some(true) {
      var e := PropertyExpression(n.left.node.left.text);
      assert Trimmed(Ident(e)) == Ident(Trim(e));
    }
  }

  lemma {:induction false} ResultShape(n: Node)
    requires Parsed(n)
    ensures SameShape(n, Again(n))
    decreases n
  {
    if n.func.Operator? {
      AgainOperator(n);
      ResultShape(n.left.node);
      if n.right.One? { ResultShape(n.right.node); }
      if n.right.Many? { ResultShapes(n.right.nodes); }
    }
  }

  lemma {:induction false} ResultShapes(ns: seq<Node>)
    requires AllParsed(ns)
    ensures SameShapes(ns, MapAll(Trimming(), ConvertedAll(ns)))
    decreases ns
  {
    if ns != [] {
      ResultShape(ns[0]);
      ResultShapes(ns[1..]);
    }
  }

  /** A left operand whose name is a property only once its outer blanks are gone. */
  predicate HiddenProperty(l: Node) {
    l.func == IdentOp && l.left.Name? && !(PROPERTIES <= l.left.text) && PROPERTIES <= Trim(l.left.text)
  }

  predicate NoHiddenProperty(n: Node)
    decreases n
  {
    n.func.Operator? ==>
      && (n.left.Child? ==> !HiddenProperty(n.left.node) && NoHiddenProperty(n.left.node))
      && (match n.right
          case One(r) => NoHiddenProperty(r)
          case Many(rs) => NoneHidden(rs)
          case _ => true)
  }

  predicate NoneHidden(ns: seq<Node>)
    decreases ns
  {
    ns == [] || (NoHiddenProperty(ns[0]) && NoneHidden(ns[1..]))
  }

  /** A converted property is not a property any more, and has no outer blanks. */
  lemma ExpressionSettles(name: string)
    requires PROPERTIES <= name
    ensures var e := PropertyExpression(name);
            Trim(e) == e && !(PROPERTIES <= e) && e != name
  {
    var e := PropertyExpression(name);
    assert e[10] == ' ' && name[10] == '.' && PROPERTIES[10] == '.';
    TrimKeeps(e);
  }

  lemma LeftSettles(l: Node)
    requires l.func == IdentOp && l.left.Name? && l.right.NoRight?
    ensures Parsed(AgainLeft(l)) && Plain(AgainLeft(l))
    ensures AgainLeft(AgainLeft(l)) == AgainLeft(l) <==> !HiddenProperty(l)
  {
    TrimTwice(l.left.text);
    if PROPERTIES <= l.left.text { ExpressionSettles(l.left.text); }
    if PROPERTIES <= Trim(l.left.text) { ExpressionSettles(Trim(l.left.text)); }
  }

  lemma {:induction false} ResultSettles(n: Node)
    requires Parsed(n)
    ensures var r := Again(n);
            Parsed(r) && (Plain(r) <==> Plain(n)) && (Again(r) == r <==> NoHiddenProperty(n))
    decreases n, 0
  {
    if n.func == IdentOp {
      TrimTwice(n.left.text);
    } else if n.func.Operator? {
      OperandSettles(n.left.node);
      AgainOperator(n);
      AgainOperator(Again(n));
      if n.right.One? { ResultSettles(n.right.node); }
      if n.right.Many? { ResultsSettle(n.right.nodes); }
    }
  }

  lemma {:induction false} OperandSettles(l: Node)
    requires Parsed(l)
    ensures var r := AgainLeft(l);
            Parsed(r) && (Plain(r) <==> Plain(l))
            && (AgainLeft(r) == r <==> !HiddenProperty(l) && NoHiddenProperty(l))
    decreases l, 1
  {
    if l.func == IdentOp { LeftSettles(l); } else { ResultSettles(l); }
  }

  lemma {:induction false} ResultsSettle(ns: seq<Node>)
    requires AllParsed(ns)
    ensures var rs := MapAll(Trimming(), ConvertedAll(ns));
            AllParsed(rs) && (AllPlain(rs) <==> AllPlain(ns))
            && (MapAll(Trimming(), ConvertedAll(rs)) == rs <==> NoneHidden(ns))
    decreases ns, 0
  {
    if ns != [] {
      ResultSettles(ns[0]);
      ResultsSettle(ns[1..]);
    }
  }

  /** Trimming does not change which fields are allowed. */
  lemma {:induction false} TrimmedFieldsOk(n: Node, disallowed: set<string>)
    ensures AllOk(Idents(Trimmed(n)), Allowed(disallowed)) <==> AllOk(Idents(n), Allowed(disallowed))
    decreases n
  {
    var t := Trimmed(n);
    if n.func == IdentOp {
      if n.left.Name? {
        TrimTwice(n.left.text);
        assert Idents(n) == [n.left.text] && Idents(t) == [Trim(n.left.text)];
        assert AllOk(Idents(n), Allowed(disallowed)) <==> FieldOk(Idents(n)[0], disallowed);
        assert AllOk(Idents(t), Allowed(disallowed)) <==> FieldOk(Idents(t)[0], disallowed);
      }
    } else if n.func.Operator? {
      var l, l' := if n.left.Child? then Idents(n.left.node) else [], if t.left.Child? then Idents(t.left.node) else [];
      if n.left.Child? { TrimmedFieldsOk(n.left.node, disallowed); }
      match n.right {
        case One(r) =>
          TrimmedFieldsOk(r, disallowed);
          AllOkBoth(l, Idents(r), Allowed(disallowed));
          AllOkBoth(l', Idents(t.right.node), Allowed(disallowed));
        case Many(rs) =>
          AllTrimmedFieldsOk(rs, disallowed);
          AllOkBoth(l, AllIdents(rs), Allowed(disallowed));
          AllOkBoth(l', AllIdents(t.right.nodes), Allowed(disallowed));
        case _ =>
          AllOkBoth(l, [], Allowed(disallowed));
          AllOkBoth(l', [], Allowed(disallowed));
      }
    }
  }

  lemma {:induction false} AllTrimmedFieldsOk(ns: seq<Node>, disallowed: set<string>)
    ensures AllOk(AllIdents(MapAll(Trimming(), ns)), Allowed(disallowed)) <==> AllOk(AllIdents(ns), Allowed(disallowed))
    decreases ns
  {
    if ns != [] {
      TrimmedFieldsOk(ns[0], disallowed);
      AllTrimmedFieldsOk(ns[1..], disallowed);
      AllOkBoth(Idents(ns[0]), AllIdents(ns[1..]), Allowed(disallowed));
      var ts := MapAll(Trimming(), ns);
      assert ts[1..] == MapAll(Trimming(), ns[1..]);
      AllOkBoth(Idents(ts[0]), AllIdents(ts[1..]), Allowed(disallowed));
    }
  }

  /**
   * Walking the result of an accepted tree gives that result again if and only if no left operand of
   * the tree hides a property behind outer blanks: a property that was converted is never converted
   * a second time.
   */
  lemma SecondWalk(n: Node, disallowed: set<string>)
    requires Parsed(n) && FieldNameWalk(n, disallowed).Tree?
    ensures var r := FieldNameWalk(n, disallowed).node;
            && SameShape(n, r)
            && (FieldNameWalk(r, disallowed) == Tree(r) <==> NoHiddenProperty(n))
  {
    WalkAccepts(n, disallowed);
    ResultShape(n);
    ResultSettles(n);
    var r := Again(n);
    WalkAccepts(r, disallowed);
    TrimmedFieldsOk(Converted(n), disallowed);
    if Again(r) == r { TrimmedFieldsOk(Converted(r), disallowed); }
  }

  // ---------- which names are fields ----------

  predicate Dotted(t: string, table: string, column: string) {
    t == table + "." + column && '.' !in table && '.' !in column
  }

  /**
   * A name is a field, and stands for itself without its outer blanks, if and only if it is a property
   * expression, an allowed column, or an allowed column behind one table name.
   */
  lemma {:induction false} FieldOkIff(name: string, disallowed: set<string>)
    ensures var t := Trim(name);
            FieldOk(name, disallowed) <==>
              || PROPERTY_EXPRESSION <= t
              || ('.' !in t && t !in disallowed)
              || exists table, column :: Dotted(t, table, column) && column !in disallowed
    ensures FieldOk(name, disallowed) ==> GetField(name, disallowed) == Some(Trim(name))
  {
    var t := Trim(name);
    var parts := Split(t, '.');
    JoinUndoesSplit(t, '.');
    if |parts| == 2 {
      assert parts[1..] == [parts[1]];
      assert Dotted(t, parts[0], parts[1]);
    }
    if '.' !in t { SplitWhole(t, '.'); }
    forall table, column | Dotted(t, table, column) ensures parts == [table, column] {
      assert t == table + ['.'] + column;
      SplitFirst(table, column, '.');
      SplitWhole(column, '.');
    }
  }

  // ---------- an instance ----------

  function Is(field: string, text: string): Node {
    Node(Operator("="), Child(Ident(field)), One(Node(StringOp, Name(text), NoRight)))
  }

  lemma IsMapped(f: string -> string, name: string, text: string)
    ensures Map(f, Is(name, text)) == Is(f(name), text) && Idents(Is(name, text)) == [name]
    ensures Parsed(Is(name, text)) && Plain(Is(name, text))
  {
    var literal := Node(StringOp, Name(text), NoRight);
    assert Map(f, Ident(name)) == Ident(f(name)) && Map(f, literal) == literal;
    assert Idents(Ident(name)) == [name] && Idents(literal) == [];
  }

  function ExpressionOf(name: string): string {
    if PROPERTIES <= name then PropertyExpression(name) else name
  }

  lemma WalkOfIs(name: string, text: string, disallowed: set<string>)
    requires FieldOk(ExpressionOf(name), disallowed)
    ensures FieldNameWalk(Is(name, text), disallowed) == Tree(Is(Trim(ExpressionOf(name)), text))
  {
    IsMapped(Trimming(), name, text);
    IsMapped(Trimming(), ExpressionOf(name), text);
    assert Converted(Is(name, text)) == Is(ExpressionOf(name), text);
    WalkAccepts(Is(name, text), disallowed);
  }

  lemma PropertyNames(hidden: string, name: string, expression: string)
    requires hidden == " properties.x" && name == "properties.x" && expression == "properties ->> 'x'"
    ensures Trim(hidden) == name && FieldOk(hidden, {}) && ExpressionOf(hidden) == hidden
    ensures ExpressionOf(name) == expression && Trim(expression) == expression && FieldOk(expression, {})
  {
    assert hidden[1..] == name;
    TrimKeeps(name);
    TrimKeeps(expression);
    assert name == "properties" + ['.'] + "x" && name[11..] == "x";
    SplitFirst("properties", "x", '.');
    SplitWhole("x", '.');
    assert PROPERTIES <= name;
  }

  lemma WalksOfHidden(hidden: string, name: string, expression: string)
    requires hidden == " properties.x" && name == "properties.x" && expression == "properties ->> 'x'"
    ensures FieldNameWalk(Is(hidden, "1"), {}) == Tree(Is(name, "1"))
    ensures FieldNameWalk(Is(name, "1"), {}) == Tree(Is(expression, "1"))
    ensures !NoHiddenProperty(Is(hidden, "1"))
  {
    PropertyNames(hidden, name, expression);
    WalkOfIs(hidden, "1", {});
    WalkOfIs(name, "1", {});
    assert HiddenProperty(Is(hidden, "1").left.node) by { assert PROPERTIES <= name; }
  }

  /** The first walk only trims the hidden property; the second one converts it. */
  lemma HiddenPropertyInstance()
    ensures FieldNameWalk(Is(" properties.x", "1"), {}) == Tree(Is("properties.x", "1"))
    ensures FieldNameWalk(Is("properties.x", "1"), {}) == Tree(Is("properties ->> 'x'", "1"))
    ensures !NoHiddenProperty(Is(" properties.x", "1"))
  {
    WalksOfHidden(" properties.x", "properties.x", "properties ->> 'x'");
  }
}
