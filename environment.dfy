/**
 * The interpreter's environments (src/Culebra/Interpreter/Treewalk/VarEnv.cs):
 * a node holds a variable table and a function table, both updated in
 * place, and a link to its enclosing node. Lookups and assignments walk the
 * links outwards; definitions only ever touch the node they are made in.
 *
 * The pure part describes a chain of nodes as a sequence of frames,
 * innermost first; the class is proved against it.
 */
module Environment {
  import opened Diagnostics
  import opened Tokens
  import opened Ast
  import opened Values

  /** A stored function declaration (the fields of a `FuncDeclarationStmt`). */
  datatype FuncDecl = FuncDecl(rtype: Type, name: Token, parameters: seq<Parameter>, body: Stmt)

  /** The two tables of one environment node. */
  datatype Frame = Frame(vars: map<string, Value>, functions: map<string, FuncDecl>)

  const EmptyFrame: Frame := Frame(map[], map[])

  /** A chain of nodes, innermost first; the last one is the root. */
  type Chain = seq<Frame>

  // ---------------------------------------------------------------------
  // One node: `defineVar` and `defineFunc` (`TryAdd`)

  /** Defining a variable fails exactly when this node already has one of that name. */
  function DeclareVar(f: Frame, name: string, v: Value): (r: Result<Frame>)
    ensures r.Err? <==> name in f.vars
    ensures r.Err? ==> r.error == DuplicateVariable(name)
    ensures r.Ok? ==> r.value.vars == f.vars[name := v] && r.value.functions == f.functions
  {
    if name in f.vars then Err(DuplicateVariable(name)) else Ok(f.(vars := f.vars[name := v]))
  }

  /** Defining a function fails exactly when this node already has a function of that name. */
  function DeclareFunc(f: Frame, name: string, d: FuncDecl): (r: Result<Frame>)
    ensures r.Err? <==> name in f.functions
    ensures r.Err? ==> r.error == DuplicateFunction(name)
    ensures r.Ok? ==> r.value.functions == f.functions[name := d] && r.value.vars == f.vars
  {
    if name in f.functions then Err(DuplicateFunction(name)) else Ok(f.(functions := f.functions[name := d]))
  }

  /** Variables and functions are separate namespaces: a name taken in one is free in the other. */
  lemma SeparateNamespaces(f: Frame, name: string, v: Value, d: FuncDecl)
    requires name in f.vars && name !in f.functions
    ensures DeclareVar(f, name, v).Err? && DeclareFunc(f, name, d).Ok?
    ensures DeclareVar(DeclareFunc(f, name, d).value, name, v).Err?
  {
  }

  // ---------------------------------------------------------------------
  // The chain: `getVar`, `getFunc`, `assignVar`

  /** The index of the nearest node that has variable `name`, or |c| when none has. */
  function Defining(c: Chain, name: string): (k: nat)
    ensures k <= |c|
    ensures forall j :: 0 <= j < k ==> name !in c[j].vars
    ensures k < |c| ==> name in c[k].vars
    decreases |c|
  {
    if |c| == 0 then 0
    else if name in c[0].vars then 0
    else 1 + Defining(c[1..], name)
  }

  /** The index of the nearest node that has function `name`, or |c| when none has. */
  function DefiningFunc(c: Chain, name: string): (k: nat)
    ensures k <= |c|
    ensures forall j :: 0 <= j < k ==> name !in c[j].functions
    ensures k < |c| ==> name in c[k].functions
    decreases |c|
  {
    if |c| == 0 then 0
    else if name in c[0].functions then 0
    else 1 + DefiningFunc(c[1..], name)
  }

  /** `getVar`: this node's binding, else the enclosing node's; a miss at the root is an error. */
  function LookupVar(c: Chain, name: string): Result<Value>
    decreases |c|
  {
    if |c| == 0 then Err(VariableNotFound(name))
    else if name in c[0].vars then Ok(c[0].vars[name])
    else LookupVar(c[1..], name)
  }

  /** `getFunc`, the same walk over the function tables. */
  function LookupFunc(c: Chain, name: string): Result<FuncDecl>
    decreases |c|
  {
    if |c| == 0 then Err(FunctionNotFound(name))
    else if name in c[0].functions then Ok(c[0].functions[name])
    else LookupFunc(c[1..], name)
  }

  /** A lookup finds the binding of the nearest node that has the name, and fails when none has. */
  lemma {:induction false} LookupNearest(c: Chain, name: string)
    ensures LookupVar(c, name) ==
      if Defining(c, name) < |c| then Ok(c[Defining(c, name)].vars[name]) else Err(VariableNotFound(name))
    ensures LookupFunc(c, name) ==
      if DefiningFunc(c, name) < |c| then Ok(c[DefiningFunc(c, name)].functions[name])
      else Err(FunctionNotFound(name))
    decreases |c|
  {
    if |c| > 0 {
      LookupNearest(c[1..], name);
    }
  }

  /**
   * `assignVar`: an unbound name is an error; otherwise the value is stored
   * in the node defining the name and, because the walk back does not stop
   * there, in every node between it and the innermost one.
   */
  function AssignChain(c: Chain, name: string, v: Value): Result<Chain>
    decreases |c|
  {
    if |c| == 0 then Err(UnboundAssignment(name))
    else if name in c[0].vars then Ok([c[0].(vars := c[0].vars[name := v])] + c[1..])
    else
      var rest := AssignChain(c[1..], name, v);
      if rest.Err? then rest else Ok([c[0].(vars := c[0].vars[name := v])] + rest.value)
  }

  /**
   * An assignment succeeds exactly when some node defines the name; it then
   * binds the name in every node up to and including the nearest definer,
   * leaves the nodes beyond and every function table alone, and afterwards
   * the name looks up to the assigned value.
   */
  lemma {:induction false} AssignAlongChain(c: Chain, name: string, v: Value)
    ensures AssignChain(c, name, v).Ok? <==> Defining(c, name) < |c|
    ensures AssignChain(c, name, v).Err? ==> AssignChain(c, name, v).error == UnboundAssignment(name)
    ensures AssignChain(c, name, v).Ok? ==>
      var r := AssignChain(c, name, v).value;
      |r| == |c| &&
      (forall j :: 0 <= j < |c| ==> r[j].functions == c[j].functions) &&
      (forall j :: 0 <= j <= Defining(c, name) ==> r[j].vars == c[j].vars[name := v]) &&
      (forall j :: Defining(c, name) < j < |c| ==> r[j] == c[j])
    decreases |c|
  {
    if |c| > 0 && name !in c[0].vars {
      AssignAlongChain(c[1..], name, v);
      var rest := AssignChain(c[1..], name, v);
      if rest.Ok? {
        var r := AssignChain(c, name, v).value;
        assert r == [c[0].(vars := c[0].vars[name := v])] + rest.value;
        assert Defining(c, name) == 1 + Defining(c[1..], name);
        forall j | 1 <= j < |c|
          ensures r[j] == rest.value[j - 1] && c[j] == c[1..][j - 1]
        {
        }
      }
    }
  }

  /** After an assignment the name reads back as the assigned value, and every other name reads as before. */
  lemma {:induction false} AssignThenLookup(c: Chain, name: string, v: Value, other: string)
    requires AssignChain(c, name, v).Ok?
    ensures LookupVar(AssignChain(c, name, v).value, name) == Ok(v)
    ensures other != name ==> LookupVar(AssignChain(c, name, v).value, other) == LookupVar(c, other)
    ensures LookupFunc(AssignChain(c, name, v).value, other) == LookupFunc(c, other)
    decreases |c|
  {
    if name !in c[0].vars {
      AssignThenLookup(c[1..], name, v, other);
    }
  }

  // ---------------------------------------------------------------------
  // The imperative environment node

  class VarEnv {
    var vars: map<string, Value>
    var functions: map<string, FuncDecl>
    const enclosing: VarEnv?
    /** The number of links from this node to the root. */
    ghost const depth: nat
    /** This node and every node it encloses in. */
    ghost const Repr: set<VarEnv>

    ghost predicate Valid()
      decreases depth
    {
      this in Repr &&
      (enclosing == null ==> depth == 0 && Repr == {this}) &&
      (enclosing != null ==>
        depth == enclosing.depth + 1 && this !in enclosing.Repr &&
        Repr == {this} + enclosing.Repr && enclosing.Valid())
    }

    /** This node's tables. */
    ghost function Head(): Frame
      reads this
    {
      Frame(vars, functions)
    }

    /** The chain from this node to the root. */
    ghost function Frames(): (c: Chain)
      requires Valid()
      reads Repr
      ensures |c| == depth + 1 && c[0] == Head()
      decreases depth
    {
      [Head()] + (if enclosing == null then [] else enclosing.Frames())
    }

    /** `new VarEnv(enclosing)`: empty tables in front of the enclosing chain. */
    constructor (enclosing: VarEnv?)
      requires enclosing != null ==> enclosing.Valid()
      ensures Valid() && this.enclosing == enclosing
      ensures Repr == {this} + (if enclosing == null then {} else enclosing.Repr)
      ensures Frames() == [EmptyFrame] + (if enclosing == null then [] else enclosing.Frames())
    {
      vars := map[];
      functions := map[];
      this.enclosing := enclosing;
      if enclosing == null {
        depth := 0;
        Repr := {this};
      } else {
        depth := enclosing.depth + 1;
        Repr := {this} + enclosing.Repr;
      }
    }

    /** `parentEnv(dist)`: the node `dist` links out; past the root it is a null dereference. */
    function ParentEnv(dist: nat): (r: Result<VarEnv>)
      requires Valid()
      ensures r.Ok? <==> dist <= depth
      ensures r.Err? ==> r.error == NullReference
      ensures r.Ok? ==> r.value in Repr && r.value.Valid() && r.value.depth == depth - dist
      decreases depth
    {
      if dist == 0 then Ok(this)
      else if enclosing == null then Err(NullReference)
      else enclosing.ParentEnv(dist - 1)
    }

    /** `defineVar` on this node. */
    method DefineVar(name: string, val: Value) returns (r: Outcome)
      requires Valid()
      modifies this`vars
      ensures r.Pass? <==> DeclareVar(old(Head()), name, val).Ok?
      ensures r.Pass? ==> Head() == DeclareVar(old(Head()), name, val).value
      ensures r.Fail? ==> r.error == DuplicateVariable(name) && vars == old(vars)
    {
      if name in vars {
        r := Fail(DuplicateVariable(name));
      } else {
        vars := vars[name := val];
        r := Pass;
      }
    }

    /** `defineFunc` on this node. */
    method DefineFunc(name: string, val: FuncDecl) returns (r: Outcome)
      requires Valid()
      modifies this`functions
      ensures r.Pass? <==> DeclareFunc(old(Head()), name, val).Ok?
      ensures r.Pass? ==> Head() == DeclareFunc(old(Head()), name, val).value
      ensures r.Fail? ==> r.error == DuplicateFunction(name) && functions == old(functions)
    {
      if name in functions {
        r := Fail(DuplicateFunction(name));
      } else {
        functions := functions[name := val];
        r := Pass;
      }
    }

    /** `getVar`. */
    method GetVar(name: string) returns (r: Result<Value>)
      requires Valid()
      ensures r == LookupVar(Frames(), name)
      decreases depth
    {
      if name !in vars {
        if enclosing == null {
          r := Err(VariableNotFound(name));
        } else {
          r := enclosing.GetVar(name);
          assert Frames()[1..] == enclosing.Frames();
        }
      } else {
        r := Ok(vars[name]);
      }
    }

    /** `getFunc`. */
    method GetFunc(name: string) returns (r: Result<FuncDecl>)
      requires Valid()
      ensures r == LookupFunc(Frames(), name)
      decreases depth
    {
      if name !in functions {
        if enclosing == null {
          r := Err(FunctionNotFound(name));
        } else {
          r := enclosing.GetFunc(name);
          assert Frames()[1..] == enclosing.Frames();
        }
      } else {
        r := Ok(functions[name]);
      }
    }

    /** `assignVar`: the walk outwards, then the store in this node as well. */
    method AssignVar(name: string, val: Value) returns (r: Outcome)
      requires Valid()
      modifies Repr
      ensures r.Pass? <==> AssignChain(old(Frames()), name, val).Ok?
      ensures r.Pass? ==> Frames() == AssignChain(old(Frames()), name, val).value
      ensures r.Fail? ==> r.error == UnboundAssignment(name) && Frames() == old(Frames())
      decreases depth
    {
      if name !in vars {
        if enclosing == null {
          r := Fail(UnboundAssignment(name));
        } else {
          assert old(Frames())[1..] == old(enclosing.Frames());
          r := enclosing.AssignVar(name, val);
          if r.Pass? {
            vars := vars[name := val];
          }
        }
      } else {
        vars := vars[name := val];
        r := Pass;
      }
    }
  }

  // ---------------------------------------------------------------------
  // Facts about chains of nodes

  /** Every node on a chain is itself a valid chain nested within it, at a smaller depth unless it is the node itself. */
  lemma {:induction false} ReprNested(x: VarEnv, n: VarEnv)
    requires x.Valid() && n in x.Repr
    ensures n.Valid() && n.Repr <= x.Repr && n.depth <= x.depth
    ensures n.depth == x.depth ==> n == x
    decreases x.depth
  {
    if n != x {
      ReprNested(x.enclosing, n);
    }
  }

  /** A node on the chain is the one `parentEnv` reaches at the difference of depths. */
  lemma {:induction false} ReprIsParentEnv(x: VarEnv, n: VarEnv)
    requires x.Valid() && n in x.Repr
    ensures n.depth <= x.depth && x.ParentEnv(x.depth - n.depth) == Ok(n)
    decreases x.depth
  {
    ReprNested(x, n);
    if n != x {
      ReprIsParentEnv(x.enclosing, n);
    }
  }

  /** `parentEnv(d)` is the chain with its first d frames dropped. */
  lemma {:induction false} ParentEnvFrames(x: VarEnv, dist: nat)
    requires x.Valid() && dist <= x.depth
    ensures x.ParentEnv(dist).value.Frames() == x.Frames()[dist..]
    decreases x.depth
  {
    if dist > 0 {
      ParentEnvFrames(x.enclosing, dist - 1);
    }
  }

  /**
   * `t.defineVar(name, val)` seen from a chain `x` that contains `t`: only
   * the frame at `t`'s position changes, as `DeclareVar` says.
   */
  method DefineVarOnChain(x: VarEnv, t: VarEnv, ghost before: Chain, name: string, val: Value) returns (r: Outcome)
    requires x.Valid() && t in x.Repr && before == x.Frames()
    modifies t`vars
    ensures t.depth <= x.depth
    ensures r.Pass? <==> DeclareVar(before[x.depth - t.depth], name, val).Ok?
    ensures r.Pass? ==>
      x.Frames() == before[x.depth - t.depth := DeclareVar(before[x.depth - t.depth], name, val).value]
    ensures r.Fail? ==> r.error == DuplicateVariable(name) && x.Frames() == before
  {
    ReprIsParentEnv(x, t);
    ghost var k := x.depth - t.depth;
    forall i | 0 <= i <= x.depth
      ensures before[i] == x.ParentEnv(i).value.Head()
    {
      ParentEnvFrames(x, i);
    }
    r := t.DefineVar(name, val);
    forall i | 0 <= i <= x.depth
      ensures x.Frames()[i] == before[k := t.Head()][i]
    {
      ParentEnvFrames(x, i);
      if i != k {
        assert x.ParentEnv(i).value != t;
      }
    }
    assert x.Frames() == before[k := t.Head()];
  }

  /**
   * Popping a node that was pushed above `e` keeps `e`'s chain: the node
   * has an enclosing one, whose chain still contains `e`'s and whose
   * frames are the node's minus the first.
   */
  lemma PopAbove(m: VarEnv, e: VarEnv)
    requires m.Valid() && e.Valid() && e.Repr <= m.Repr && e.depth < m.depth
    ensures m.enclosing != null && e.Repr <= m.enclosing.Repr && m.enclosing.Repr <= m.Repr
    ensures m.enclosing.Frames() == m.Frames()[1..]
  {
    if m in e.Repr {
      ReprNested(e, m);
    }
  }
}
