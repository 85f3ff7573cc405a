/** The meaning of an OOPsy program as functions on interpreter states: the
    big-step semantics the visitors of the interpreter follow, written as
    one function per visitor. The interpreter's methods are proved to
    compute exactly these functions.

    Python allocates a new instance at every create statement; a function
    cannot, so each semantic function takes a supply of instances and hands
    back the part it did not use. The interpreter's methods report the
    instances they allocated, in order, and that list is the supply with
    which the function reproduces their run.

    Fuel is spent as the interpreter spends it: one unit per method call
    and one per loop iteration. */
module Semantics {
  import opened Base
  import opened Syntax
  import opened ClassTable
  import opened Runtime

  /** Everything a statement can read or change: the class table, the
      variable environment, the current instance, the printed lines, and
      the field store of every instance. */
  datatype State = State(
    classes: map<string, ClassDef>,
    variables: map<string, Value>,
    current: Instance?,
    output: seq<string>,
    store: map<Instance, map<string, Value>>)

  function Min(a: int, b: int): int { if a < b then a else b }

  /** The field store of `o` in `st`; an instance the state does not know
      has stored nothing. */
  function FieldsOf(st: State, o: Instance): map<string, Value>
  {
    if o in st.store then st.store[o] else map[]
  }

  /** A value refers to no instance outside `heap`. */
  predicate Within(v: Value, heap: set<Instance>)
  {
    v.VObj? ==> v.obj in heap
  }

  /** No value the state holds refers to an instance outside `heap`. */
  predicate StateWithin(st: State, heap: set<Instance>)
  {
    && (st.current != null ==> st.current in heap)
    && (forall x :: x in st.variables ==> Within(st.variables[x], heap))
    && (forall o, x :: o in st.store && x in st.store[o] ==> Within(st.store[o][x], heap))
  }

  // ---- reading the state ----

  /** An object named by a variable: a missing or falsy variable is an
      unknown object (`if not obj`); any other non-instance makes Python
      fail on the attribute access. */
  function LookupObject(variables: map<string, Value>, name: string): (r: Result<Instance, Fault>)
    ensures r.Ok? <==> name in variables && variables[name].VObj?
    ensures r.Ok? ==> variables[name] == VObj(r.value)
    ensures name !in variables ==> r == Err(UnknownObject(name))
  {
    if name !in variables || !Truthy(variables[name]) then Err(UnknownObject(name))
    else if variables[name].VObj? then Ok(variables[name].obj)
    else Err(HostError("not an instance"))
  }

  /** The instance `base` denotes on either side of `base.field`: `self` is
      the current instance, which must exist. */
  function TargetObject(st: State, base: string): (r: Result<Instance, Fault>)
    ensures base == "self" ==> (r.Ok? <==> st.current != null)
    ensures base == "self" && r.Ok? ==> r.value == st.current
    ensures base == "self" && r.Err? ==> r.error == SelfOutsideMethod
    ensures base != "self" ==> r == LookupObject(st.variables, base)
  {
    if base == "self" then
      if st.current == null then Err(SelfOutsideMethod) else Ok(st.current)
    else LookupObject(st.variables, base)
  }

  /** `base.field` read through `get_attr`. */
  function MemberIn(st: State, base: string, field: string): (r: Result<Value, Fault>)
    ensures TargetObject(st, base).Err? ==> r == Err(TargetObject(st, base).error)
    ensures TargetObject(st, base).Ok? ==>
      var o := TargetObject(st, base).value;
      && (field in FieldsOf(st, o) ==> r == Ok(FieldsOf(st, o)[field]))
      && (field !in FieldsOf(st, o) ==> (r.Ok? <==> DeclaredInChain(o.classDef, field)))
  {
    match TargetObject(st, base)
    case Err(e) => Err(e)
    case Ok(o) => ReadField(FieldsOf(st, o), o.classDef, field)
  }

  /** A value expression that is neither a call, a binary expression nor a
      parenthesised one. */
  predicate IsAtom(e: ValueExpr)
  {
    !(e.Call? || e.Binary? || e.Paren?)
  }

  /** The value of an atom: literals, variables and member reads. */
  function AtomValue(st: State, e: ValueExpr): (r: Result<Value, Fault>)
    requires IsAtom(e)
    ensures e.BoolLit? ==> r == Ok(VBool(e.b))
    ensures e.Var? ==> (r.Ok? <==> e.name in st.variables)
    ensures e.Var? && r.Ok? ==> r.value == st.variables[e.name]
    ensures e.StrLit? ==> r.Ok? && r.value.VStr? && |r.value.s| <= |e.text|
    ensures e.StrLit? ==> r == Ok(VStr(Strip(e.text, '"')))
    ensures e.CharLit? ==> r == Ok(VStr(Strip(e.text, '\'')))
    ensures e.IntLit? ==> (r.Ok? <==> ParseDecimal(e.digits).Some?)
    ensures e.IntLit? && r.Ok? ==> r.value == VInt(ParseDecimal(e.digits).value)
    ensures e.Member? ==> r == MemberIn(st, e.base, e.field)
  {
    match e
    case IntLit(digits) =>
      var n := ParseDecimal(digits);
      if n.Some? then Ok(VInt(n.value)) else Err(HostError("int() of a non-decimal literal"))
    case StrLit(text) => Ok(VStr(Strip(text, '"')))
    case CharLit(text) => Ok(VStr(Strip(text, '\'')))
    case BoolLit(b) => Ok(VBool(b))
    case Var(name) => if name in st.variables then Ok(st.variables[name]) else Err(UnknownVariable(name))
    case Member(base, field) => MemberIn(st, base, field)
  }

  // ---- constructor-argument binding (set_constructor_attributes) ----

  /** The field store after binding `args[i]` to `names[i]` in order, for
      every `i` below both lengths. */
  function Bind(fields: map<string, Value>, names: seq<string>, args: seq<Value>): map<string, Value>
    decreases |args|
  {
    if args == [] then fields
    else
      var k := |args| - 1;
      var prev := Bind(fields, names, args[..k]);
      if k < |names| then prev[names[k] := args[k]] else prev
  }

  /** Arguments beyond the attribute list are dropped without an error. */
  lemma {:induction false} BindIgnoresExtra(f: map<string, Value>, names: seq<string>, args: seq<Value>)
    ensures Bind(f, names, args) == Bind(f, names, args[..Min(|args|, |names|)])
  {
    if |args| > |names| {
      var k := |args| - 1;
      BindIgnoresExtra(f, names, args[..k]);
      assert args[..k][..Min(k, |names|)] == args[..Min(|args|, |names|)];
    } else {
      assert args[..|args|] == args;
    }
  }

  /** The bound names are exactly the first `min(|args|, |names|)` names. */
  lemma {:induction false} BindKeys(f: map<string, Value>, names: seq<string>, args: seq<Value>, x: string)
    ensures x in Bind(f, names, args) <==>
      x in f || exists k :: 0 <= k < Min(|args|, |names|) && names[k] == x
  {
    if args != [] {
      var k := |args| - 1;
      BindKeys(f, names, args[..k], x);
      if k < |names| && names[k] == x {
        assert 0 <= k < Min(|args|, |names|) && names[k] == x;
      }
    }
  }

  /** Argument `k` is what its name holds, unless a later argument binds the
      same name again (a subclass re-declaring an inherited attribute). */
  lemma {:induction false} BindAt(f: map<string, Value>, names: seq<string>, args: seq<Value>, k: nat)
    requires k < |args| && k < |names|
    requires forall j :: k < j < Min(|args|, |names|) ==> names[j] != names[k]
    ensures names[k] in Bind(f, names, args) && Bind(f, names, args)[names[k]] == args[k]
  {
    var n := |args| - 1;
    if n > k {
      BindAt(f, names, args[..n], k);
    } else {
      assert args[..n] + [args[n]] == args;
    }
  }

  // ---- assignment ----

  /** `visitAssignment` once the value is known: a plain variable must
      already exist; a field goes through `set_attr` on the object its base
      denotes. The result and the state after. */
  function AssignTo(st: State, target: Target, v: Value): (res: (Outcome, State))
    ensures res.1.classes == st.classes && res.1.current == st.current && res.1.output == st.output
    ensures res.0.Err? ==> res.1 == st
  {
    match target
    case VarTarget(name) =>
      if name in st.variables then (Ok(()), st.(variables := st.variables[name := v]))
      else (Err(UnknownVariable(name)), st)
    case FieldTarget(base, field) =>
      match TargetObject(st, base)
      case Err(e) => (Err(e), st)
      case Ok(o) =>
        if WriteAllowed(o.classDef, field) then
          (Ok(()), st.(store := st.store[o := FieldsOf(st, o)[field := v]]))
        else (Err(UnknownAttribute(field)), st)
  }

  /** An assignment changes its target and nothing else, and reading the
      target back yields the assigned value. */
  lemma AssignThenRead(st: State, target: Target, v: Value)
    ensures AssignTo(st, target, v).0.Ok? ==>
      var st' := AssignTo(st, target, v).1;
      match target
      case VarTarget(name) =>
        && AtomValue(st', Var(name)) == Ok(v)
        && st'.store == st.store
        && (forall x :: x != name ==> (x in st'.variables <==> x in st.variables))
        && (forall x :: x != name && x in st.variables ==> st'.variables[x] == st.variables[x])
      case FieldTarget(base, field) =>
        && MemberIn(st', base, field) == Ok(v)
        && st'.variables == st.variables
        && (forall o :: o != TargetObject(st, base).value ==> FieldsOf(st', o) == FieldsOf(st, o))
        && (forall x :: x != field ==> (x in FieldsOf(st', TargetObject(st, base).value) <==> x in FieldsOf(st, TargetObject(st, base).value)))
  {
  }

  /** The assignment succeeds exactly when the variable exists, or when the
      base denotes an instance whose class lets the field be written. */
  lemma AssignSucceeds(st: State, target: Target, v: Value)
    ensures target.VarTarget? ==> (AssignTo(st, target, v).0.Ok? <==> target.name in st.variables)
    ensures target.FieldTarget? ==>
      (AssignTo(st, target, v).0.Ok? <==>
        TargetObject(st, target.base).Ok? && WriteAllowed(TargetObject(st, target.base).value.classDef, target.field))
  {
  }

  // ---- the semantic functions ----

  /** The outcome of running a piece of code: its result, the state after,
      and the part of the instance supply it did not use. */
  datatype Step<T> = Step(r: Result<T, Fault>, st: State, supply: seq<Instance>)

  /** What every run keeps: the class table is fixed, printed lines are
      never taken back, and a run that succeeds ends with the current
      instance it began with. */
  predicate Follows<T>(st: State, step: Step<T>)
  {
    && step.st.classes == st.classes
    && st.output <= step.st.output
    && (step.r.Ok? ==> step.st.current == st.current)
  }

  /** `visitValueExpression`: operands left to right, the first fault ends
      the evaluation. */
  function SemValue(fuel: nat, st: State, e: ValueExpr, supply: seq<Instance>): (step: Step<Value>)
    decreases fuel, e, 2
    ensures Follows(st, step)
  {
    match e
    case Call(c) => SemCall(fuel, st, c, supply)
    case Binary(left, op, right) =>
      var x := SemValue(fuel, st, left, supply);
      if x.r.Err? then x
      else
        var y := SemValue(fuel, x.st, right, x.supply);
        if y.r.Err? then y else Step(BinaryOp(x.r.value, op, y.r.value), y.st, y.supply)
    case Paren(inner) => SemValue(fuel, st, inner, supply)
    case _ => Step(AtomValue(st, e), st, supply)
  }

  /** `visitMethodCall`: the method the object's class (or its direct
      parent) declares runs with the object as the current instance, for
      one unit of fuel; the previous current instance is restored
      afterwards, but not when the body faults. The arguments are not
      evaluated and the call yields `None`. */
  function SemCall(fuel: nat, st: State, c: MethodCall, supply: seq<Instance>): (step: Step<Value>)
    decreases fuel, c, 1
    ensures Follows(st, step)
  {
    match LookupObject(st.variables, c.objName)
    case Err(e) => Step(Err(e), st, supply)
    case Ok(obj) =>
      match Dispatch(obj.classDef, c.methodName)
      case None => Step(Err(UnknownMethod(c.objName, c.methodName)), st, supply)
      case Some(m) =>
        if fuel == 0 then Step(Err(OutOfFuel), st, supply)
        else
          var b := SemBlock(fuel - 1, st.(current := obj), m.body, supply);
          if b.r.Err? then Step(Err(b.r.error), b.st, b.supply)
          else Step(Ok(VNone), b.st.(current := st.current), b.supply)
  }

  /** An argument list, left to right. */
  function SemArgs(fuel: nat, st: State, args: seq<ValueExpr>, supply: seq<Instance>): (step: Step<seq<Value>>)
    decreases fuel, args, 2
    ensures Follows(st, step)
  {
    if args == [] then Step(Ok([]), st, supply)
    else
      var x := SemArgs(fuel, st, args[..|args| - 1], supply);
      if x.r.Err? then x
      else
        var y := SemValue(fuel, x.st, args[|args| - 1], x.supply);
        if y.r.Err? then Step(Err(y.r.error), y.st, y.supply)
        else Step(Ok(x.r.value + [y.r.value]), y.st, y.supply)
  }

  /** `visitLogicalExpression`: `result = result or term` over all terms. */
  function SemLogical(fuel: nat, st: State, le: LogicalExpr, supply: seq<Instance>): (step: Step<Value>)
    decreases fuel, le, 2
    ensures Follows(st, step)
  {
    SemOr(fuel, st, le, |le.rest|, supply)
  }

  /** The `or` chain up to `le.rest[n - 1]`: a truthy value so far skips the
      next term without evaluating it. */
  function SemOr(fuel: nat, st: State, le: LogicalExpr, n: nat, supply: seq<Instance>): (step: Step<Value>)
    requires n <= |le.rest|
    decreases fuel, le, 1, n
    ensures Follows(st, step)
  {
    if n == 0 then SemTerm(fuel, st, le.first, supply)
    else
      var x := SemOr(fuel, st, le, n - 1, supply);
      if x.r.Err? || Truthy(x.r.value) then x else SemTerm(fuel, x.st, le.rest[n - 1], x.supply)
  }

  /** `visitLogicalTerm`: `result = result and factor` over all factors. */
  function SemTerm(fuel: nat, st: State, t: LogicalTerm, supply: seq<Instance>): (step: Step<Value>)
    decreases fuel, t, 2
    ensures Follows(st, step)
  {
    SemAnd(fuel, st, t, |t.rest|, supply)
  }

  /** The `and` chain up to `t.rest[n - 1]`: a falsy value so far skips the
      next factor without evaluating it. */
  function SemAnd(fuel: nat, st: State, t: LogicalTerm, n: nat, supply: seq<Instance>): (step: Step<Value>)
    requires n <= |t.rest|
    decreases fuel, t, 1, n
    ensures Follows(st, step)
  {
    if n == 0 then SemFactor(fuel, st, t.first, supply)
    else
      var x := SemAnd(fuel, st, t, n - 1, supply);
      if x.r.Err? || !Truthy(x.r.value) then x else SemFactor(fuel, x.st, t.rest[n - 1], x.supply)
  }

  /** `visitLogicalFactor`: a comparison of two values, or a single value.
      A parenthesised logical expression has no value expression child, and
      the Python code visits `None` there. */
  function SemFactor(fuel: nat, st: State, f: LogicalFactor, supply: seq<Instance>): (step: Step<Value>)
    decreases fuel, f, 2
    ensures Follows(st, step)
  {
    match f
    case Comparison(left, op, right) =>
      var x := SemValue(fuel, st, left, supply);
      if x.r.Err? then x
      else
        var y := SemValue(fuel, x.st, right, x.supply);
        if y.r.Err? then y else Step(Compare(x.r.value, op, y.r.value), y.st, y.supply)
    case Nested(_) => Step(Err(HostError("visit(None)")), st, supply)
    case Single(v) => SemValue(fuel, st, v, supply)
  }

  /** `visitBlock`: the statements in order; the first fault ends it. */
  function SemBlock(fuel: nat, st: State, stmts: seq<Stmt>, supply: seq<Instance>): (step: Step<()>)
    decreases fuel, stmts, 2
    ensures Follows(st, step)
  {
    if stmts == [] then Step(Ok(()), st, supply)
    else
      var x := SemBlock(fuel, st, stmts[..|stmts| - 1], supply);
      if x.r.Err? then x else SemStmt(fuel, x.st, stmts[|stmts| - 1], x.supply)
  }

  /** A create statement's new instance: the next one of the supply, which
      must be of the class and unknown to the state. */
  predicate FreshFor(st: State, supply: seq<Instance>, c: ClassDef)
  {
    supply != [] && supply[0] !in st.store && supply[0].classDef == c
  }

  /** One statement. `return`, `break` and `continue` do nothing: the block
      they stand in goes on to its end. An expression statement and a super
      call evaluate their expressions and drop the values. */
  function SemStmt(fuel: nat, st: State, s: Stmt, supply: seq<Instance>): (step: Step<()>)
    decreases fuel, s, 2
    ensures Follows(st, step)
  {
    match s
    case Create(_, _, _) => SemCreate(fuel, st, s, supply)
    case Assign(target, value) =>
      var x := SemValue(fuel, st, value, supply);
      if x.r.Err? then Step(Err(x.r.error), x.st, x.supply)
      else
        var a := AssignTo(x.st, target, x.r.value);
        Step(a.0, a.1, x.supply)
    case Print(value) =>
      var x := SemValue(fuel, st, value, supply);
      if x.r.Err? then Step(Err(x.r.error), x.st, x.supply)
      else Step(Ok(()), x.st.(output := x.st.output + [Render(x.r.value)]), x.supply)
    case If(_, _, _) => SemIf(fuel, st, s, supply)
    case Loop(_, _) => SemLoop(fuel, st, s, supply)
    case Return(_) => Step(Ok(()), st, supply)
    case ExprStmt(e) =>
      var x := SemValue(fuel, st, e, supply);
      Step(if x.r.Err? then Err(x.r.error) else Ok(()), x.st, x.supply)
    case Break => Step(Ok(()), st, supply)
    case Continue => Step(Ok(()), st, supply)
    case SuperCall(args) =>
      var x := SemArgs(fuel, st, args, supply);
      Step(if x.r.Err? then Err(x.r.error) else Ok(()), x.st, x.supply)
  }

  /** `visitCreateStatement`: the class must be registered; the arguments
      are evaluated, then the next instance of the supply gets the fields
      the constructor rule binds and is stored in the variable. */
  function SemCreate(fuel: nat, st: State, s: Stmt, supply: seq<Instance>): (step: Step<()>)
    requires s.Create?
    decreases fuel, s, 1
    ensures Follows(st, step)
  {
    if s.className !in st.classes then Step(Err(UnknownClass(s.className)), st, supply)
    else
      var x := SemArgs(fuel, st, s.args, supply);
      if x.r.Err? then Step(Err(x.r.error), x.st, x.supply)
      else if !FreshFor(x.st, x.supply, st.classes[s.className]) then Step(Err(NoFreshInstance), x.st, x.supply)
      else
        var inst := x.supply[0];
        var fields := Bind(map[], CollectAttributes(inst.classDef), x.r.value);
        Step(Ok(()), x.st.(variables := x.st.variables[s.varName := VObj(inst)], store := x.st.store[inst := fields]),
             x.supply[1..])
  }

  /** `visitIfStatement`: the condition once, then the then block when it
      is truthy, else the else block when there is one. */
  function SemIf(fuel: nat, st: State, s: Stmt, supply: seq<Instance>): (step: Step<()>)
    requires s.If?
    decreases fuel, s, 1
    ensures Follows(st, step)
  {
    var c := SemLogical(fuel, st, s.cond, supply);
    if c.r.Err? then Step(Err(c.r.error), c.st, c.supply)
    else if Truthy(c.r.value) then SemBlock(fuel, c.st, s.thenBlock, c.supply)
    else
      (match s.elseClause
       case NoElse => Step(Ok(()), c.st, c.supply)
       case Else(block) => SemBlock(fuel, c.st, block, c.supply))
  }

  /** `visitLoopStatement`, a post-test loop: each iteration costs one unit
      of fuel; a true condition ends the loop, a false one starts the next
      iteration. */
  function SemLoop(fuel: nat, st: State, s: Stmt, supply: seq<Instance>): (step: Step<()>)
    requires s.Loop?
    decreases fuel, s, 1
    ensures Follows(st, step)
  {
    if fuel == 0 then Step(Err(OutOfFuel), st, supply)
    else
      var x := SemIteration(fuel - 1, st, s, supply);
      if x.r.Err? then Step(Err(x.r.error), x.st, x.supply)
      else if Truthy(x.r.value) then Step(Ok(()), x.st, x.supply)
      else SemLoop(fuel - 1, x.st, s, x.supply)
  }

  /** One iteration: the body, then the condition, whose value it yields. */
  function SemIteration(fuel: nat, st: State, s: Stmt, supply: seq<Instance>): (step: Step<Value>)
    requires s.Loop?
    decreases fuel, s, 0
    ensures Follows(st, step)
  {
    var b := SemBlock(fuel, st, s.body, supply);
    if b.r.Err? then Step(Err(b.r.error), b.st, b.supply)
    else SemLogical(fuel, b.st, s.cond, b.supply)
  }

  // ---- a successful run uses a prefix of its supply ----

  /** A run that succeeds consumes a prefix of its supply: more instances
      at the end of the supply change nothing but what is left over. */
  lemma {:induction false} ValueSupplyExtends(fuel: nat, st: State, e: ValueExpr, supply: seq<Instance>, extra: seq<Instance>)
    requires SemValue(fuel, st, e, supply).r.Ok?
    ensures SemValue(fuel, st, e, supply + extra) ==
      SemValue(fuel, st, e, supply).(supply := SemValue(fuel, st, e, supply).supply + extra)
    decreases fuel, e, 2
  {
    match e
    case Call(c) =>
      CallSupplyExtends(fuel, st, c, supply, extra);
    case Binary(left, op, right) =>
      var x := SemValue(fuel, st, left, supply);
      ValueSupplyExtends(fuel, st, left, supply, extra);
      ValueSupplyExtends(fuel, x.st, right, x.supply, extra);
    case Paren(inner) =>
      ValueSupplyExtends(fuel, st, inner, supply, extra);
    case _ =>
  }

  lemma {:induction false} CallSupplyExtends(fuel: nat, st: State, c: MethodCall, supply: seq<Instance>, extra: seq<Instance>)
    requires SemCall(fuel, st, c, supply).r.Ok?
    ensures SemCall(fuel, st, c, supply + extra) ==
      SemCall(fuel, st, c, supply).(supply := SemCall(fuel, st, c, supply).supply + extra)
    decreases fuel, c, 1
  {
    var obj := LookupObject(st.variables, c.objName).value;
    var m := Dispatch(obj.classDef, c.methodName).value;
    BlockSupplyExtends(fuel - 1, st.(current := obj), m.body, supply, extra);
  }

  lemma {:induction false} ArgsSupplyExtends(fuel: nat, st: State, args: seq<ValueExpr>, supply: seq<Instance>, extra: seq<Instance>)
    requires SemArgs(fuel, st, args, supply).r.Ok?
    ensures SemArgs(fuel, st, args, supply + extra) ==
      SemArgs(fuel, st, args, supply).(supply := SemArgs(fuel, st, args, supply).supply + extra)
    decreases fuel, args, 2
  {
    if args != [] {
      var x := SemArgs(fuel, st, args[..|args| - 1], supply);
      ArgsSupplyExtends(fuel, st, args[..|args| - 1], supply, extra);
      ValueSupplyExtends(fuel, x.st, args[|args| - 1], x.supply, extra);
    }
  }

  lemma {:induction false} OrSupplyExtends(fuel: nat, st: State, le: LogicalExpr, n: nat, supply: seq<Instance>, extra: seq<Instance>)
    requires n <= |le.rest|
    requires SemOr(fuel, st, le, n, supply).r.Ok?
    ensures SemOr(fuel, st, le, n, supply + extra) ==
      SemOr(fuel, st, le, n, supply).(supply := SemOr(fuel, st, le, n, supply).supply + extra)
    decreases fuel, le, 1, n
  {
    if n == 0 {
      TermSupplyExtends(fuel, st, le.first, supply, extra);
    } else {
      var x := SemOr(fuel, st, le, n - 1, supply);
      OrSupplyExtends(fuel, st, le, n - 1, supply, extra);
      if !Truthy(x.r.value) {
        TermSupplyExtends(fuel, x.st, le.rest[n - 1], x.supply, extra);
      }
    }
  }

  lemma {:induction false} TermSupplyExtends(fuel: nat, st: State, t: LogicalTerm, supply: seq<Instance>, extra: seq<Instance>)
    requires SemTerm(fuel, st, t, supply).r.Ok?
    ensures SemTerm(fuel, st, t, supply + extra) ==
      SemTerm(fuel, st, t, supply).(supply := SemTerm(fuel, st, t, supply).supply + extra)
    decreases fuel, t, 2
  {
    AndSupplyExtends(fuel, st, t, |t.rest|, supply, extra);
  }

  lemma {:induction false} AndSupplyExtends(fuel: nat, st: State, t: LogicalTerm, n: nat, supply: seq<Instance>, extra: seq<Instance>)
    requires n <= |t.rest|
    requires SemAnd(fuel, st, t, n, supply).r.Ok?
    ensures SemAnd(fuel, st, t, n, supply + extra) ==
      SemAnd(fuel, st, t, n, supply).(supply := SemAnd(fuel, st, t, n, supply).supply + extra)
    decreases fuel, t, 1, n
  {
    if n == 0 {
      FactorSupplyExtends(fuel, st, t.first, supply, extra);
    } else {
      var x := SemAnd(fuel, st, t, n - 1, supply);
      AndSupplyExtends(fuel, st, t, n - 1, supply, extra);
      if Truthy(x.r.value) {
        FactorSupplyExtends(fuel, x.st, t.rest[n - 1], x.supply, extra);
      }
    }
  }

  lemma {:induction false} FactorSupplyExtends(fuel: nat, st: State, f: LogicalFactor, supply: seq<Instance>, extra: seq<Instance>)
    requires SemFactor(fuel, st, f, supply).r.Ok?
    ensures SemFactor(fuel, st, f, supply + extra) ==
      SemFactor(fuel, st, f, supply).(supply := SemFactor(fuel, st, f, supply).supply + extra)
    decreases fuel, f, 2
  {
    match f
    case Comparison(left, op, right) =>
      var x := SemValue(fuel, st, left, supply);
      ValueSupplyExtends(fuel, st, left, supply, extra);
      ValueSupplyExtends(fuel, x.st, right, x.supply, extra);
    case Nested(_) =>
    case Single(v) =>
      ValueSupplyExtends(fuel, st, v, supply, extra);
  }

  lemma {:induction false} BlockSupplyExtends(fuel: nat, st: State, stmts: seq<Stmt>, supply: seq<Instance>, extra: seq<Instance>)
    requires SemBlock(fuel, st, stmts, supply).r.Ok?
    ensures SemBlock(fuel, st, stmts, supply + extra) ==
      SemBlock(fuel, st, stmts, supply).(supply := SemBlock(fuel, st, stmts, supply).supply + extra)
    decreases fuel, stmts, 2
  {
    if stmts != [] {
      var x := SemBlock(fuel, st, stmts[..|stmts| - 1], supply);
      BlockSupplyExtends(fuel, st, stmts[..|stmts| - 1], supply, extra);
      StmtSupplyExtends(fuel, x.st, stmts[|stmts| - 1], x.supply, extra);
    }
  }

  lemma {:induction false} StmtSupplyExtends(fuel: nat, st: State, s: Stmt, supply: seq<Instance>, extra: seq<Instance>)
    requires SemStmt(fuel, st, s, supply).r.Ok?
    ensures SemStmt(fuel, st, s, supply + extra) ==
      SemStmt(fuel, st, s, supply).(supply := SemStmt(fuel, st, s, supply).supply + extra)
    decreases fuel, s, 2
  {
    match s
    case Create(_, _, _) =>
      CreateSupplyExtends(fuel, st, s, supply, extra);
    case Assign(target, value) =>
      ValueSupplyExtends(fuel, st, value, supply, extra);
    case Print(value) =>
      ValueSupplyExtends(fuel, st, value, supply, extra);
    case If(_, _, _) =>
      IfSupplyExtends(fuel, st, s, supply, extra);
    case Loop(_, _) =>
      LoopSupplyExtends(fuel, st, s, supply, extra);
    case Return(_) =>
    case ExprStmt(e) =>
      ValueSupplyExtends(fuel, st, e, supply, extra);
    case Break =>
    case Continue =>
    case SuperCall(args) =>
      ArgsSupplyExtends(fuel, st, args, supply, extra);
  }

  lemma {:induction false} CreateSupplyExtends(fuel: nat, st: State, s: Stmt, supply: seq<Instance>, extra: seq<Instance>)
    requires s.Create?
    requires SemCreate(fuel, st, s, supply).r.Ok?
    ensures SemCreate(fuel, st, s, supply + extra) ==
      SemCreate(fuel, st, s, supply).(supply := SemCreate(fuel, st, s, supply).supply + extra)
    decreases fuel, s, 1
  {
    var x := SemArgs(fuel, st, s.args, supply);
    ArgsSupplyExtends(fuel, st, s.args, supply, extra);
    assert (x.supply + extra)[1..] == x.supply[1..] + extra;
  }

  lemma {:induction false} IfSupplyExtends(fuel: nat, st: State, s: Stmt, supply: seq<Instance>, extra: seq<Instance>)
    requires s.If?
    requires SemIf(fuel, st, s, supply).r.Ok?
    ensures SemIf(fuel, st, s, supply + extra) ==
      SemIf(fuel, st, s, supply).(supply := SemIf(fuel, st, s, supply).supply + extra)
    decreases fuel, s, 1
  {
    var c := SemLogical(fuel, st, s.cond, supply);
    OrSupplyExtends(fuel, st, s.cond, |s.cond.rest|, supply, extra);
    if Truthy(c.r.value) {
      BlockSupplyExtends(fuel, c.st, s.thenBlock, c.supply, extra);
    } else if s.elseClause.Else? {
      BlockSupplyExtends(fuel, c.st, s.elseClause.block, c.supply, extra);
    }
  }

  lemma {:induction false} LoopSupplyExtends(fuel: nat, st: State, s: Stmt, supply: seq<Instance>, extra: seq<Instance>)
    requires s.Loop?
    requires SemLoop(fuel, st, s, supply).r.Ok?
    ensures SemLoop(fuel, st, s, supply + extra) ==
      SemLoop(fuel, st, s, supply).(supply := SemLoop(fuel, st, s, supply).supply + extra)
    decreases fuel, s, 1
  {
    var x := SemIteration(fuel - 1, st, s, supply);
    IterationSupplyExtends(fuel - 1, st, s, supply, extra);
    if !Truthy(x.r.value) {
      LoopSupplyExtends(fuel - 1, x.st, s, x.supply, extra);
    }
  }

  lemma {:induction false} IterationSupplyExtends(fuel: nat, st: State, s: Stmt, supply: seq<Instance>, extra: seq<Instance>)
    requires s.Loop?
    requires SemIteration(fuel, st, s, supply).r.Ok?
    ensures SemIteration(fuel, st, s, supply + extra) ==
      SemIteration(fuel, st, s, supply).(supply := SemIteration(fuel, st, s, supply).supply + extra)
    decreases fuel, s, 0
  {
    var b := SemBlock(fuel, st, s.body, supply);
    BlockSupplyExtends(fuel, st, s.body, supply, extra);
    OrSupplyExtends(fuel, b.st, s.cond, |s.cond.rest|, b.supply, extra);
  }

  // ---- a fault or a settled value ends a chain ----

  /** After a fault, the remaining statements of a block do not run. */
  lemma {:induction false} BlockStops(fuel: nat, st: State, stmts: seq<Stmt>, k: nat, supply: seq<Instance>)
    requires k <= |stmts|
    requires SemBlock(fuel, st, stmts[..k], supply).r.Err?
    ensures SemBlock(fuel, st, stmts, supply) == SemBlock(fuel, st, stmts[..k], supply)
    decreases |stmts|
  {
    if k == |stmts| {
      assert stmts[..k] == stmts;
    } else {
      var n := |stmts| - 1;
      assert stmts[..n][..k] == stmts[..k];
      BlockStops(fuel, st, stmts[..n], k, supply);
      assert SemBlock(fuel, st, stmts[..n], supply).r.Err?;
    }
  }

  /** After a fault, the remaining arguments are not evaluated. */
  lemma {:induction false} ArgsStop(fuel: nat, st: State, args: seq<ValueExpr>, k: nat, supply: seq<Instance>)
    requires k <= |args|
    requires SemArgs(fuel, st, args[..k], supply).r.Err?
    ensures SemArgs(fuel, st, args, supply) == SemArgs(fuel, st, args[..k], supply)
    decreases |args|
  {
    if k == |args| {
      assert args[..k] == args;
    } else {
      var n := |args| - 1;
      assert args[..n][..k] == args[..k];
      ArgsStop(fuel, st, args[..n], k, supply);
      assert SemArgs(fuel, st, args[..n], supply).r.Err?;
    }
  }

  /** Once the `or` chain faults or holds a truthy value, the later terms
      are not evaluated and its value stays. */
  lemma {:induction false} OrSettles(fuel: nat, st: State, le: LogicalExpr, k: nat, n: nat, supply: seq<Instance>)
    requires k <= n <= |le.rest|
    requires SemOr(fuel, st, le, k, supply).r.Err? || Truthy(SemOr(fuel, st, le, k, supply).r.value)
    ensures SemOr(fuel, st, le, n, supply) == SemOr(fuel, st, le, k, supply)
    decreases n
  {
    if n > k {
      OrSettles(fuel, st, le, k, n - 1, supply);
    }
  }

  /** Once the `and` chain faults or holds a falsy value, the later factors
      are not evaluated and its value stays. */
  lemma {:induction false} AndSettles(fuel: nat, st: State, t: LogicalTerm, k: nat, n: nat, supply: seq<Instance>)
    requires k <= n <= |t.rest|
    requires SemAnd(fuel, st, t, k, supply).r.Err? || !Truthy(SemAnd(fuel, st, t, k, supply).r.value)
    ensures SemAnd(fuel, st, t, n, supply) == SemAnd(fuel, st, t, k, supply)
    decreases n
  {
    if n > k {
      AndSettles(fuel, st, t, k, n - 1, supply);
    }
  }

  // ---- running statements one after another ----

  /** Running `a + b` is running `a`, then `b` from the state and supply `a`
      left; a fault in `a` skips `b`. */
  lemma {:induction false} BlockAppend(fuel: nat, st: State, a: seq<Stmt>, b: seq<Stmt>, supply: seq<Instance>)
    ensures SemBlock(fuel, st, a + b, supply) ==
      var x := SemBlock(fuel, st, a, supply);
      if x.r.Err? then x else SemBlock(fuel, x.st, b, x.supply)
    decreases |b|
  {
    if b == [] {
      assert a + b == a;
      var x := SemBlock(fuel, st, a, supply);
      if x.r.Ok? {
        var u: () := x.r.value;
        assert u == ();
      }
    } else {
      var n := |b| - 1;
      BlockAppend(fuel, st, a, b[..n], supply);
      var ab := a + b;
      assert ab[..|ab| - 1] == a + b[..n];
      assert ab[|ab| - 1] == b[n];
      var y := SemBlock(fuel, st, a + b[..n], supply);
      assert SemBlock(fuel, st, ab, supply) == if y.r.Err? then y else SemStmt(fuel, y.st, b[n], y.supply);
      var x := SemBlock(fuel, st, a, supply);
      if x.r.Ok? {
        var z := SemBlock(fuel, x.st, b[..n], x.supply);
        assert SemBlock(fuel, x.st, b, x.supply) == if z.r.Err? then z else SemStmt(fuel, z.st, b[n], z.supply);
      }
    }
  }

  // ---- call-free code: a reference evaluation ----

  /** The value of a call-free expression, read off the state. */
  function ValueIn(st: State, e: ValueExpr): Result<Value, Fault>
    requires CallFree(e)
  {
    match e
    case Binary(left, op, right) =>
      var l := ValueIn(st, left);
      if l.Err? then l
      else
        var r := ValueIn(st, right);
        if r.Err? then r else BinaryOp(l.value, op, r.value)
    case Paren(inner) => ValueIn(st, inner)
    case IntLit(_) => AtomValue(st, e)
    case StrLit(_) => AtomValue(st, e)
    case CharLit(_) => AtomValue(st, e)
    case BoolLit(_) => AtomValue(st, e)
    case Var(_) => AtomValue(st, e)
    case Member(_, _) => AtomValue(st, e)
  }

  /** A call-free expression changes nothing and uses no instance: its run
      is the reference value. */
  lemma {:induction false} ValueCallFree(fuel: nat, st: State, e: ValueExpr, supply: seq<Instance>)
    requires CallFree(e)
    ensures SemValue(fuel, st, e, supply) == Step(ValueIn(st, e), st, supply)
  {
    match e
    case Binary(left, _, right) =>
      ValueCallFree(fuel, st, left, supply);
      ValueCallFree(fuel, st, right, supply);
    case Paren(inner) =>
      ValueCallFree(fuel, st, inner, supply);
    case _ =>
  }

  /** Reading a literal, a variable or a member yields no instance the
      state does not already hold. */
  lemma AtomWithin(st: State, e: ValueExpr, heap: set<Instance>)
    requires IsAtom(e) && StateWithin(st, heap)
    ensures AtomValue(st, e).Ok? ==> Within(AtomValue(st, e).value, heap)
  {
    if e.Member? {
      var t := TargetObject(st, e.base);
      if t.Ok? && e.field in FieldsOf(st, t.value) {
        assert t.value in st.store;
      }
    }
  }

  /** Reading a call-free expression yields no instance the state does not
      already hold. */
  lemma {:induction false} ValueInWithin(st: State, e: ValueExpr, heap: set<Instance>)
    requires CallFree(e) && StateWithin(st, heap)
    ensures ValueIn(st, e).Ok? ==> Within(ValueIn(st, e).value, heap)
  {
    match e
    case Binary(_, _, _) =>
      // the operators yield only numbers and strings
      assert ValueIn(st, e).Ok? ==> ValueIn(st, e).value.VInt? || ValueIn(st, e).value.VStr?;
    case Paren(inner) =>
      ValueInWithin(st, inner, heap);
      assert ValueIn(st, e) == ValueIn(st, inner);
    case Call(_) =>
      assert false;
    case _ =>
      AtomWithin(st, e, heap);
      assert ValueIn(st, e) == AtomValue(st, e);
  }

  /** The value of a call-free logical factor. */
  function FactorIn(st: State, f: LogicalFactor): Result<Value, Fault>
    requires CallFreeFactor(f)
  {
    match f
    case Comparison(left, op, right) =>
      var l := ValueIn(st, left);
      if l.Err? then l
      else
        var r := ValueIn(st, right);
        if r.Err? then r else Compare(l.value, op, r.value)
    case Nested(_) => Err(HostError("visit(None)"))
    case Single(v) => ValueIn(st, v)
  }

  /** Every factor of `fs` is call-free. */
  predicate FactorsCallFree(fs: seq<LogicalFactor>)
  {
    forall i :: 0 <= i < |fs| ==> CallFreeFactor(fs[i])
  }

  /** Every term of `ts` is call-free. */
  predicate TermsCallFree(ts: seq<LogicalTerm>)
  {
    forall i :: 0 <= i < |ts| ==> CallFreeTerm(ts[i])
  }

  /** Every expression of `args` is call-free. */
  predicate ArgsAreCallFree(args: seq<ValueExpr>)
  {
    forall k :: 0 <= k < |args| ==> CallFree(args[k])
  }

  lemma FactorsTail(fs: seq<LogicalFactor>)
    requires fs != [] && FactorsCallFree(fs)
    ensures FactorsCallFree(fs[1..])
  {
    assert forall i :: 1 <= i < |fs| ==> fs[1..][i - 1] == fs[i];
  }

  lemma TermsTail(ts: seq<LogicalTerm>)
    requires ts != [] && TermsCallFree(ts)
    ensures TermsCallFree(ts[1..])
  {
    assert forall i :: 1 <= i < |ts| ==> ts[1..][i - 1] == ts[i];
  }

  /** Python's `f0 and f1 and ...`, read from the front: the first falsy
      value, or the last value; a fault in a factor that is reached ends the
      chain. */
  function AndOf(st: State, fs: seq<LogicalFactor>): Result<Value, Fault>
    requires fs != [] && FactorsCallFree(fs)
    decreases |fs|
  {
    var v := FactorIn(st, fs[0]);
    if v.Err? || !Truthy(v.value) || |fs| == 1 then v
    else
      FactorsTail(fs);
      AndOf(st, fs[1..])
  }

  /** Python's `t0 or t1 or ...`, read from the front: the first truthy
      value, or the last value. */
  function OrOf(st: State, ts: seq<LogicalTerm>): Result<Value, Fault>
    requires ts != [] && TermsCallFree(ts)
    decreases |ts|
  {
    var v := TermIn(st, ts[0]);
    if v.Err? || Truthy(v.value) || |ts| == 1 then v
    else
      TermsTail(ts);
      OrOf(st, ts[1..])
  }

  function TermIn(st: State, t: LogicalTerm): Result<Value, Fault>
    requires CallFreeTerm(t)
  {
    AndOf(st, t.Factors())
  }

  function LogicalIn(st: State, le: LogicalExpr): Result<Value, Fault>
    requires CallFreeLogical(le)
  {
    OrOf(st, le.Terms())
  }

  /** A truthy `and` chain is the last factor's value, and every factor
      was truthy. */
  lemma {:induction false} AndOfTruthy(st: State, fs: seq<LogicalFactor>, i: nat)
    requires fs != [] && FactorsCallFree(fs) && i < |fs|
    requires AndOf(st, fs).Ok? && Truthy(AndOf(st, fs).value)
    ensures AndOf(st, fs) == FactorIn(st, fs[|fs| - 1])
    ensures FactorIn(st, fs[i]).Ok? && Truthy(FactorIn(st, fs[i]).value)
    decreases |fs|
  {
    if |fs| > 1 {
      var v := FactorIn(st, fs[0]);
      FactorsTail(fs);
      var tail := fs[1..];
      assert AndOf(st, fs) == if v.Err? || !Truthy(v.value) then v else AndOf(st, tail);
      assert v.Ok? && Truthy(v.value);
      if i == 0 {
        AndOfTruthy(st, tail, 0);
      } else {
        AndOfTruthy(st, tail, i - 1);
        assert fs[i] == tail[i - 1];
      }
      assert fs[|fs| - 1] == tail[|tail| - 1];
    }
  }

  /** A falsy `or` chain is the last term's value, and every term was
      falsy. */
  lemma {:induction false} OrOfFalsy(st: State, ts: seq<LogicalTerm>, i: nat)
    requires ts != [] && TermsCallFree(ts) && i < |ts|
    requires OrOf(st, ts).Ok? && !Truthy(OrOf(st, ts).value)
    ensures OrOf(st, ts) == TermIn(st, ts[|ts| - 1])
    ensures TermIn(st, ts[i]).Ok? && !Truthy(TermIn(st, ts[i]).value)
    decreases |ts|
  {
    if |ts| > 1 {
      var v := TermIn(st, ts[0]);
      TermsTail(ts);
      var tail := ts[1..];
      assert OrOf(st, ts) == if v.Err? || Truthy(v.value) then v else OrOf(st, tail);
      assert v.Ok? && !Truthy(v.value);
      if i == 0 {
        OrOfFalsy(st, tail, 0);
      } else {
        OrOfFalsy(st, tail, i - 1);
        assert ts[i] == tail[i - 1];
      }
      assert ts[|ts| - 1] == tail[|tail| - 1];
    }
  }

  /** Extending an `and` chain at the end. */
  lemma {:induction false} AndOfAppend(st: State, fs: seq<LogicalFactor>, f: LogicalFactor)
    requires fs != [] && FactorsCallFree(fs) && CallFreeFactor(f)
    ensures FactorsCallFree(fs + [f])
    ensures AndOf(st, fs + [f]) ==
      var a := AndOf(st, fs);
      if a.Err? || !Truthy(a.value) then a else FactorIn(st, f)
    decreases |fs|
  {
    var g := fs + [f];
    assert forall i :: 0 <= i < |fs| ==> g[i] == fs[i];
    assert g[|fs|] == f;
    var v := FactorIn(st, fs[0]);
    if !(v.Err? || !Truthy(v.value)) {
      if |fs| == 1 {
        assert g[1..] == [f];
      } else {
        assert g[1..] == fs[1..] + [f];
        assert forall i :: 0 <= i < |fs[1..]| ==> fs[1..][i] == fs[i + 1];
        AndOfAppend(st, fs[1..], f);
      }
    }
  }

  /** Extending an `or` chain at the end. */
  lemma {:induction false} OrOfAppend(st: State, ts: seq<LogicalTerm>, t: LogicalTerm)
    requires ts != [] && TermsCallFree(ts) && CallFreeTerm(t)
    ensures TermsCallFree(ts + [t])
    ensures OrOf(st, ts + [t]) ==
      var a := OrOf(st, ts);
      if a.Err? || Truthy(a.value) then a else TermIn(st, t)
    decreases |ts|
  {
    var g := ts + [t];
    assert forall i :: 0 <= i < |ts| ==> g[i] == ts[i];
    assert g[|ts|] == t;
    var v := TermIn(st, ts[0]);
    if !(v.Err? || Truthy(v.value)) {
      if |ts| == 1 {
        assert g[1..] == [t];
      } else {
        assert g[1..] == ts[1..] + [t];
        assert forall i :: 0 <= i < |ts[1..]| ==> ts[1..][i] == ts[i + 1];
        OrOfAppend(st, ts[1..], t);
      }
    }
  }

  /** A call-free factor changes nothing; its run is the reference value. */
  lemma {:induction false} FactorCallFree(fuel: nat, st: State, f: LogicalFactor, supply: seq<Instance>)
    requires CallFreeFactor(f)
    ensures SemFactor(fuel, st, f, supply) == Step(FactorIn(st, f), st, supply)
  {
    match f
    case Comparison(left, _, right) =>
      ValueCallFree(fuel, st, left, supply);
      ValueCallFree(fuel, st, right, supply);
    case Nested(_) =>
    case Single(v) =>
      ValueCallFree(fuel, st, v, supply);
  }

  /** The first `n + 1` factors of a call-free term are call-free. */
  lemma FactorsPrefix(t: LogicalTerm, n: nat)
    requires n <= |t.rest| && CallFreeTerm(t)
    ensures FactorsCallFree(t.Factors()[..n + 1])
  {
    assert forall i :: 0 <= i < n + 1 ==> t.Factors()[..n + 1][i] == t.Factors()[i];
  }

  /** The first `n + 1` terms of a call-free expression are call-free. */
  lemma TermsPrefix(le: LogicalExpr, n: nat)
    requires n <= |le.rest| && CallFreeLogical(le)
    ensures TermsCallFree(le.Terms()[..n + 1])
  {
    assert forall i :: 0 <= i < n + 1 ==> le.Terms()[..n + 1][i] == le.Terms()[i];
  }

  /** A prefix one element longer. */
  lemma TakeOneMore<T>(xs: seq<T>, n: nat)
    requires n < |xs|
    ensures xs[..n + 1] == xs[..n] + [xs[n]]
  {
  }

  lemma {:induction false} AndCallFree(fuel: nat, st: State, t: LogicalTerm, n: nat, supply: seq<Instance>)
    requires n <= |t.rest| && CallFreeTerm(t)
    ensures FactorsCallFree(t.Factors()[..n + 1])
    ensures SemAnd(fuel, st, t, n, supply) == Step(AndOf(st, t.Factors()[..n + 1]), st, supply)
    decreases n
  {
    FactorsPrefix(t, n);
    var fs := t.Factors();
    if n == 0 {
      assert fs[..1] == [t.first];
      FactorCallFree(fuel, st, t.first, supply);
    } else {
      AndCallFree(fuel, st, t, n - 1, supply);
      var f := t.rest[n - 1];
      assert fs[n] == f;
      FactorCallFree(fuel, st, f, supply);
      TakeOneMore(fs, n);
      AndOfAppend(st, fs[..n], f);
    }
  }

  /** A call-free `and` chain changes nothing; its run is the reference
      value. */
  lemma {:induction false} TermCallFree(fuel: nat, st: State, t: LogicalTerm, supply: seq<Instance>)
    requires CallFreeTerm(t)
    ensures SemTerm(fuel, st, t, supply) == Step(TermIn(st, t), st, supply)
  {
    var fs := t.Factors();
    AndCallFree(fuel, st, t, |t.rest|, supply);
    assert fs[..|t.rest| + 1] == fs;
    assert SemTerm(fuel, st, t, supply) == SemAnd(fuel, st, t, |t.rest|, supply);
    assert TermIn(st, t) == AndOf(st, fs);
  }

  lemma {:induction false} OrCallFree(fuel: nat, st: State, le: LogicalExpr, n: nat, supply: seq<Instance>)
    requires n <= |le.rest| && CallFreeLogical(le)
    ensures TermsCallFree(le.Terms()[..n + 1])
    ensures SemOr(fuel, st, le, n, supply) == Step(OrOf(st, le.Terms()[..n + 1]), st, supply)
    decreases n
  {
    TermsPrefix(le, n);
    var ts := le.Terms();
    if n == 0 {
      assert ts[..1] == [le.first];
      TermCallFree(fuel, st, le.first, supply);
    } else {
      OrCallFree(fuel, st, le, n - 1, supply);
      var t := le.rest[n - 1];
      assert ts[n] == t;
      TermCallFree(fuel, st, t, supply);
      TakeOneMore(ts, n);
      OrOfAppend(st, ts[..n], t);
    }
  }

  /** A call-free logical expression changes nothing; its run is the
      reference value. */
  lemma {:induction false} LogicalCallFree(fuel: nat, st: State, le: LogicalExpr, supply: seq<Instance>)
    requires CallFreeLogical(le)
    ensures SemLogical(fuel, st, le, supply) == Step(LogicalIn(st, le), st, supply)
  {
    var ts := le.Terms();
    OrCallFree(fuel, st, le, |le.rest|, supply);
    assert ts[..|le.rest| + 1] == ts;
    assert SemLogical(fuel, st, le, supply) == SemOr(fuel, st, le, |le.rest|, supply);
    assert LogicalIn(st, le) == OrOf(st, ts);
  }

  /** A successful argument list has one value per argument. */
  lemma {:induction false} ArgsCount(fuel: nat, st: State, args: seq<ValueExpr>, supply: seq<Instance>)
    requires SemArgs(fuel, st, args, supply).r.Ok?
    ensures |SemArgs(fuel, st, args, supply).r.value| == |args|
    decreases |args|
  {
    if args != [] {
      ArgsCount(fuel, st, args[..|args| - 1], supply);
    }
  }

  /** The results of call-free arguments, one by one, in state `st`. */
  function ArgResults(st: State, args: seq<ValueExpr>): (rs: seq<Result<Value, Fault>>)
    requires ArgsAreCallFree(args)
    ensures |rs| == |args|
    decreases |args|
  {
    if args == [] then []
    else
      var n := |args| - 1;
      assert ArgsAreCallFree(args[..n]) by {
        assert forall k :: 0 <= k < n ==> args[..n][k] == args[k];
      }
      ArgResults(st, args[..n]) + [ValueIn(st, args[n])]
  }

  /** The `k`-th result is the `k`-th argument's value. */
  lemma {:induction false} ArgResultsAt(st: State, args: seq<ValueExpr>, k: nat)
    requires ArgsAreCallFree(args) && k < |args|
    ensures ArgResults(st, args)[k] == ValueIn(st, args[k])
    decreases |args|
  {
    var n := |args| - 1;
    var front := args[..n];
    assert ArgsAreCallFree(front) by {
      assert forall j :: 0 <= j < n ==> front[j] == args[j];
    }
    var last := ValueIn(st, args[n]);
    assert ArgResults(st, args) == ArgResults(st, front) + [last];
    if k < n {
      ArgResultsAt(st, front, k);
      assert front[k] == args[k];
    }
  }

  /** `r` gathers the results `rs`: it succeeds exactly when every one
      does, holds their values in order, and otherwise fails with the first
      failure. */
  predicate Gathers(rs: seq<Result<Value, Fault>>, r: Result<seq<Value>, Fault>)
  {
    && (r.Ok? <==> forall k :: 0 <= k < |rs| ==> rs[k].Ok?)
    && (r.Ok? ==> |r.value| == |rs| && forall k :: 0 <= k < |rs| ==> r.value[k] == rs[k].value)
    && (r.Err? ==> exists k :: 0 <= k < |rs| && rs[k] == Err(r.error) && forall j :: 0 <= j < k ==> rs[j].Ok?)
  }

  /** Call-free arguments change nothing; the list gathers the arguments'
      results. */
  lemma {:induction false} ArgsCallFree(fuel: nat, st: State, args: seq<ValueExpr>, supply: seq<Instance>)
    requires ArgsAreCallFree(args)
    ensures var x := SemArgs(fuel, st, args, supply);
      x.st == st && x.supply == supply && Gathers(ArgResults(st, args), x.r)
    decreases |args|
  {
    if args != [] {
      var n := |args| - 1;
      var pre := args[..n];
      assert ArgsAreCallFree(pre) by {
        assert forall k :: 0 <= k < n ==> pre[k] == args[k];
      }
      ArgsCallFree(fuel, st, pre, supply);
      var x := SemArgs(fuel, st, pre, supply);
      var y := ValueIn(st, args[n]);
      var res := if x.r.Err? then x.r else if y.Err? then Err(y.error) else Ok(x.r.value + [y.value]);
      ArgsCallFreeLast(fuel, st, args, supply, x.r);
      assert SemArgs(fuel, st, args, supply) == Step(res, st, supply);
      var rs := ArgResults(st, args);
      assert Gathers(rs, res) by {
        assert rs[..n] == ArgResults(st, pre) && rs[n] == y;
        GathersStep(rs, x.r);
      }
    } else {
      assert SemArgs(fuel, st, args, supply) == Step(Ok([]), st, supply);
      assert ArgResults(st, args) == [];
    }
  }

  /** The last of call-free arguments, once the others are evaluated. */
  lemma ArgsCallFreeLast(fuel: nat, st: State, args: seq<ValueExpr>, supply: seq<Instance>, xr: Result<seq<Value>, Fault>)
    requires args != [] && CallFree(args[|args| - 1])
    requires SemArgs(fuel, st, args[..|args| - 1], supply) == Step(xr, st, supply)
    ensures var y := ValueIn(st, args[|args| - 1]);
      SemArgs(fuel, st, args, supply) ==
        Step(if xr.Err? then xr else if y.Err? then Err(y.error) else Ok(xr.value + [y.value]), st, supply)
  {
    ValueCallFree(fuel, st, args[|args| - 1], supply);
  }

  /** Gathering one result more. */
  lemma GathersStep(rs: seq<Result<Value, Fault>>, x: Result<seq<Value>, Fault>)
    requires rs != [] && Gathers(rs[..|rs| - 1], x)
    ensures var y := rs[|rs| - 1];
      Gathers(rs, if x.Err? then x else if y.Err? then Err(y.error) else Ok(x.value + [y.value]))
  {
    var n := |rs| - 1;
    var pre := rs[..n];
    assert forall k :: 0 <= k < n ==> pre[k] == rs[k];
    if x.Err? {
      var k :| 0 <= k < |pre| && pre[k] == Err(x.error) && forall j :: 0 <= j < k ==> pre[j].Ok?;
      assert rs[k] == Err(x.error);
    }
  }

  // ---- what one statement does ----

  /** `visitCreateStatement`: an unknown class faults and changes nothing.
      Otherwise, once the arguments are evaluated, the variable names a new
      instance of the class, unknown to the store before, whose fields are
      the arguments bound by the constructor rule; no other variable and no
      other instance changes. */
  lemma CreateEffect(fuel: nat, st: State, s: Stmt, supply: seq<Instance>)
    requires s.Create?
    ensures s.className !in st.classes ==>
      SemStmt(fuel, st, s, supply) == Step(Err(UnknownClass(s.className)), st, supply)
    ensures s.className in st.classes ==>
      var x := SemArgs(fuel, st, s.args, supply);
      var res := SemStmt(fuel, st, s, supply);
      && (res.r.Ok? <==> x.r.Ok? && FreshFor(x.st, x.supply, st.classes[s.className]))
      && (res.r.Ok? ==>
        var inst := x.supply[0];
        && LookupObject(res.st.variables, s.varName) == Ok(inst)
        && inst.classDef == st.classes[s.className]
        && inst !in x.st.store
        && FieldsOf(res.st, inst) == Bind(map[], CollectAttributes(inst.classDef), x.r.value)
        && (forall o :: o != inst ==> FieldsOf(res.st, o) == FieldsOf(x.st, o))
        && (forall y :: y != s.varName ==> (y in res.st.variables <==> y in x.st.variables))
        && (forall y :: y != s.varName && y in x.st.variables ==> res.st.variables[y] == x.st.variables[y])
        && res.st.current == x.st.current && res.st.output == x.st.output
        && res.supply == x.supply[1..])
  {
  }

  /** After a create statement, the `k`-th constructor attribute of the new
      object reads back as the `k`-th argument, unless a later argument is
      bound to the same name. */
  lemma {:induction false} CreateThenRead(fuel: nat, st: State, s: Stmt, supply: seq<Instance>, k: nat)
    requires s.Create? && s.varName != "self" && s.className in st.classes
    requires SemStmt(fuel, st, s, supply).r.Ok?
    requires var names := CollectAttributes(st.classes[s.className]);
      && k < |s.args| && k < |names|
      && forall j :: k < j < Min(|s.args|, |names|) ==> names[j] != names[k]
    ensures SemArgs(fuel, st, s.args, supply).r.Ok?
    ensures var vals := SemArgs(fuel, st, s.args, supply).r.value;
      && k < |vals|
      && MemberIn(SemStmt(fuel, st, s, supply).st, s.varName, CollectAttributes(st.classes[s.className])[k]) == Ok(vals[k])
  {
    var x := SemArgs(fuel, st, s.args, supply);
    CreateEffect(fuel, st, s, supply);
    ArgsCount(fuel, st, s.args, supply);
    BindAt(map[], CollectAttributes(st.classes[s.className]), x.r.value, k);
  }

  /** A print statement with a call-free operand appends exactly the
      `str()` of its value to the output and changes nothing else; a fault
      prints nothing. */
  lemma {:induction false} PrintCallFree(fuel: nat, st: State, e: ValueExpr, supply: seq<Instance>)
    requires CallFree(e)
    ensures SemStmt(fuel, st, Print(e), supply) ==
      if ValueIn(st, e).Ok? then Step(Ok(()), st.(output := st.output + [Render(ValueIn(st, e).value)]), supply)
      else Step(Err(ValueIn(st, e).error), st, supply)
  {
    ValueCallFree(fuel, st, e, supply);
  }

  /** An if statement with a call-free condition runs exactly the branch
      the condition's reference value selects, from the state before. */
  lemma {:induction false} IfCallFree(fuel: nat, st: State, s: Stmt, supply: seq<Instance>)
    requires s.If? && CallFreeLogical(s.cond)
    ensures SemStmt(fuel, st, s, supply) ==
      var c := LogicalIn(st, s.cond);
      if c.Err? then Step(Err(c.error), st, supply)
      else if Truthy(c.value) then SemBlock(fuel, st, s.thenBlock, supply)
      else if s.elseClause.Else? then SemBlock(fuel, st, s.elseClause.block, supply)
      else Step(Ok(()), st, supply)
  {
    LogicalCallFree(fuel, st, s.cond, supply);
  }

  // ---- fuel only bounds a run ----

  /** A run that does not run out of fuel has the same outcome with more
      fuel: fuel cuts off non-terminating runs and changes nothing else. */
  lemma {:induction false} ValueMoreFuel(fuel: nat, more: nat, st: State, e: ValueExpr, supply: seq<Instance>)
    requires SemValue(fuel, st, e, supply).r != Err(OutOfFuel)
    ensures SemValue(fuel + more, st, e, supply) == SemValue(fuel, st, e, supply)
    decreases fuel, e, 2
  {
    match e
    case Call(c) =>
      CallMoreFuel(fuel, more, st, c, supply);
    case Binary(left, _, right) =>
      var x := SemValue(fuel, st, left, supply);
      ValueMoreFuel(fuel, more, st, left, supply);
      if x.r.Ok? {
        ValueMoreFuel(fuel, more, x.st, right, x.supply);
      }
    case Paren(inner) =>
      ValueMoreFuel(fuel, more, st, inner, supply);
    case _ =>
  }

  lemma {:induction false} CallMoreFuel(fuel: nat, more: nat, st: State, c: MethodCall, supply: seq<Instance>)
    requires SemCall(fuel, st, c, supply).r != Err(OutOfFuel)
    ensures SemCall(fuel + more, st, c, supply) == SemCall(fuel, st, c, supply)
    decreases fuel, c, 1
  {
    var o := LookupObject(st.variables, c.objName);
    if o.Ok? && Dispatch(o.value.classDef, c.methodName).Some? {
      var m := Dispatch(o.value.classDef, c.methodName).value;
      assert fuel + more - 1 == (fuel - 1) + more;
      BlockMoreFuel(fuel - 1, more, st.(current := o.value), m.body, supply);
    }
  }

  lemma {:induction false} ArgsMoreFuel(fuel: nat, more: nat, st: State, args: seq<ValueExpr>, supply: seq<Instance>)
    requires SemArgs(fuel, st, args, supply).r != Err(OutOfFuel)
    ensures SemArgs(fuel + more, st, args, supply) == SemArgs(fuel, st, args, supply)
    decreases fuel, args, 2
  {
    if args != [] {
      var x := SemArgs(fuel, st, args[..|args| - 1], supply);
      ArgsMoreFuel(fuel, more, st, args[..|args| - 1], supply);
      if x.r.Ok? {
        ValueMoreFuel(fuel, more, x.st, args[|args| - 1], x.supply);
      }
    }
  }

  lemma {:induction false} OrMoreFuel(fuel: nat, more: nat, st: State, le: LogicalExpr, n: nat, supply: seq<Instance>)
    requires n <= |le.rest|
    requires SemOr(fuel, st, le, n, supply).r != Err(OutOfFuel)
    ensures SemOr(fuel + more, st, le, n, supply) == SemOr(fuel, st, le, n, supply)
    decreases fuel, le, 1, n
  {
    if n == 0 {
      TermMoreFuel(fuel, more, st, le.first, supply);
    } else {
      var x := SemOr(fuel, st, le, n - 1, supply);
      OrMoreFuel(fuel, more, st, le, n - 1, supply);
      if x.r.Ok? && !Truthy(x.r.value) {
        TermMoreFuel(fuel, more, x.st, le.rest[n - 1], x.supply);
      }
    }
  }

  lemma {:induction false} TermMoreFuel(fuel: nat, more: nat, st: State, t: LogicalTerm, supply: seq<Instance>)
    requires SemTerm(fuel, st, t, supply).r != Err(OutOfFuel)
    ensures SemTerm(fuel + more, st, t, supply) == SemTerm(fuel, st, t, supply)
    decreases fuel, t, 2
  {
    AndMoreFuel(fuel, more, st, t, |t.rest|, supply);
  }

  lemma {:induction false} AndMoreFuel(fuel: nat, more: nat, st: State, t: LogicalTerm, n: nat, supply: seq<Instance>)
    requires n <= |t.rest|
    requires SemAnd(fuel, st, t, n, supply).r != Err(OutOfFuel)
    ensures SemAnd(fuel + more, st, t, n, supply) == SemAnd(fuel, st, t, n, supply)
    decreases fuel, t, 1, n
  {
    if n == 0 {
      FactorMoreFuel(fuel, more, st, t.first, supply);
    } else {
      var x := SemAnd(fuel, st, t, n - 1, supply);
      AndMoreFuel(fuel, more, st, t, n - 1, supply);
      if x.r.Ok? && Truthy(x.r.value) {
        FactorMoreFuel(fuel, more, x.st, t.rest[n - 1], x.supply);
      }
    }
  }

  lemma {:induction false} FactorMoreFuel(fuel: nat, more: nat, st: State, f: LogicalFactor, supply: seq<Instance>)
    requires SemFactor(fuel, st, f, supply).r != Err(OutOfFuel)
    ensures SemFactor(fuel + more, st, f, supply) == SemFactor(fuel, st, f, supply)
    decreases fuel, f, 2
  {
    match f
    case Comparison(left, _, right) =>
      var x := SemValue(fuel, st, left, supply);
      ValueMoreFuel(fuel, more, st, left, supply);
      if x.r.Ok? {
        ValueMoreFuel(fuel, more, x.st, right, x.supply);
      }
    case Nested(_) =>
    case Single(v) =>
      ValueMoreFuel(fuel, more, st, v, supply);
  }

  lemma {:induction false} BlockMoreFuel(fuel: nat, more: nat, st: State, stmts: seq<Stmt>, supply: seq<Instance>)
    requires SemBlock(fuel, st, stmts, supply).r != Err(OutOfFuel)
    ensures SemBlock(fuel + more, st, stmts, supply) == SemBlock(fuel, st, stmts, supply)
    decreases fuel, stmts, 2
  {
    if stmts != [] {
      var x := SemBlock(fuel, st, stmts[..|stmts| - 1], supply);
      BlockMoreFuel(fuel, more, st, stmts[..|stmts| - 1], supply);
      if x.r.Ok? {
        StmtMoreFuel(fuel, more, x.st, stmts[|stmts| - 1], x.supply);
      }
    }
  }

  lemma {:induction false} StmtMoreFuel(fuel: nat, more: nat, st: State, s: Stmt, supply: seq<Instance>)
    requires SemStmt(fuel, st, s, supply).r != Err(OutOfFuel)
    ensures SemStmt(fuel + more, st, s, supply) == SemStmt(fuel, st, s, supply)
    decreases fuel, s, 2
  {
    match s
    case Create(_, _, _) =>
      CreateMoreFuel(fuel, more, st, s, supply);
    case Assign(_, value) =>
      ValueMoreFuel(fuel, more, st, value, supply);
    case Print(value) =>
      ValueMoreFuel(fuel, more, st, value, supply);
    case If(_, _, _) =>
      IfMoreFuel(fuel, more, st, s, supply);
    case Loop(_, _) =>
      LoopMoreFuel(fuel, more, st, s, supply);
    case Return(_) =>
    case ExprStmt(e) =>
      ValueMoreFuel(fuel, more, st, e, supply);
    case Break =>
    case Continue =>
    case SuperCall(args) =>
      ArgsMoreFuel(fuel, more, st, args, supply);
  }

  lemma {:induction false} CreateMoreFuel(fuel: nat, more: nat, st: State, s: Stmt, supply: seq<Instance>)
    requires s.Create?
    requires SemCreate(fuel, st, s, supply).r != Err(OutOfFuel)
    ensures SemCreate(fuel + more, st, s, supply) == SemCreate(fuel, st, s, supply)
    decreases fuel, s, 1
  {
    if s.className in st.classes {
      ArgsMoreFuel(fuel, more, st, s.args, supply);
    }
  }

  lemma {:induction false} IfMoreFuel(fuel: nat, more: nat, st: State, s: Stmt, supply: seq<Instance>)
    requires s.If?
    requires SemIf(fuel, st, s, supply).r != Err(OutOfFuel)
    ensures SemIf(fuel + more, st, s, supply) == SemIf(fuel, st, s, supply)
    decreases fuel, s, 1
  {
    var c := SemLogical(fuel, st, s.cond, supply);
    OrMoreFuel(fuel, more, st, s.cond, |s.cond.rest|, supply);
    if c.r.Ok? {
      if Truthy(c.r.value) {
        BlockMoreFuel(fuel, more, c.st, s.thenBlock, c.supply);
      } else if s.elseClause.Else? {
        BlockMoreFuel(fuel, more, c.st, s.elseClause.block, c.supply);
      }
    }
  }

  lemma {:induction false} LoopMoreFuel(fuel: nat, more: nat, st: State, s: Stmt, supply: seq<Instance>)
    requires s.Loop?
    requires SemLoop(fuel, st, s, supply).r != Err(OutOfFuel)
    ensures SemLoop(fuel + more, st, s, supply) == SemLoop(fuel, st, s, supply)
    decreases fuel, s, 1
  {
    var x := SemIteration(fuel - 1, st, s, supply);
    assert fuel + more - 1 == (fuel - 1) + more;
    IterationMoreFuel(fuel - 1, more, st, s, supply);
    if x.r.Ok? && !Truthy(x.r.value) {
      LoopMoreFuel(fuel - 1, more, x.st, s, x.supply);
    }
  }

  lemma {:induction false} IterationMoreFuel(fuel: nat, more: nat, st: State, s: Stmt, supply: seq<Instance>)
    requires s.Loop?
    requires SemIteration(fuel, st, s, supply).r != Err(OutOfFuel)
    ensures SemIteration(fuel + more, st, s, supply) == SemIteration(fuel, st, s, supply)
    decreases fuel, s, 0
  {
    var b := SemBlock(fuel, st, s.body, supply);
    BlockMoreFuel(fuel, more, st, s.body, supply);
    if b.r.Ok? {
      OrMoreFuel(fuel, more, b.st, s.cond, |s.cond.rest|, b.supply);
    }
  }

  // ---- a whole program ----

  /** `visitProgram`: the declaration pass, then the main block with the
      resulting class table. A failed declaration ends the run with the
      classes registered before it in the table. */
  function SemProgram(fuel: nat, st: State, p: Program, supply: seq<Instance>): (step: Step<()>)
    ensures step.st.classes == DeclareAll(st.classes, p.classes).1
    ensures DeclareAll(st.classes, p.classes).0.Err? ==>
      step == Step(Err(DeclareAll(st.classes, p.classes).0.error), st.(classes := step.st.classes), supply)
    ensures st.output <= step.st.output
  {
    var d := DeclareAll(st.classes, p.classes);
    if d.0.Err? then Step(Err(d.0.error), st.(classes := d.1), supply)
    else SemBlock(fuel, st.(classes := d.1), p.main, supply)
  }

  // ---- one piece after another ----

  /** The block grown by one statement runs that statement where the
      shorter block left off. */
  lemma BlockNext(fuel: nat, st: State, stmts: seq<Stmt>, i: nat, supply: seq<Instance>, rb: Outcome, mid: State, extra: seq<Instance>)
    requires i < |stmts| && rb.Ok?
    requires SemBlock(fuel, st, stmts[..i], supply) == Step(rb, mid, [])
    ensures SemBlock(fuel, st, stmts[..i + 1], supply + extra) == SemStmt(fuel, mid, stmts[i], extra)
  {
    BlockSupplyExtends(fuel, st, stmts[..i], supply, extra);
    var x := SemBlock(fuel, st, stmts[..i], supply + extra);
    assert x == Step(rb, mid, [] + extra);
    assert [] + extra == extra;
    assert stmts[..i + 1][..i] == stmts[..i];
    assert SemBlock(fuel, st, stmts[..i + 1], supply + extra) == SemStmt(fuel, x.st, stmts[i], x.supply);
  }

  /** The argument list grown by one evaluates that argument where the
      shorter list left off. */
  lemma ArgsNext(fuel: nat, st: State, args: seq<ValueExpr>, i: nat, supply: seq<Instance>, mid: State, vals: seq<Value>, extra: seq<Instance>)
    requires i < |args|
    requires SemArgs(fuel, st, args[..i], supply) == Step(Ok(vals), mid, [])
    ensures SemArgs(fuel, st, args[..i + 1], supply + extra) ==
      var y := SemValue(fuel, mid, args[i], extra);
      if y.r.Err? then Step(Err(y.r.error), y.st, y.supply) else Step(Ok(vals + [y.r.value]), y.st, y.supply)
  {
    ArgsSupplyExtends(fuel, st, args[..i], supply, extra);
    assert [] + extra == extra;
    assert args[..i + 1][..i] == args[..i];
  }

  /** The `or` chain grown by one term: a truthy value so far stays, a
      falsy one gives way to the next term. */
  lemma OrNext(fuel: nat, st: State, le: LogicalExpr, i: nat, supply: seq<Instance>, mid: State, v: Value, extra: seq<Instance>)
    requires i < |le.rest|
    requires SemOr(fuel, st, le, i, supply) == Step(Ok(v), mid, [])
    ensures SemOr(fuel, st, le, i + 1, supply + extra) ==
      if Truthy(v) then Step(Ok(v), mid, extra) else SemTerm(fuel, mid, le.rest[i], extra)
  {
    OrSupplyExtends(fuel, st, le, i, supply, extra);
    assert [] + extra == extra;
  }

  /** The `and` chain grown by one factor: a falsy value so far stays, a
      truthy one gives way to the next factor. */
  lemma AndNext(fuel: nat, st: State, t: LogicalTerm, i: nat, supply: seq<Instance>, mid: State, v: Value, extra: seq<Instance>)
    requires i < |t.rest|
    requires SemAnd(fuel, st, t, i, supply) == Step(Ok(v), mid, [])
    ensures SemAnd(fuel, st, t, i + 1, supply + extra) ==
      if !Truthy(v) then Step(Ok(v), mid, extra) else SemFactor(fuel, mid, t.rest[i], extra)
  {
    AndSupplyExtends(fuel, st, t, i, supply, extra);
    assert [] + extra == extra;
  }

  /** A binary expression whose left operand succeeded: the right operand
      runs where the left one left off. */
  lemma BinaryNext(fuel: nat, st: State, e: ValueExpr, supply: seq<Instance>, mid: State, v: Value, extra: seq<Instance>)
    requires e.Binary?
    requires SemValue(fuel, st, e.left, supply) == Step(Ok(v), mid, [])
    ensures SemValue(fuel, st, e, supply + extra) ==
      var y := SemValue(fuel, mid, e.right, extra);
      if y.r.Err? then y else Step(BinaryOp(v, e.op, y.r.value), y.st, y.supply)
  {
    ValueSupplyExtends(fuel, st, e.left, supply, extra);
    assert [] + extra == extra;
  }

  /** A comparison whose left operand succeeded: the right operand runs
      where the left one left off. */
  lemma ComparisonNext(fuel: nat, st: State, f: LogicalFactor, supply: seq<Instance>, mid: State, v: Value, extra: seq<Instance>)
    requires f.Comparison?
    requires SemValue(fuel, st, f.left, supply) == Step(Ok(v), mid, [])
    ensures SemFactor(fuel, st, f, supply + extra) ==
      var y := SemValue(fuel, mid, f.right, extra);
      if y.r.Err? then y else Step(Compare(v, f.op, y.r.value), y.st, y.supply)
  {
    ValueSupplyExtends(fuel, st, f.left, supply, extra);
    assert [] + extra == extra;
  }

  /** A create statement whose arguments succeeded, given an instance of
      the class that the state does not know. */
  lemma CreateNext(fuel: nat, st: State, s: Stmt, supply: seq<Instance>, mid: State, vals: seq<Value>, inst: Instance)
    requires s.Create? && s.className in st.classes
    requires SemArgs(fuel, st, s.args, supply) == Step(Ok(vals), mid, [])
    requires inst !in mid.store && inst.classDef == st.classes[s.className]
    ensures SemCreate(fuel, st, s, supply + [inst]) ==
      Step(Ok(()), mid.(variables := mid.variables[s.varName := VObj(inst)],
                        store := mid.store[inst := Bind(map[], CollectAttributes(inst.classDef), vals)]), [])
  {
    ArgsSupplyExtends(fuel, st, s.args, supply, [inst]);
  }

  /** An assignment whose value succeeded. */
  lemma AssignNext(fuel: nat, st: State, s: Stmt, supply: seq<Instance>, mid: State, v: Value)
    requires s.Assign?
    requires SemValue(fuel, st, s.value, supply) == Step(Ok(v), mid, [])
    ensures SemStmt(fuel, st, s, supply) == Step(AssignTo(mid, s.target, v).0, AssignTo(mid, s.target, v).1, [])
  {
  }

  /** An if statement whose condition succeeded runs the chosen block where
      the condition left off. */
  lemma IfNext(fuel: nat, st: State, s: Stmt, supply: seq<Instance>, mid: State, c: Value, extra: seq<Instance>)
    requires s.If?
    requires SemLogical(fuel, st, s.cond, supply) == Step(Ok(c), mid, [])
    ensures SemIf(fuel, st, s, supply + extra) ==
      if Truthy(c) then SemBlock(fuel, mid, s.thenBlock, extra)
      else if s.elseClause.Else? then SemBlock(fuel, mid, s.elseClause.block, extra)
      else Step(Ok(()), mid, extra)
  {
    OrSupplyExtends(fuel, st, s.cond, |s.cond.rest|, supply, extra);
    assert [] + extra == extra;
  }

  /** An iteration: a fault in the body ends it, otherwise the condition
      runs where the body left off. */
  lemma IterationNext(fuel: nat, st: State, s: Stmt, supply: seq<Instance>, rb: Outcome, mid: State, extra: seq<Instance>)
    requires s.Loop?
    requires SemBlock(fuel, st, s.body, supply) == Step(rb, mid, [])
    ensures rb.Err? ==> SemIteration(fuel, st, s, supply) == Step(Err(rb.error), mid, [])
    ensures rb.Ok? ==> SemIteration(fuel, st, s, supply + extra) == SemLogical(fuel, mid, s.cond, extra)
  {
    if rb.Ok? {
      BlockSupplyExtends(fuel, st, s.body, supply, extra);
      assert [] + extra == extra;
    }
  }

  /** An iteration that faults or ends with a truthy condition ends the
      loop. */
  lemma LoopEnds(fuel: nat, st: State, s: Stmt, supply: seq<Instance>, c: Result<Value, Fault>, after: State)
    requires s.Loop? && fuel > 0
    requires SemIteration(fuel - 1, st, s, supply) == Step(c, after, [])
    requires c.Err? || Truthy(c.value)
    ensures SemLoop(fuel, st, s, supply) == Step(if c.Err? then Err(c.error) else Ok(()), after, [])
  {
  }

  // ---- the values a chain or a loop looks at ----

  /** The values of the factors the `and` chain up to `t.rest[n - 1]`
      evaluates, in order. */
  function AndValues(fuel: nat, st: State, t: LogicalTerm, n: nat, supply: seq<Instance>): seq<Value>
    requires n <= |t.rest|
    decreases n
  {
    if n == 0 then
      var x := SemFactor(fuel, st, t.first, supply);
      if x.r.Ok? then [x.r.value] else []
    else
      var x := SemAnd(fuel, st, t, n - 1, supply);
      if x.r.Err? || !Truthy(x.r.value) then AndValues(fuel, st, t, n - 1, supply)
      else
        var y := SemFactor(fuel, x.st, t.rest[n - 1], x.supply);
        AndValues(fuel, st, t, n - 1, supply) + (if y.r.Ok? then [y.r.value] else [])
  }

  /** A successful `and` chain evaluates its factors up to the first falsy
      one, and its value is the last one evaluated: all before it are
      truthy, and it is falsy when a factor was skipped. */
  lemma {:induction false} AndValuesSettle(fuel: nat, st: State, t: LogicalTerm, n: nat, supply: seq<Instance>)
    requires n <= |t.rest|
    requires SemAnd(fuel, st, t, n, supply).r.Ok?
    ensures var vs := AndValues(fuel, st, t, n, supply);
      && 1 <= |vs| <= n + 1
      && SemAnd(fuel, st, t, n, supply).r.value == vs[|vs| - 1]
      && (forall k :: 0 <= k < |vs| - 1 ==> Truthy(vs[k]))
      && (|vs| < n + 1 ==> !Truthy(vs[|vs| - 1]))
    decreases n
  {
    if n > 0 {
      var x := SemAnd(fuel, st, t, n - 1, supply);
      if x.r.Ok? {
        AndValuesSettle(fuel, st, t, n - 1, supply);
      }
    }
  }

  /** The values of the terms the `or` chain up to `le.rest[n - 1]`
      evaluates, in order. */
  function OrValues(fuel: nat, st: State, le: LogicalExpr, n: nat, supply: seq<Instance>): seq<Value>
    requires n <= |le.rest|
    decreases n
  {
    if n == 0 then
      var x := SemTerm(fuel, st, le.first, supply);
      if x.r.Ok? then [x.r.value] else []
    else
      var x := SemOr(fuel, st, le, n - 1, supply);
      if x.r.Err? || Truthy(x.r.value) then OrValues(fuel, st, le, n - 1, supply)
      else
        var y := SemTerm(fuel, x.st, le.rest[n - 1], x.supply);
        OrValues(fuel, st, le, n - 1, supply) + (if y.r.Ok? then [y.r.value] else [])
  }

  /** A successful `or` chain evaluates its terms up to the first truthy
      one, and its value is the last one evaluated: all before it are
      falsy, and it is truthy when a term was skipped. */
  lemma {:induction false} OrValuesSettle(fuel: nat, st: State, le: LogicalExpr, n: nat, supply: seq<Instance>)
    requires n <= |le.rest|
    requires SemOr(fuel, st, le, n, supply).r.Ok?
    ensures var vs := OrValues(fuel, st, le, n, supply);
      && 1 <= |vs| <= n + 1
      && SemOr(fuel, st, le, n, supply).r.value == vs[|vs| - 1]
      && (forall k :: 0 <= k < |vs| - 1 ==> !Truthy(vs[k]))
      && (|vs| < n + 1 ==> Truthy(vs[|vs| - 1]))
    decreases n
  {
    if n > 0 {
      var x := SemOr(fuel, st, le, n - 1, supply);
      if x.r.Ok? {
        OrValuesSettle(fuel, st, le, n - 1, supply);
      }
    }
  }

  /** Where the `and` loop of `visitLogicalTerm` stops: at the end of the
      chain, or at a fault, after which nothing changes. The chain's step is
      the one reached, and a successful one settles as `AndValuesSettle`
      says. */
  lemma AndFinish(fuel: nat, st: State, t: LogicalTerm, i: nat, supply: seq<Instance>)
    requires i <= |t.rest|
    requires i < |t.rest| ==> SemAnd(fuel, st, t, i, supply).r.Err?
    ensures SemAnd(fuel, st, t, |t.rest|, supply) == SemAnd(fuel, st, t, i, supply)
    ensures SemAnd(fuel, st, t, |t.rest|, supply).r.Ok? ==>
      var vs := AndValues(fuel, st, t, |t.rest|, supply);
      && 1 <= |vs| <= |t.rest| + 1
      && SemAnd(fuel, st, t, |t.rest|, supply).r.value == vs[|vs| - 1]
      && (forall k :: 0 <= k < |vs| - 1 ==> Truthy(vs[k]))
      && (|vs| < |t.rest| + 1 ==> !Truthy(vs[|vs| - 1]))
  {
    if i < |t.rest| {
      AndSettles(fuel, st, t, i, |t.rest|, supply);
    } else if SemAnd(fuel, st, t, i, supply).r.Ok? {
      AndValuesSettle(fuel, st, t, i, supply);
    }
  }

  /** The same for the `or` loop of `visitLogicalExpression`. */
  lemma OrFinish(fuel: nat, st: State, le: LogicalExpr, i: nat, supply: seq<Instance>)
    requires i <= |le.rest|
    requires i < |le.rest| ==> SemOr(fuel, st, le, i, supply).r.Err?
    ensures SemOr(fuel, st, le, |le.rest|, supply) == SemOr(fuel, st, le, i, supply)
    ensures SemOr(fuel, st, le, |le.rest|, supply).r.Ok? ==>
      var vs := OrValues(fuel, st, le, |le.rest|, supply);
      && 1 <= |vs| <= |le.rest| + 1
      && SemOr(fuel, st, le, |le.rest|, supply).r.value == vs[|vs| - 1]
      && (forall k :: 0 <= k < |vs| - 1 ==> !Truthy(vs[k]))
      && (|vs| < |le.rest| + 1 ==> Truthy(vs[|vs| - 1]))
  {
    if i < |le.rest| {
      OrSettles(fuel, st, le, i, |le.rest|, supply);
    } else if SemOr(fuel, st, le, i, supply).r.Ok? {
      OrValuesSettle(fuel, st, le, i, supply);
    }
  }

  /** The condition values a loop sees, in order. */
  function LoopConds(fuel: nat, st: State, s: Stmt, supply: seq<Instance>): seq<Value>
    requires s.Loop?
    decreases fuel
  {
    if fuel == 0 then []
    else
      var x := SemIteration(fuel - 1, st, s, supply);
      if x.r.Err? then []
      else if Truthy(x.r.value) then [x.r.value]
      else [x.r.value] + LoopConds(fuel - 1, x.st, s, x.supply)
  }

  /** Every value but the last is falsy. */
  predicate FalsyUntilLast(vs: seq<Value>)
  {
    forall k :: 0 <= k < |vs| - 1 ==> !Truthy(vs[k])
  }

  /** A loop sees falsy conditions until the last one, and it ends
      normally only on a truthy one. */
  lemma {:induction false} LoopCondsEnd(fuel: nat, st: State, s: Stmt, supply: seq<Instance>)
    requires s.Loop?
    ensures FalsyUntilLast(LoopConds(fuel, st, s, supply))
    ensures var cs := LoopConds(fuel, st, s, supply);
      SemLoop(fuel, st, s, supply).r.Ok? ==> |cs| >= 1 && Truthy(cs[|cs| - 1])
    decreases fuel
  {
    if fuel > 0 {
      var x := SemIteration(fuel - 1, st, s, supply);
      var cs := LoopConds(fuel, st, s, supply);
      if x.r.Err? {
        assert cs == [];
      } else if Truthy(x.r.value) {
        assert cs == [x.r.value];
      } else {
        LoopCondsEnd(fuel - 1, x.st, s, x.supply);
        var rest := LoopConds(fuel - 1, x.st, s, x.supply);
        assert cs == [x.r.value] + rest;
        assert SemLoop(fuel, st, s, supply) == SemLoop(fuel - 1, x.st, s, x.supply);
        forall k | 0 <= k < |cs| - 1
          ensures !Truthy(cs[k])
        {
          if k > 0 {
            assert cs[k] == rest[k - 1];
          } else {
            assert cs[0] == x.r.value;
          }
        }
      }
    }
  }

  // ---- a loop, iteration by iteration ----

  /** The instances of `per[0]`, then those of `per[1]`, and so on. */
  function Flatten(per: seq<seq<Instance>>): seq<Instance>
  {
    if per == [] then [] else Flatten(per[..|per| - 1]) + per[|per| - 1]
  }

  /** One iteration that ends with a falsy condition in state `after`,
      using exactly the instances of `supply`. */
  predicate FalsyIteration(fuel: nat, st: State, s: Stmt, supply: seq<Instance>, after: State)
    requires s.Loop?
  {
    var x := SemIteration(fuel, st, s, supply);
    x.r.Ok? && !Truthy(x.r.value) && x.st == after && x.supply == []
  }

  /** An iteration with a falsy condition hands the loop on, with one unit
      of fuel less, to the state and supply it leaves. */
  lemma LoopFalsyStep(fuel: nat, st: State, s: Stmt, supply: seq<Instance>, later: seq<Instance>, after: State)
    requires s.Loop? && fuel > 0
    requires FalsyIteration(fuel - 1, st, s, supply, after)
    ensures SemLoop(fuel, st, s, supply + later) == SemLoop(fuel - 1, after, s, later)
  {
    IterationSupplyExtends(fuel - 1, st, s, supply, later);
    var x := SemIteration(fuel - 1, st, s, supply + later);
    assert x.st == after && x.supply == later && x.r.Ok? && !Truthy(x.r.value);
  }

  /** The iterations of `per` all ended with a falsy condition, going
      through the states `sts`; the `j`-th had `fuel - j - 1` to spend. */
  predicate LoopTraced(fuel: nat, s: Stmt, sts: seq<State>, per: seq<seq<Instance>>)
    requires s.Loop?
    decreases |per|
  {
    && |sts| == |per| + 1 && |per| <= fuel
    && (per != [] ==>
          var m := |per| - 1;
          && LoopTraced(fuel, s, sts[..m + 1], per[..m])
          && FalsyIteration(fuel - m - 1, sts[m], s, per[m], sts[m + 1]))
  }

  /** One more iteration with a falsy condition extends the trace. */
  lemma LoopTraceExtend(fuel: nat, s: Stmt, sts: seq<State>, per: seq<seq<Instance>>, a: seq<Instance>, after: State)
    requires s.Loop? && LoopTraced(fuel, s, sts, per) && |per| < fuel
    requires FalsyIteration(fuel - |per| - 1, sts[|per|], s, a, after)
    ensures LoopTraced(fuel, s, sts + [after], per + [a])
    ensures Flatten(per + [a]) == Flatten(per) + a
  {
    var sts', per' := sts + [after], per + [a];
    var m := |per|;
    assert sts'[..m + 1] == sts && per'[..m] == per;
    assert sts'[m] == sts[m] && sts'[m + 1] == after && per'[m] == a;
  }

  /** A loop that has used up its fuel after the traced iterations. */
  lemma LoopOutOfFuel(fuel: nat, s: Stmt, sts: seq<State>, per: seq<seq<Instance>>)
    requires s.Loop? && LoopTraced(fuel, s, sts, per) && |per| == fuel
    ensures SemLoop(fuel, sts[0], s, Flatten(per)) == Step(Err(OutOfFuel), sts[|per|], [])
  {
    LoopTrace(fuel, s, sts, per, []);
    assert Flatten(per) + [] == Flatten(per);
  }

  /** A loop whose iteration after the traced ones faults or ends with a
      truthy condition. */
  lemma LoopExit(fuel: nat, s: Stmt, sts: seq<State>, per: seq<seq<Instance>>, a: seq<Instance>, c: Result<Value, Fault>, after: State)
    requires s.Loop? && LoopTraced(fuel, s, sts, per) && |per| < fuel
    requires SemIteration(fuel - |per| - 1, sts[|per|], s, a) == Step(c, after, [])
    requires c.Err? || Truthy(c.value)
    ensures SemLoop(fuel, sts[0], s, Flatten(per) + a) == Step(if c.Err? then Err(c.error) else Ok(()), after, [])
  {
    LoopEnds(fuel - |per|, sts[|per|], s, a, c, after);
    LoopTrace(fuel, s, sts, per, a);
  }

  /** The iteration after the traced ones: one that faults or ends with a
      truthy condition ends the loop in the state it leaves; one with a
      falsy condition extends the trace. */
  lemma LoopAdvance(fuel: nat, s: Stmt, sts: seq<State>, per: seq<seq<Instance>>, a: seq<Instance>, c: Result<Value, Fault>, after: State)
    requires s.Loop? && LoopTraced(fuel, s, sts, per) && |per| < fuel
    requires SemIteration(fuel - |per| - 1, sts[|per|], s, a) == Step(c, after, [])
    ensures c.Err? || Truthy(c.value) ==>
      SemLoop(fuel, sts[0], s, Flatten(per) + a) == Step(if c.Err? then Err(c.error) else Ok(()), after, [])
    ensures c.Ok? && !Truthy(c.value) ==>
      LoopTraced(fuel, s, sts + [after], per + [a]) && Flatten(per + [a]) == Flatten(per) + a
  {
    if c.Err? || Truthy(c.value) {
      LoopExit(fuel, s, sts, per, a, c, after);
    } else {
      LoopTraceExtend(fuel, s, sts, per, a, after);
    }
  }

  /** After the traced iterations, each with a falsy condition, the loop
      is where it would be had it started at the last of their states with
      that much less fuel. */
  lemma {:induction false} LoopTrace(fuel: nat, s: Stmt, sts: seq<State>, per: seq<seq<Instance>>, rest: seq<Instance>)
    requires s.Loop? && LoopTraced(fuel, s, sts, per)
    ensures SemLoop(fuel, sts[0], s, Flatten(per) + rest) == SemLoop(fuel - |per|, sts[|per|], s, rest)
    decreases |per|
  {
    if per != [] {
      var m := |per| - 1;
      var sts', per' := sts[..m + 1], per[..m];
      LoopTrace(fuel, s, sts', per', per[m] + rest);
      assert sts'[0] == sts[0] && sts'[m] == sts[m] && |per'| == m;
      assert Flatten(per) + rest == Flatten(per') + (per[m] + rest);
      LoopFalsyStep(fuel - m, sts[m], s, per[m], rest, sts[m + 1]);
    } else {
      assert Flatten(per) + rest == rest;
    }
  }

}
