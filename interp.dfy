/** The tree-walking interpreter. One `Interpreter` object holds the class
    table, the flat global variable environment, the current instance that
    `self` denotes, and the lines printed so far; each visitor of the Python
    class is a method here that updates that state in place, and each method
    is proved to run exactly as the semantic function of the same name in
    module `Semantics`, from the state it starts in to the state it leaves.

    Fuel stands in for non-termination: every method call and every loop
    iteration spends one unit, and a run that exhausts it ends with
    `OutOfFuel` instead of running forever. */
module Interp {
  import opened Base
  import opened Syntax
  import opened ClassTable
  import opened Runtime
  import opened Semantics

  lemma {:induction false} BindWithin(f: map<string, Value>, names: seq<string>, args: seq<Value>, heap: set<Instance>)
    requires forall x :: x in f ==> Within(f[x], heap)
    requires forall k :: 0 <= k < |args| ==> Within(args[k], heap)
    ensures forall x :: x in Bind(f, names, args) ==> Within(Bind(f, names, args)[x], heap)
  {
    if args != [] {
      BindWithin(f, names, args[..|args| - 1], heap);
    }
  }

  /** `set_constructor_attributes`: bind the arguments to the chain's
      attribute names, root class first; the write guard never refuses. */
  method BindConstructorArgs(inst: Instance, args: seq<Value>)
    modifies inst
    ensures inst.fields == Bind(old(inst.fields), CollectAttributes(inst.classDef), args)
  {
    var names := CollectAttributes(inst.classDef);
    var i := 0;
    while i < |args|
      invariant 0 <= i <= |args|
      invariant inst.fields == Bind(old(inst.fields), names, args[..i])
    {
      assert args[..i + 1][..i] == args[..i];
      if i < |names| {
        CollectedAreWritable(inst.classDef, names[i]);
        var ok := inst.SetAttr(names[i], args[i]);
      }
      i := i + 1;
    }
    assert args[..|args|] == args;
  }

  /** The field store of the instances of `heap`. */
  ghost function StoreOf(heap: set<Instance>): map<Instance, map<string, Value>>
    reads heap
  {
    map o | o in heap :: o.fields
  }

  /** The store of one more instance. */
  lemma StoreAdd(heap: set<Instance>, o: Instance)
    ensures StoreOf(heap + {o}) == StoreOf(heap)[o := o.fields]
  {
  }

  /** The store of `heap` is that of the rest of it plus `o`. */
  lemma StoreSplit(heap: set<Instance>, o: Instance)
    requires o in heap
    ensures StoreOf(heap) == StoreOf(heap - {o})[o := o.fields]
  {
  }

  class Interpreter {
    var classes: map<string, ClassDef>
    var variables: map<string, Value>
    var current: Instance?
    var output: seq<string>
    /** Every instance created so far. */
    ghost var Heap: set<Instance>

    /** No value held by the interpreter or by an instance refers outside
        `Heap`. */
    ghost predicate Valid()
      reads this, Heap
    {
      && (current != null ==> current in Heap)
      && (forall x :: x in variables ==> Within(variables[x], Heap))
      && (forall o, x :: o in Heap && x in o.fields ==> Within(o.fields[x], Heap))
    }

    /** What every step keeps: the class table is fixed after the
        declaration pass, instances are only added, printed lines are never
        taken back. */
    twostate predicate Evolved()
      reads this
    {
      && old(Heap) <= Heap
      && fresh(Heap - old(Heap))
      && classes == old(classes)
      && old(output) <= output
    }

    /** The interpreter's state as a value of the semantics: the field
        store maps every instance of `Heap` to its fields. */
    ghost function Snap(): State
      reads this, Heap
    {
      State(classes, variables, current, output, StoreOf(Heap))
    }

    /** A valid interpreter holds a state that refers only to `Heap`. */
    lemma SnapWithin()
      requires Valid()
      ensures StateWithin(Snap(), Heap)
    {
    }

    constructor ()
      ensures Valid()
      ensures classes == map[] && variables == map[] && current == null && output == [] && Heap == {}
    {
      classes := map[];
      variables := map[];
      current := null;
      output := [];
      Heap := {};
    }

    /** `visitClassDecl`: register the class, resolving the superclass by
        name among the classes already registered. */
    method DeclareClass(d: ClassDecl) returns (r: Outcome)
      requires Valid()
      modifies this
      ensures Valid()
      ensures variables == old(variables) && current == old(current)
      ensures output == old(output) && Heap == old(Heap)
      ensures r.Ok? <==> Register(old(classes), d).Ok?
      ensures r.Ok? ==> classes == Register(old(classes), d).value
      ensures r.Err? ==> r.error == Register(old(classes), d).error && classes == old(classes)
    {
      var superclass: Option<ClassDef> := None;
      if d.inherits.Some? {
        var b := d.inherits.value;
        if b !in classes {
          return Err(UnknownSuperclass(b));
        }
        superclass := Some(classes[b]);
      }
      var c := BuildClassDef(d.name, superclass, d.elements);
      classes := classes[d.name := c];
      r := Ok(());
    }

    /** `visitProgram`: the class-declaration pass, then the main block.
        `allocs` lists the instances the run creates, in order. */
    method Run(fuel: nat, p: Program) returns (r: Outcome, ghost allocs: seq<Instance>)
      requires Valid()
      modifies this, Heap
      ensures Valid()
      ensures old(output) <= output
      ensures r.Ok? ==> classes.Keys == old(classes).Keys + set i | 0 <= i < |p.classes| :: p.classes[i].name
      ensures SemProgram(fuel, old(Snap()), p, allocs) == Step(r, Snap(), [])
      ensures r.Err? ==> r.error != NoFreshInstance
    {
      allocs := [];
      var i := 0;
      while i < |p.classes|
        invariant 0 <= i <= |p.classes|
        invariant Valid() && Heap == old(Heap) && output == old(output)
        invariant variables == old(variables) && current == old(current) && unchanged(Heap)
        invariant DeclareAll(old(classes), p.classes[..i]) == (Ok(()), classes)
      {
        r := DeclareClass(p.classes[i]);
        assert p.classes[..i + 1][..i] == p.classes[..i];
        if r.Err? {
          DeclareAllStops(old(classes), p.classes, i + 1);
          assert Snap() == old(Snap()).(classes := classes);
          return;
        }
        i := i + 1;
      }
      assert p.classes[..i] == p.classes;
      DeclareAllKeys(old(classes), p.classes);
      assert Snap() == old(Snap()).(classes := classes);
      r, allocs := ExecBlock(fuel, p.main);
    }

    /** `visitMemberAccess`: `self.f` reads the current instance, which must
        exist; `x.f` reads the object in variable `x`. */
    function MemberValue(base: string, field: string): (r: Result<Value, Fault>)
      requires Valid()
      reads this, Heap
      ensures r == MemberIn(Snap(), base, field)
      ensures r.Ok? ==> Within(r.value, Heap)
    {
      if base == "self" then
        if current == null then Err(SelfOutsideMethod) else current.GetAttr(field)
      else
        match LookupObject(variables, base)
        case Err(e) => Err(e)
        case Ok(obj) => obj.GetAttr(field)
    }

    /** `visitBlock`: the statements in order; the first fault ends it. */
    method ExecBlock(fuel: nat, stmts: seq<Stmt>) returns (r: Outcome, ghost allocs: seq<Instance>)
      requires Valid()
      modifies this, Heap
      decreases fuel, stmts, 0
      ensures Valid() && Evolved()
      ensures SemBlock(fuel, old(Snap()), stmts, allocs) == Step(r, Snap(), [])
      ensures r.Err? ==> r.error != NoFreshInstance
    {
      r := Ok(());
      allocs := [];
      var i := 0;
      while i < |stmts|
        invariant 0 <= i <= |stmts|
        invariant Valid() && Evolved()
        invariant r.Ok? && SemBlock(fuel, old(Snap()), stmts[..i], allocs) == Step(r, Snap(), [])
      {
        ghost var before, rb := Snap(), r;
        ghost var a;
        r, a := ExecStmt(fuel, stmts[i]);
        BlockNext(fuel, old(Snap()), stmts, i, allocs, rb, before, a);
        allocs := allocs + a;
        if r.Err? {
          BlockStops(fuel, old(Snap()), stmts, i + 1, allocs);
          return;
        }
        i := i + 1;
      }
      assert stmts[..i] == stmts;
    }

    /** One statement. `return`, `break` and `continue` are accepted and do
        nothing: the block they stand in goes on to its end. An expression
        statement and a super call evaluate and drop their values. */
    method ExecStmt(fuel: nat, s: Stmt) returns (r: Outcome, ghost allocs: seq<Instance>)
      requires Valid()
      modifies this, Heap
      decreases fuel, s, 2
      ensures Valid() && Evolved()
      ensures s.Return? ==> r == Ok(()) && unchanged(this) && unchanged(Heap)
      ensures SemStmt(fuel, old(Snap()), s, allocs) == Step(r, Snap(), [])
      ensures r.Err? ==> r.error != NoFreshInstance
    {
      match s
      case Create(_, _, _) =>
        ghost var argValues;
        r, argValues, allocs := ExecCreate(fuel, s);
      case Assign(_, _) =>
        ghost var stored;
        r, stored, allocs := ExecAssign(fuel, s);
      case Print(_) =>
        ghost var printed;
        r, printed, allocs := ExecPrint(fuel, s);
      case If(_, _, _) =>
        ghost var cond, taken;
        r, cond, taken, allocs := ExecIf(fuel, s);
      case Loop(_, _) =>
        ghost var conds;
        r, conds, allocs := ExecLoop(fuel, s);
      case Return(_) =>
        r, allocs := Ok(()), [];
      case ExprStmt(e) =>
        var v;
        v, allocs := EvalValue(fuel, e);
        r := if v.Err? then Err(v.error) else Ok(());
      case Break =>
        r, allocs := Ok(()), [];
      case Continue =>
        r, allocs := Ok(()), [];
      case SuperCall(args) =>
        var vals;
        vals, allocs := EvalArgs(fuel, args);
        r := if vals.Err? then Err(vals.error) else Ok(());
    }

    /** `visitCreateStatement`: a fresh instance of a registered class, its
        constructor arguments bound root attributes first, stored in the
        variable (created or overwritten). */
    method ExecCreate(fuel: nat, s: Stmt) returns (r: Outcome, ghost argValues: seq<Value>, ghost allocs: seq<Instance>)
      requires s.Create? && Valid()
      modifies this, Heap
      decreases fuel, s, 0
      ensures Valid() && Evolved()
      ensures s.className !in old(classes) ==>
        r == Err(UnknownClass(s.className)) && unchanged(this) && unchanged(Heap)
      ensures r.Ok? ==>
        && s.varName in variables && variables[s.varName].VObj?
        && var inst := variables[s.varName].obj;
        && fresh(inst) && inst.classDef == classes[s.className]
        && |argValues| == |s.args|
        && inst.fields == Bind(map[], CollectAttributes(inst.classDef), argValues)
      ensures SemCreate(fuel, old(Snap()), s, allocs) == Step(r, Snap(), [])
      ensures r.Err? ==> r.error != NoFreshInstance
    {
      argValues, allocs := [], [];
      if s.className !in classes {
        r := Err(UnknownClass(s.className));
      } else {
        var c := classes[s.className];
        var vals;
        vals, allocs := EvalArgs(fuel, s.args);
        if vals.Err? {
          r := Err(vals.error);
        } else {
          ghost var mid := Snap();
          argValues := vals.value;
          var inst := NewInstance(c, vals.value);
          variables := variables[s.varName := VObj(inst)];
          r := Ok(());
          assert Snap() == mid.(variables := mid.variables[s.varName := VObj(inst)], store := mid.store[inst := inst.fields]);
          CreateNext(fuel, old(Snap()), s, allocs, mid, vals.value, inst);
          allocs := allocs + [inst];
        }
      }
    }

    /** `Instance(classDef)` followed by `set_constructor_attributes`: a new
        instance of `c`, known from now on, with the arguments bound. */
    method NewInstance(c: ClassDef, args: seq<Value>) returns (inst: Instance)
      requires Valid() && forall k :: 0 <= k < |args| ==> Within(args[k], Heap)
      modifies this
      ensures Valid()
      ensures fresh(inst) && inst.classDef == c
      ensures inst.fields == Bind(map[], CollectAttributes(c), args)
      ensures Heap == old(Heap) + {inst}
      ensures classes == old(classes) && variables == old(variables)
      ensures current == old(current) && output == old(output)
      ensures StoreOf(Heap) == old(StoreOf(Heap))[inst := inst.fields]
    {
      inst := new Instance(c);
      BindConstructorArgs(inst, args);
      BindWithin(map[], CollectAttributes(c), args, Heap);
      StoreAdd(Heap, inst);
      Heap := Heap + {inst};
    }

    /** `visitAssignment`: the value first, then the target. */
    method ExecAssign(fuel: nat, s: Stmt) returns (r: Outcome, ghost stored: Value, ghost allocs: seq<Instance>)
      requires s.Assign? && Valid()
      modifies this, Heap
      decreases fuel, s, 0
      ensures Valid() && Evolved()
      ensures r.Ok? && s.target.VarTarget? ==>
        s.target.name in variables && variables[s.target.name] == stored
      ensures r.Ok? && s.target.FieldTarget? && s.target.base == "self" ==>
        current != null && s.target.field in current.fields && current.fields[s.target.field] == stored
      ensures r.Ok? && s.target.FieldTarget? && s.target.base != "self" ==>
        LookupObject(variables, s.target.base).Ok? &&
        s.target.field in LookupObject(variables, s.target.base).value.fields &&
        LookupObject(variables, s.target.base).value.fields[s.target.field] == stored
      ensures s.target.FieldTarget? && s.target.base == "self" && old(current) == null ==> r.Err?
      ensures SemStmt(fuel, old(Snap()), s, allocs) == Step(r, Snap(), [])
      ensures r.Err? ==> r.error != NoFreshInstance
    {
      var v;
      v, allocs := EvalValue(fuel, s.value);
      stored := VNone;
      if v.Err? {
        return Err(v.error), stored, allocs;
      }
      AssignNext(fuel, old(Snap()), s, allocs, Snap(), v.value);
      stored := v.value;
      r := StoreTo(s.target, v.value);
    }

    /** The target half of `visitAssignment`: a plain variable must already
        exist; a field goes through the object's `set_attr`. */
    method StoreTo(target: Target, v: Value) returns (r: Outcome)
      requires Valid() && Within(v, Heap)
      modifies this, Heap
      ensures Valid() && Evolved()
      ensures r.Ok? && target.VarTarget? ==> target.name in variables && variables[target.name] == v
      ensures r.Ok? && target.FieldTarget? && target.base == "self" ==>
        current != null && target.field in current.fields && current.fields[target.field] == v
      ensures r.Ok? && target.FieldTarget? && target.base != "self" ==>
        LookupObject(variables, target.base).Ok? &&
        target.field in LookupObject(variables, target.base).value.fields &&
        LookupObject(variables, target.base).value.fields[target.field] == v
      ensures target.FieldTarget? && target.base == "self" && old(current) == null ==> r.Err?
      ensures (r, Snap()) == AssignTo(old(Snap()), target, v)
    {
      match target
      case VarTarget(name) =>
        if name in variables {
          variables := variables[name := v];
          r := Ok(());
        } else {
          r := Err(UnknownVariable(name));
        }
      case FieldTarget(base, field) =>
        r := StoreField(base, field, v);
    }

    /** A field target: the object `base` denotes, then its `set_attr`. */
    method StoreField(base: string, field: string, v: Value) returns (r: Outcome)
      requires Valid() && Within(v, Heap)
      modifies Heap
      ensures Valid() && unchanged(this)
      ensures r.Ok? && base == "self" ==>
        current != null && field in current.fields && current.fields[field] == v
      ensures r.Ok? && base != "self" ==>
        LookupObject(variables, base).Ok? &&
        field in LookupObject(variables, base).value.fields &&
        LookupObject(variables, base).value.fields[field] == v
      ensures base == "self" && current == null ==> r.Err?
      ensures (r, Snap()) == AssignTo(old(Snap()), FieldTarget(base, field), v)
    {
      var obj: Instance;
      if base == "self" {
        if current == null {
          return Err(SelfOutsideMethod);
        }
        obj := current;
      } else {
        var o := LookupObject(variables, base);
        if o.Err? {
          return Err(o.error);
        }
        obj := o.value;
      }
      ghost var rest: map<Instance, map<string, Value>>, before := StoreOf(Heap - {obj}), obj.fields;
      StoreSplit(Heap, obj);
      assert TargetObject(old(Snap()), base) == Ok(obj) && FieldsOf(old(Snap()), obj) == before;
      r := obj.SetAttr(field, v);
      StoreSplit(Heap, obj);
      assert StoreOf(Heap - {obj}) == rest;
      if r.Ok? {
        assert rest[obj := before][obj := before[field := v]] == rest[obj := obj.fields];
        ghost var u: () := r.value;
        assert u == ();
      }
    }

    /** `visitPrintStatement`: one line, the `str()` of the value. */
    method ExecPrint(fuel: nat, s: Stmt) returns (r: Outcome, ghost printed: Value, ghost allocs: seq<Instance>)
      requires s.Print? && Valid()
      modifies this, Heap
      decreases fuel, s, 0
      ensures Valid() && Evolved()
      ensures r.Ok? ==> |output| > |old(output)| && output[|output| - 1] == Render(printed)
      ensures CallFree(s.value) && r.Ok? ==> output == old(output) + [Render(printed)]
      ensures SemStmt(fuel, old(Snap()), s, allocs) == Step(r, Snap(), [])
      ensures r.Err? ==> r.error != NoFreshInstance
    {
      var v;
      v, allocs := EvalValue(fuel, s.value);
      printed := VNone;
      if v.Err? {
        return Err(v.error), printed, allocs;
      }
      printed := v.value;
      output := output + [Render(v.value)];
      r := Ok(());
    }

    /** `visitIfStatement`: the condition once, then exactly one branch (or
        none when the condition is false and there is no else). `taken` is
        the block that ran. */
    method ExecIf(fuel: nat, s: Stmt) returns (r: Outcome, ghost cond: Value, ghost taken: Option<seq<Stmt>>, ghost allocs: seq<Instance>)
      requires s.If? && Valid()
      modifies this, Heap
      decreases fuel, s, 0
      ensures Valid() && Evolved()
      ensures r.Ok? && Truthy(cond) ==> taken == Some(s.thenBlock)
      ensures r.Ok? && !Truthy(cond) && s.elseClause.Else? ==> taken == Some(s.elseClause.block)
      ensures r.Ok? && !Truthy(cond) && s.elseClause.NoElse? ==> taken == None
      ensures SemIf(fuel, old(Snap()), s, allocs) == Step(r, Snap(), [])
      ensures r.Err? ==> r.error != NoFreshInstance
    {
      cond, taken := VNone, None;
      var c;
      ghost var evaluated;
      c, evaluated, allocs := EvalLogical(fuel, s.cond);
      if c.Err? {
        return Err(c.error), cond, taken, allocs;
      }
      ghost var condAllocs := allocs;
      ghost var mid := Snap();
      ghost var blockAllocs: seq<Instance> := [];
      cond := c.value;
      if Truthy(c.value) {
        taken := Some(s.thenBlock);
        r, blockAllocs := ExecBlock(fuel, s.thenBlock);
      } else if s.elseClause.Else? {
        taken := Some(s.elseClause.block);
        r, blockAllocs := ExecBlock(fuel, s.elseClause.block);
      } else {
        r := Ok(());
      }
      allocs := condAllocs + blockAllocs;
      IfNext(fuel, old(Snap()), s, condAllocs, mid, c.value, blockAllocs);
    }

    /** `visitLoopStatement`: a post-test loop. The body runs, then the
        condition is evaluated; the loop ends at the first true condition.
        `conds` lists the condition values in order. */
    method ExecLoop(fuel: nat, s: Stmt) returns (r: Outcome, ghost conds: seq<Value>, ghost allocs: seq<Instance>)
      requires s.Loop? && Valid()
      modifies this, Heap
      decreases fuel, s, 1
      ensures Valid() && Evolved()
      ensures r.Ok? ==> |conds| >= 1 && Truthy(conds[|conds| - 1])
      ensures forall k :: 0 <= k < |conds| - 1 ==> !Truthy(conds[k])
      ensures SemLoop(fuel, old(Snap()), s, allocs) == Step(r, Snap(), [])
      ensures r.Err? ==> r.error != NoFreshInstance
      ensures conds == LoopConds(fuel, old(Snap()), s, allocs)
    {
      r, allocs := LoopIterations(fuel, s);
      conds := LoopConds(fuel, old(Snap()), s, allocs);
      LoopCondsEnd(fuel, old(Snap()), s, allocs);
    }

    /** The iterations of a loop, each with one unit of fuel less, until a
        fault, a true condition or the end of the fuel. */
    method LoopIterations(fuel: nat, s: Stmt) returns (r: Outcome, ghost allocs: seq<Instance>)
      requires s.Loop? && Valid()
      modifies this, Heap
      decreases fuel, s, 0
      ensures Valid() && Evolved()
      ensures SemLoop(fuel, old(Snap()), s, allocs) == Step(r, Snap(), [])
      ensures r.Err? ==> r.error != NoFreshInstance
    {
      ghost var st0 := Snap();
      allocs := [];
      // the states before each iteration, and the instances each one created
      ghost var sts: seq<State> := [st0];
      ghost var per: seq<seq<Instance>> := [];
      var f: nat := fuel;
      while f > 0
        invariant f <= fuel
        invariant Valid() && Evolved()
        invariant |per| == fuel - f && LoopTraced(fuel, s, sts, per) && allocs == Flatten(per)
        invariant sts[0] == st0 && sts[|per|] == Snap()
        decreases f
      {
        f := f - 1;
        var c;
        ghost var a;
        c, a := ExecIteration(f, s);
        LoopAdvance(fuel, s, sts, per, a, c, Snap());
        allocs := allocs + a;
        if c.Err? || Truthy(c.value) {
          r := if c.Err? then Err(c.error) else Ok(());
          return;
        }
        sts := sts + [Snap()];
        per := per + [a];
      }
      r := Err(OutOfFuel);
      LoopOutOfFuel(fuel, s, sts, per);
    }

    /** One pass of the loop: the body, then the condition, whose value it
        yields; a fault in the body skips the condition. */
    method ExecIteration(fuel: nat, s: Stmt) returns (c: Result<Value, Fault>, ghost allocs: seq<Instance>)
      requires s.Loop? && Valid()
      modifies this, Heap
      decreases fuel, s, 0
      ensures Valid() && Evolved()
      ensures SemIteration(fuel, old(Snap()), s, allocs) == Step(c, Snap(), [])
      ensures c.Err? ==> c.error != NoFreshInstance
    {
      var rb;
      rb, allocs := ExecBlock(fuel, s.body);
      if rb.Err? {
        IterationNext(fuel, old(Snap()), s, allocs, rb, Snap(), []);
        return Err(rb.error), allocs;
      }
      ghost var bodyAllocs, mid := allocs, Snap();
      ghost var evaluated, condAllocs;
      c, evaluated, condAllocs := EvalLogical(fuel, s.cond);
      IterationNext(fuel, old(Snap()), s, bodyAllocs, rb, mid, condAllocs);
      allocs := bodyAllocs + condAllocs;
    }

    /** The argument list of a create statement, left to right. */
    method EvalArgs(fuel: nat, args: seq<ValueExpr>) returns (r: Result<seq<Value>, Fault>, ghost allocs: seq<Instance>)
      requires Valid()
      modifies this, Heap
      decreases fuel, args, 0
      ensures Valid() && Evolved()
      ensures r.Ok? ==> |r.value| == |args| && forall k :: 0 <= k < |r.value| ==> Within(r.value[k], Heap)
      ensures SemArgs(fuel, old(Snap()), args, allocs) == Step(r, Snap(), [])
      ensures r.Err? ==> r.error != NoFreshInstance
    {
      var vals: seq<Value> := [];
      allocs := [];
      var i := 0;
      while i < |args|
        invariant 0 <= i <= |args|
        invariant Valid() && Evolved()
        invariant |vals| == i && forall k :: 0 <= k < |vals| ==> Within(vals[k], Heap)
        invariant SemArgs(fuel, old(Snap()), args[..i], allocs) == Step(Ok(vals), Snap(), [])
      {
        var v;
        ghost var before := Snap();
        ghost var a;
        v, a := EvalValue(fuel, args[i]);
        ArgsNext(fuel, old(Snap()), args, i, allocs, before, vals, a);
        allocs := allocs + a;
        if v.Err? {
          ArgsStop(fuel, old(Snap()), args, i + 1, allocs);
          return Err(v.error), allocs;
        }
        vals := vals + [v.value];
        i := i + 1;
      }
      assert args[..i] == args;
      r := Ok(vals);
    }

    /** `visitValueExpression`. An expression without a method call changes
        nothing and has the value `ValueIn` reads off the state. */
    method EvalValue(fuel: nat, e: ValueExpr) returns (r: Result<Value, Fault>, ghost allocs: seq<Instance>)
      requires Valid()
      modifies this, Heap
      decreases fuel, e, 1
      ensures Valid() && Evolved()
      ensures r.Ok? ==> Within(r.value, Heap)
      ensures SemValue(fuel, old(Snap()), e, allocs) == Step(r, Snap(), [])
      ensures r.Err? ==> r.error != NoFreshInstance
      ensures CallFree(e) ==> Snap() == old(Snap()) && allocs == [] && r == ValueIn(old(Snap()), e)
    {
      allocs := [];
      if IsAtom(e) {
        r := EvalAtom(e);
      } else if e.Call? {
        r, allocs := CallMethod(fuel, e.call);
      } else if e.Binary? {
        r, allocs := EvalBinary(fuel, e);
      } else {
        r, allocs := EvalValue(fuel, e.inner);
      }
      if CallFree(e) {
        ValueCallFree(fuel, old(Snap()), e, allocs);
      }
    }

    /** A literal, a variable or a member read: its value in the current
        state; nothing changes. */
    method EvalAtom(e: ValueExpr) returns (r: Result<Value, Fault>)
      requires IsAtom(e) && Valid()
      ensures r == AtomValue(Snap(), e)
      ensures r.Ok? ==> Within(r.value, Heap)
    {
      match e {
        case IntLit(digits) =>
          var n := ParseDecimal(digits);
          r := if n.Some? then Ok(VInt(n.value)) else Err(HostError("int() of a non-decimal literal"));
        case StrLit(text) =>
          r := Ok(VStr(Strip(text, '"')));
        case CharLit(text) =>
          r := Ok(VStr(Strip(text, '\'')));
        case BoolLit(b) =>
          r := Ok(VBool(b));
        case Var(name) =>
          r := if name in variables then Ok(variables[name]) else Err(UnknownVariable(name));
        case Member(base, field) =>
          r := MemberValue(base, field);
      }
    }

    /** A binary expression: the left operand, then the right one, then the
        operator; a fault in the left operand skips the right one. */
    method EvalBinary(fuel: nat, e: ValueExpr) returns (r: Result<Value, Fault>, ghost allocs: seq<Instance>)
      requires e.Binary? && Valid()
      modifies this, Heap
      decreases fuel, e, 0
      ensures Valid() && Evolved()
      ensures r.Ok? ==> Within(r.value, Heap)
      ensures SemValue(fuel, old(Snap()), e, allocs) == Step(r, Snap(), [])
      ensures r.Err? ==> r.error != NoFreshInstance
    {
      var lv;
      lv, allocs := EvalValue(fuel, e.left);
      if lv.Err? {
        return lv, allocs;
      }
      ghost var leftAllocs, mid := allocs, Snap();
      var rv;
      ghost var rightAllocs;
      rv, rightAllocs := EvalValue(fuel, e.right);
      allocs := leftAllocs + rightAllocs;
      BinaryNext(fuel, old(Snap()), e, leftAllocs, mid, lv.value, rightAllocs);
      r := if rv.Err? then rv else BinaryOp(lv.value, e.op, rv.value);
    }

    /** `visitMethodCall`: dispatch on the object named by the call, run the
        body with that object as the current instance, then restore the
        previous current instance. The arguments are not evaluated and the
        call yields `None`. A fault in the body propagates before the
        restore. */
    method CallMethod(fuel: nat, call: MethodCall) returns (r: Result<Value, Fault>, ghost allocs: seq<Instance>)
      requires Valid()
      modifies this, Heap
      decreases fuel, call, 0
      ensures Valid() && Evolved()
      ensures r.Ok? ==> r.value == VNone && current == old(current)
      ensures LookupObject(old(variables), call.objName).Err? ==>
        r == Err(LookupObject(old(variables), call.objName).error) && unchanged(this) && unchanged(Heap)
      ensures (LookupObject(old(variables), call.objName).Ok? &&
               Dispatch(LookupObject(old(variables), call.objName).value.classDef, call.methodName).None?) ==>
        r == Err(UnknownMethod(call.objName, call.methodName)) && unchanged(this) && unchanged(Heap)
      ensures SemCall(fuel, old(Snap()), call, allocs) == Step(r, Snap(), [])
      ensures r.Err? ==> r.error != NoFreshInstance
    {
      allocs := [];
      var o := LookupObject(variables, call.objName);
      if o.Err? {
        return Err(o.error), allocs;
      }
      var obj := o.value;
      var m := Dispatch(obj.classDef, call.methodName);
      if m.None? {
        return Err(UnknownMethod(call.objName, call.methodName)), allocs;
      }
      if fuel == 0 {
        return Err(OutOfFuel), allocs;
      }
      var saved := current;
      current := obj;
      assert Snap() == old(Snap()).(current := obj);
      var res;
      res, allocs := ExecBlock(fuel - 1, m.value.body);
      if res.Err? {
        return Err(res.error), allocs;
      }
      current := saved;
      r := Ok(VNone);
    }

    /** `visitLogicalExpression`: `result = result or term` from left to
        right. `evaluated` lists the values of the terms that were evaluated:
        all falsy but the last, and the evaluation stops at the first truthy
        one; the result is the last value evaluated. */
    method EvalLogical(fuel: nat, le: LogicalExpr) returns (r: Result<Value, Fault>, ghost evaluated: seq<Value>, ghost allocs: seq<Instance>)
      requires Valid()
      modifies this, Heap
      decreases fuel, le, 2
      ensures Valid() && Evolved()
      ensures r.Ok? ==> Within(r.value, Heap)
      ensures r.Ok? ==> 1 <= |evaluated| <= |le.Terms()| && r.value == evaluated[|evaluated| - 1]
      ensures r.Ok? ==> forall k :: 0 <= k < |evaluated| - 1 ==> !Truthy(evaluated[k])
      ensures r.Ok? && |evaluated| < |le.Terms()| ==> Truthy(r.value)
      ensures SemLogical(fuel, old(Snap()), le, allocs) == Step(r, Snap(), [])
      ensures r.Err? ==> r.error != NoFreshInstance
      ensures evaluated == OrValues(fuel, old(Snap()), le, |le.rest|, allocs)
    {
      ghost var st0 := Snap();
      ghost var ev;
      r, ev, allocs := EvalTerm(fuel, le.first);
      r, allocs := OrChain(fuel, le, r, st0, allocs);
      evaluated := OrValues(fuel, st0, le, |le.rest|, allocs);
      if r.Ok? {
        OrValuesSettle(fuel, st0, le, |le.rest|, allocs);
      }
    }

    /** The loop of `visitLogicalExpression` after the first term: each link
        runs while the value so far is falsy and nothing has failed. */
    method OrChain(fuel: nat, le: LogicalExpr, first: Result<Value, Fault>, ghost st: State, ghost supply: seq<Instance>)
      returns (r: Result<Value, Fault>, ghost allocs: seq<Instance>)
      requires Valid() && (first.Ok? ==> Within(first.value, Heap))
      requires SemOr(fuel, st, le, 0, supply) == Step(first, Snap(), [])
      requires first.Err? ==> first.error != NoFreshInstance
      modifies this, Heap
      decreases fuel, le, 1
      ensures Valid() && Evolved()
      ensures r.Ok? ==> Within(r.value, Heap)
      ensures SemOr(fuel, st, le, |le.rest|, allocs) == Step(r, Snap(), [])
      ensures r.Err? ==> r.error != NoFreshInstance
    {
      r, allocs := first, supply;
      var i := 0;
      while i < |le.rest| && r.Ok?
        invariant 0 <= i <= |le.rest|
        invariant Valid() && Evolved() && (r.Ok? ==> Within(r.value, Heap))
        invariant SemOr(fuel, st, le, i, allocs) == Step(r, Snap(), [])
        invariant r.Err? ==> r.error != NoFreshInstance
      {
        ghost var a;
        r, a := OrStep(fuel, le, i, r.value, st, allocs);
        allocs := allocs + a;
        i := i + 1;
      }
      OrFinish(fuel, st, le, i, allocs);
    }

    /** One link of the `or` chain: the next term runs only when the value
        so far is falsy. */
    method OrStep(fuel: nat, le: LogicalExpr, i: nat, result: Value, ghost st: State, ghost supply: seq<Instance>)
      returns (r: Result<Value, Fault>, ghost extra: seq<Instance>)
      requires i < |le.rest| && Valid() && Within(result, Heap)
      requires SemOr(fuel, st, le, i, supply) == Step(Ok(result), Snap(), [])
      modifies this, Heap
      decreases fuel, le, 0
      ensures Valid() && Evolved()
      ensures r.Ok? ==> Within(r.value, Heap)
      ensures SemOr(fuel, st, le, i + 1, supply + extra) == Step(r, Snap(), [])
      ensures r.Err? ==> r.error != NoFreshInstance
    {
      ghost var mid := Snap();
      if !Truthy(result) {
        ghost var ev;
        r, ev, extra := EvalTerm(fuel, le.rest[i]);
      } else {
        r, extra := Ok(result), [];
      }
      OrNext(fuel, st, le, i, supply, mid, result, extra);
    }

    /** `visitLogicalTerm`: `result = result and factor` from left to right;
        the evaluation stops at the first falsy factor. */
    method EvalTerm(fuel: nat, t: LogicalTerm) returns (r: Result<Value, Fault>, ghost evaluated: seq<Value>, ghost allocs: seq<Instance>)
      requires Valid()
      modifies this, Heap
      decreases fuel, t, 2
      ensures Valid() && Evolved()
      ensures r.Ok? ==> Within(r.value, Heap)
      ensures r.Ok? ==> 1 <= |evaluated| <= |t.Factors()| && r.value == evaluated[|evaluated| - 1]
      ensures r.Ok? ==> forall k :: 0 <= k < |evaluated| - 1 ==> Truthy(evaluated[k])
      ensures r.Ok? && |evaluated| < |t.Factors()| ==> !Truthy(r.value)
      ensures SemTerm(fuel, old(Snap()), t, allocs) == Step(r, Snap(), [])
      ensures r.Err? ==> r.error != NoFreshInstance
      ensures evaluated == AndValues(fuel, old(Snap()), t, |t.rest|, allocs)
    {
      ghost var st0 := Snap();
      r, allocs := EvalFactor(fuel, t.first);
      r, allocs := AndChain(fuel, t, r, st0, allocs);
      evaluated := AndValues(fuel, st0, t, |t.rest|, allocs);
      if r.Ok? {
        AndValuesSettle(fuel, st0, t, |t.rest|, allocs);
      }
    }

    /** The loop of `visitLogicalTerm` after the first factor: each link
        runs while the value so far is truthy and nothing has failed. */
    method AndChain(fuel: nat, t: LogicalTerm, first: Result<Value, Fault>, ghost st: State, ghost supply: seq<Instance>)
      returns (r: Result<Value, Fault>, ghost allocs: seq<Instance>)
      requires Valid() && (first.Ok? ==> Within(first.value, Heap))
      requires SemAnd(fuel, st, t, 0, supply) == Step(first, Snap(), [])
      requires first.Err? ==> first.error != NoFreshInstance
      modifies this, Heap
      decreases fuel, t, 1
      ensures Valid() && Evolved()
      ensures r.Ok? ==> Within(r.value, Heap)
      ensures SemAnd(fuel, st, t, |t.rest|, allocs) == Step(r, Snap(), [])
      ensures r.Err? ==> r.error != NoFreshInstance
    {
      r, allocs := first, supply;
      var i := 0;
      while i < |t.rest| && r.Ok?
        invariant 0 <= i <= |t.rest|
        invariant Valid() && Evolved() && (r.Ok? ==> Within(r.value, Heap))
        invariant SemAnd(fuel, st, t, i, allocs) == Step(r, Snap(), [])
        invariant r.Err? ==> r.error != NoFreshInstance
      {
        ghost var a;
        r, a := AndStep(fuel, t, i, r.value, st, allocs);
        allocs := allocs + a;
        i := i + 1;
      }
      AndFinish(fuel, st, t, i, allocs);
    }

    /** One link of the `and` chain: the next factor runs only when the
        value so far is truthy. */
    method AndStep(fuel: nat, t: LogicalTerm, i: nat, result: Value, ghost st: State, ghost supply: seq<Instance>)
      returns (r: Result<Value, Fault>, ghost extra: seq<Instance>)
      requires i < |t.rest| && Valid() && Within(result, Heap)
      requires SemAnd(fuel, st, t, i, supply) == Step(Ok(result), Snap(), [])
      modifies this, Heap
      decreases fuel, t, 0
      ensures Valid() && Evolved()
      ensures r.Ok? ==> Within(r.value, Heap)
      ensures SemAnd(fuel, st, t, i + 1, supply + extra) == Step(r, Snap(), [])
      ensures r.Err? ==> r.error != NoFreshInstance
    {
      ghost var mid := Snap();
      if Truthy(result) {
        r, extra := EvalFactor(fuel, t.rest[i]);
      } else {
        r, extra := Ok(result), [];
      }
      AndNext(fuel, st, t, i, supply, mid, result, extra);
    }

    /** `visitLogicalFactor`: a comparison, or the value of a single value
        expression. A parenthesised logical expression has no value
        expression child, and the Python code visits `None` there. */
    method EvalFactor(fuel: nat, f: LogicalFactor) returns (r: Result<Value, Fault>, ghost allocs: seq<Instance>)
      requires Valid()
      modifies this, Heap
      decreases fuel, f, 0
      ensures Valid() && Evolved()
      ensures r.Ok? ==> Within(r.value, Heap)
      ensures f.Nested? ==> r.Err? && unchanged(this) && unchanged(Heap)
      ensures SemFactor(fuel, old(Snap()), f, allocs) == Step(r, Snap(), [])
      ensures r.Err? ==> r.error != NoFreshInstance
    {
      allocs := [];
      match f
      case Comparison(left, op, right) =>
        var lv;
        lv, allocs := EvalValue(fuel, left);
        if lv.Err? {
          return lv, allocs;
        }
        ghost var leftAllocs, mid := allocs, Snap();
        var rv;
        ghost var rightAllocs;
        rv, rightAllocs := EvalValue(fuel, right);
        allocs := leftAllocs + rightAllocs;
        ComparisonNext(fuel, old(Snap()), f, leftAllocs, mid, lv.value, rightAllocs);
        if rv.Err? {
          return rv, allocs;
        }
        r := Compare(lv.value, op, rv.value);
      case Nested(_) =>
        r := Err(HostError("visit(None)"));
      case Single(v) =>
        r, allocs := EvalValue(fuel, v);
    }
  }
}
