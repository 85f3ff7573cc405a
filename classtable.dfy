/** Class definitions of the interpreter and the resolution rules over the
    superclass chain: attribute lookup (`ClassDef.get_attr`), the loose write
    guard of `Instance.set_attr`, one-level method dispatch, and the
    root-first attribute list used for constructor binding.

    A class keeps its superclass as a value, so a later re-declaration of the
    superclass's name does not retarget classes declared before it, exactly as
    the Python object reference does; it also makes every chain finite. */
module ClassTable {
  import opened Base
  import opened Syntax

  /** `attributes` lists the declared names in the order a Python dict keeps
      them (first insertion); `methods` maps a name to its last declaration. */
  datatype ClassDef = ClassDef(
    name: string,
    superclass: Option<ClassDef>,
    attributes: seq<string>,
    methods: map<string, MethodDecl>)

  /** The class itself followed by its ancestors, nearest first. */
  function Chain(c: ClassDef): (r: seq<ClassDef>)
    ensures |r| >= 1 && r[0] == c
    ensures c.superclass.Some? ==> r[1..] == Chain(c.superclass.value)
    ensures c.superclass.None? ==> r == [c]
  {
    match c.superclass
    case None => [c]
    case Some(p) => [c] + Chain(p)
  }

  /** Reference definition: `name` is declared by some class of the chain. */
  ghost predicate DeclaredInChain(c: ClassDef, name: string)
  {
    exists k :: 0 <= k < |Chain(c)| && name in Chain(c)[k].attributes
  }

  lemma DeclaredInChainStep(c: ClassDef, name: string)
    ensures DeclaredInChain(c, name) <==>
      name in c.attributes || (c.superclass.Some? && DeclaredInChain(c.superclass.value, name))
  {
    var ch := Chain(c);
    if c.superclass.Some? {
      var p := c.superclass.value;
      if DeclaredInChain(c, name) && name !in c.attributes {
        var k :| 0 <= k < |ch| && name in ch[k].attributes;
        assert k > 0 && ch[k] == Chain(p)[k - 1];
      }
      if DeclaredInChain(p, name) {
        var k :| 0 <= k < |Chain(p)| && name in Chain(p)[k].attributes;
        assert ch[k + 1] == Chain(p)[k];
      }
    }
    if name in c.attributes {
      assert name in ch[0].attributes;
    }
  }

  lemma DeclaredInChainSteps(c: ClassDef)
    ensures forall x :: DeclaredInChain(c, x) <==>
      x in c.attributes || (c.superclass.Some? && DeclaredInChain(c.superclass.value, x))
  {
    forall x {
      DeclaredInChainStep(c, x);
    }
  }

  /** `ClassDef.get_attr`: a declared name yields the unset default (`Ok`),
      a name declared nowhere in the chain raises. */
  function LookupAttr(c: ClassDef, name: string): (r: Outcome)
    ensures r.Ok? <==> DeclaredInChain(c, name)
    ensures r.Err? ==> r.error == UnknownAttribute(name)
  {
    DeclaredInChainStep(c, name);
    if name in c.attributes then Ok(())
    else match c.superclass
      case Some(p) => LookupAttr(p, name)
      case None => Err(UnknownAttribute(name))
  }

  /** A declaration at any depth of the chain is found by the lookup. */
  lemma {:induction false} LookupAtDepth(c: ClassDef, name: string, k: nat)
    requires k < |Chain(c)| && name in Chain(c)[k].attributes
    ensures LookupAttr(c, name) == Ok(())
  {
    if k > 0 {
      LookupAtDepth(c.superclass.value, name, k - 1);
    }
  }

  /** The write guard of `Instance.set_attr`: declared on the own class, or
      the class has any superclass at all. */
  predicate WriteAllowed(c: ClassDef, name: string)
  {
    name in c.attributes || c.superclass.Some?
  }

  /** Every readable declared name is writable ... */
  lemma DeclaredIsWritable(c: ClassDef, name: string)
    requires DeclaredInChain(c, name)
    ensures WriteAllowed(c, name)
  {
    DeclaredInChainStep(c, name);
  }

  /** ... but the guard is looser than the declarations: a subclass accepts a
      write to a name that no class of its chain declares. */
  lemma LooseWriteGuard()
    ensures var animal := ClassDef("Animal", None, ["sound"], map[]);
            var dog := ClassDef("Dog", Some(animal), [], map[]);
            WriteAllowed(dog, "color") && LookupAttr(dog, "color").Err?
  {
    var animal := ClassDef("Animal", None, ["sound"], map[]);
    var dog := ClassDef("Dog", Some(animal), [], map[]);
    DeclaredInChainStep(dog, "color");
    DeclaredInChainStep(animal, "color");
  }

  /** A root class without the name refuses the write. */
  lemma RootRefusesUndeclared(c: ClassDef, name: string)
    requires c.superclass.None? && name !in c.attributes
    ensures !WriteAllowed(c, name) && LookupAttr(c, name) == Err(UnknownAttribute(name))
  {
  }

  /** Method dispatch of `visitMethodCall`: the own class, then exactly one
      superclass level. */
  function Dispatch(c: ClassDef, m: string): (r: Option<MethodDecl>)
    ensures r.Some? <==>
      m in c.methods || (c.superclass.Some? && m in c.superclass.value.methods)
    ensures m in c.methods ==> r == Some(c.methods[m])
  {
    if m in c.methods then Some(c.methods[m])
    else if c.superclass.Some? && m in c.superclass.value.methods then
      Some(c.superclass.value.methods[m])
    else None
  }

  /** Reference definition: the nearest declaration anywhere up the chain. */
  function FindMethod(c: ClassDef, m: string): Option<MethodDecl>
  {
    if m in c.methods then Some(c.methods[m])
    else match c.superclass
      case Some(p) => FindMethod(p, m)
      case None => None
  }

  /** Whatever dispatch finds is what a full-chain search finds, and the two
      agree on every class whose chain has at most two classes. */
  lemma DispatchAgreesNearby(c: ClassDef, m: string)
    ensures Dispatch(c, m).Some? ==> Dispatch(c, m) == FindMethod(c, m)
    ensures |Chain(c)| <= 2 ==> Dispatch(c, m) == FindMethod(c, m)
  {
    if c.superclass.Some? {
      var p := c.superclass.value;
      if |Chain(c)| <= 2 {
        assert |Chain(p)| == 1;
        assert p.superclass.None?;
      }
    }
  }

  /** Dispatch stops one level up: a method declared only on a grandparent
      is not found although the full chain has it. */
  lemma DispatchStopsAtParent()
    ensures var run := MethodDecl("run", [], []);
            var a := ClassDef("A", None, [], map["run" := run]);
            var b := ClassDef("B", Some(a), [], map[]);
            var c := ClassDef("C", Some(b), [], map[]);
            Dispatch(c, "run") == None && FindMethod(c, "run") == Some(run)
  {
  }

  /** `collect_attributes`: ancestors' names first, each class in declaration
      order; a name may occur twice when a subclass re-declares it. */
  function CollectAttributes(c: ClassDef): (r: seq<string>)
    ensures forall x :: x in r <==> DeclaredInChain(c, x)
  {
    DeclaredInChainSteps(c);
    match c.superclass
    case None => c.attributes
    case Some(p) => CollectAttributes(p) + c.attributes
  }

  function Reversed(s: seq<ClassDef>): (r: seq<ClassDef>)
    ensures |r| == |s|
  {
    if s == [] then [] else Reversed(s[1..]) + [s[0]]
  }

  /** The attribute lists of a sequence of classes, concatenated in order. */
  function ConcatAttributes(s: seq<ClassDef>): seq<string>
  {
    if s == [] then [] else s[0].attributes + ConcatAttributes(s[1..])
  }

  lemma {:induction false} ConcatAttributesAppend(s: seq<ClassDef>, c: ClassDef)
    ensures ConcatAttributes(s + [c]) == ConcatAttributes(s) + c.attributes
  {
    if s != [] {
      assert (s + [c])[1..] == s[1..] + [c];
      ConcatAttributesAppend(s[1..], c);
    }
  }

  /** The collected list is the chain read from the root down. */
  lemma {:induction false} CollectIsRootFirst(c: ClassDef)
    ensures CollectAttributes(c) == ConcatAttributes(Reversed(Chain(c)))
  {
    match c.superclass
    case None =>
      assert Reversed([c]) == [c];
    case Some(p) =>
      CollectIsRootFirst(p);
      assert Chain(c) == [c] + Chain(p);
      assert Reversed(Chain(c)) == Reversed(Chain(p)) + [c];
      ConcatAttributesAppend(Reversed(Chain(p)), c);
  }

  /** Every collected name passes the write guard, so constructor binding
      never raises. */
  lemma CollectedAreWritable(c: ClassDef, x: string)
    requires x in CollectAttributes(c)
    ensures WriteAllowed(c, x)
  {
    DeclaredIsWritable(c, x);
  }

  // ---- Building a ClassDef from its declaration (visitClassDecl) ----

  /** Attribute names of the elements in first-declaration order, without
      repeats, as `class_def.attributes[attr_name] = None` leaves the dict. */
  function AttrKeys(es: seq<ClassElement>): seq<string>
  {
    if es == [] then []
    else
      var prev := AttrKeys(es[..|es| - 1]);
      match es[|es| - 1]
      case AttributeDecl(_, x) => if x in prev then prev else prev + [x]
      case _ => prev
  }

  /** Methods by name; a later declaration replaces an earlier one. */
  function MethodTable(es: seq<ClassElement>): map<string, MethodDecl>
  {
    if es == [] then map[]
    else
      var prev := MethodTable(es[..|es| - 1]);
      match es[|es| - 1]
      case MethodElement(d) => prev[d.name := d]
      case _ => prev
  }

  predicate DeclaresAttr(e: ClassElement, x: string)
  {
    e.AttributeDecl? && e.attrName == x
  }

  predicate DeclaresMethod(e: ClassElement, m: string)
  {
    e.MethodElement? && e.decl.name == m
  }

  /** The attribute keys are exactly the declared names, each once. */
  lemma {:induction false} AttrKeysExact(es: seq<ClassElement>)
    ensures forall x :: x in AttrKeys(es) <==> exists i :: 0 <= i < |es| && DeclaresAttr(es[i], x)
    ensures forall i, j :: 0 <= i < j < |AttrKeys(es)| ==> AttrKeys(es)[i] != AttrKeys(es)[j]
  {
    if es != [] {
      var init := es[..|es| - 1];
      AttrKeysExact(init);
      forall x ensures x in AttrKeys(es) <==> exists i :: 0 <= i < |es| && DeclaresAttr(es[i], x) {
        if x in AttrKeys(es) && x !in AttrKeys(init) {
          assert DeclaresAttr(es[|es| - 1], x);
        }
        if x in AttrKeys(init) {
          var i :| 0 <= i < |init| && DeclaresAttr(init[i], x);
          assert es[i] == init[i];
        }
        if exists i :: 0 <= i < |es| && DeclaresAttr(es[i], x) {
          var i :| 0 <= i < |es| && DeclaresAttr(es[i], x);
          if i < |init| {
            assert DeclaresAttr(init[i], x);
          }
        }
      }
    }
  }

  /** A method name is in the table exactly when some element declares it,
      and it maps to the last such declaration. */
  lemma {:induction false} MethodTableLastWins(es: seq<ClassElement>, m: string)
    ensures m in MethodTable(es) <==> exists i :: 0 <= i < |es| && DeclaresMethod(es[i], m)
    ensures forall j :: (0 <= j < |es| && DeclaresMethod(es[j], m) &&
      (forall k :: j < k < |es| ==> !DeclaresMethod(es[k], m))) ==> MethodTable(es)[m] == es[j].decl
  {
    if es != [] {
      var init := es[..|es| - 1];
      var last := es[|es| - 1];
      MethodTableLastWins(init, m);
      if m in MethodTable(init) {
        var i :| 0 <= i < |init| && DeclaresMethod(init[i], m);
        assert es[i] == init[i];
      }
      if exists i :: 0 <= i < |es| && DeclaresMethod(es[i], m) {
        var i :| 0 <= i < |es| && DeclaresMethod(es[i], m);
        if i < |init| {
          assert DeclaresMethod(init[i], m);
        }
      }
      forall j | 0 <= j < |es| && DeclaresMethod(es[j], m) &&
        (forall k :: j < k < |es| ==> !DeclaresMethod(es[k], m))
        ensures MethodTable(es)[m] == es[j].decl
      {
        if j < |es| - 1 {
          assert !DeclaresMethod(last, m);
          assert DeclaresMethod(init[j], m);
          assert forall k :: j < k < |init| ==> init[k] == es[k];
        }
      }
    }
  }

  /** The loop of `visitClassDecl` over the class elements. */
  method BuildClassDef(name: string, superclass: Option<ClassDef>, es: seq<ClassElement>)
    returns (c: ClassDef)
    ensures c.name == name && c.superclass == superclass
    ensures c.attributes == AttrKeys(es) && c.methods == MethodTable(es)
  {
    var attributes: seq<string> := [];
    var methods: map<string, MethodDecl> := map[];
    var i := 0;
    while i < |es|
      invariant 0 <= i <= |es|
      invariant attributes == AttrKeys(es[..i])
      invariant methods == MethodTable(es[..i])
    {
      assert es[..i + 1][..i] == es[..i];
      var e := es[i];
      if e.AttributeDecl? && e.attrName !in attributes {
        attributes := attributes + [e.attrName];
      } else if e.MethodElement? {
        methods := methods[e.decl.name := e.decl];
      }
      i := i + 1;
    }
    assert es[..|es|] == es;
    c := ClassDef(name, superclass, attributes, methods);
  }

  /** The effect of one class declaration on the table: the superclass must
      already be registered; the entry for the name is (re)placed. */
  function Register(classes: map<string, ClassDef>, d: ClassDecl): (r: Result<map<string, ClassDef>, Fault>)
  {
    match d.inherits
    case Some(b) =>
      if b !in classes then Err(UnknownSuperclass(b))
      else Ok(classes[d.name := ClassDef(d.name, Some(classes[b]), AttrKeys(d.elements), MethodTable(d.elements))])
    case None =>
      Ok(classes[d.name := ClassDef(d.name, None, AttrKeys(d.elements), MethodTable(d.elements))])
  }

  /** Registration fails exactly for an unregistered superclass; otherwise it
      sets (or overwrites) the one entry and leaves every other entry alone. */
  lemma RegisterOverwrites(classes: map<string, ClassDef>, d: ClassDecl)
    ensures Register(classes, d).Err? <==> d.inherits.Some? && d.inherits.value !in classes
    ensures Register(classes, d).Err? ==> Register(classes, d).error == UnknownSuperclass(d.inherits.value)
    ensures Register(classes, d).Ok? ==>
      var t := Register(classes, d).value;
      && t.Keys == classes.Keys + {d.name}
      && t[d.name].name == d.name
      && (d.inherits.Some? ==> t[d.name].superclass == Some(classes[d.inherits.value]))
      && (d.inherits.None? ==> t[d.name].superclass.None?)
      && (forall k :: k in classes && k != d.name ==> t[k] == classes[k])
  {
  }

  /** The declaration pass of `visitProgram`: register the declarations in
      order. The first unregistered superclass ends the pass with its
      fault and the table as it stood then. */
  function DeclareAll(classes: map<string, ClassDef>, ds: seq<ClassDecl>): (Outcome, map<string, ClassDef>)
    decreases |ds|
  {
    if ds == [] then (Ok(()), classes)
    else
      var prev := DeclareAll(classes, ds[..|ds| - 1]);
      if prev.0.Err? then prev
      else
        match Register(prev.1, ds[|ds| - 1])
        case Err(e) => (Err(e), prev.1)
        case Ok(t) => (Ok(()), t)
  }

  /** A complete declaration pass registers exactly the declared names on top
      of the existing table; a failed one names a missing superclass and
      keeps the names registered before it. */
  lemma {:induction false} DeclareAllKeys(classes: map<string, ClassDef>, ds: seq<ClassDecl>)
    ensures DeclareAll(classes, ds).0.Ok? ==>
      DeclareAll(classes, ds).1.Keys == classes.Keys + set i | 0 <= i < |ds| :: ds[i].name
    ensures DeclareAll(classes, ds).0.Err? ==> DeclareAll(classes, ds).0.error.UnknownSuperclass?
    ensures classes.Keys <= DeclareAll(classes, ds).1.Keys
    decreases |ds|
  {
    if ds != [] {
      var n := |ds| - 1;
      DeclareAllKeys(classes, ds[..n]);
      var prev := DeclareAll(classes, ds[..n]);
      if prev.0.Ok? {
        RegisterOverwrites(prev.1, ds[n]);
        assert (set i | 0 <= i < |ds| :: ds[i].name) == (set i | 0 <= i < n :: ds[..n][i].name) + {ds[n].name};
      }
    }
  }

  /** After a failed declaration the rest of the pass does not run. */
  lemma {:induction false} DeclareAllStops(classes: map<string, ClassDef>, ds: seq<ClassDecl>, k: nat)
    requires k <= |ds|
    requires DeclareAll(classes, ds[..k]).0.Err?
    ensures DeclareAll(classes, ds) == DeclareAll(classes, ds[..k])
    decreases |ds|
  {
    if k < |ds| {
      var n := |ds| - 1;
      assert ds[..n][..k] == ds[..k];
      DeclareAllStops(classes, ds[..n], k);
    } else {
      assert ds[..k] == ds;
    }
  }
}
