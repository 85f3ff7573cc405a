# OOPsy: interpreter and Java transpiler, modelled in Dafny

OOPsy is a small class-based language. Its repository has two backends that
walk the same parse tree. The interpreter (`interpreter.py`) runs the program.
The transpiler (`javaCompiler.py`) emits equivalent Java source text. This
project models both backends and proves properties of them.

The parse tree is modelled as Dafny datatypes (`syntax.dfy`). The rest of the
model is split by layer:

- `classtable.dfy`: class definitions as immutable values with an optional
  superclass value. It covers attribute lookup along the superclass chain,
  the loose write guard, one-level method dispatch, and the root-first
  attribute list used by constructors. It also covers how a class
  declaration is turned into a definition and registered.
- `runtime.dfy`: runtime values and Python truthiness, `str()` rendering,
  and the arithmetic and comparison operators with Python's rules (floor
  `%`, a bool counting as an int, string `*`, and lexicographic string
  order). It also holds instances, a class whose field store `set_attr`
  updates in place.
- `interp.dfy`: the `Interpreter` class. It holds the class table, the flat
  variable environment, the current instance that `self` denotes, and the
  printed lines. Each visitor is a method that updates this state. A ghost
  set of all created instances closes the heap, and every method keeps that
  closure. The post-test loop and method bodies consume fuel, so that a
  non-terminating program ends with `OutOfFuel`.
- `javagen.dfy`: the transpiler. Expression visitors are pure string
  functions. Statement, member and class visitors are methods of a
  `JavaCompiler` class that append to `output` and record constructor
  parameter names. Each method is proved equal to a line-producing function
  of the syntax and the compiler's tables.

Where the code behaves in a way one might not expect, the model follows the
code:

- A method call does not restore the previous current instance when the
  method body raises, because there is no `try`/`finally`. Every fault ends
  the run, so nothing can observe the difference.
- A parenthesised logical factor is not evaluated by the interpreter. Its
  visitor visits a missing child, which is a host error. The model reports
  `HostError`.
- A character literal evaluates to a Python string, so it is modelled as a
  string, not as a separate character value.
- `return`, `break` and `continue` do not leave their block. The interpreter's
  `visitReturnStatement` returns nothing, and the other two fall to the
  default visit, so the enclosing block runs on. An expression statement and a
  `super(...)` statement evaluate their value expressions through the default
  visit and drop the values.
- The transpiler keeps only the first two terms of `||` and the first two
  factors of `&&`. The compiler class emits what the code emits, and the
  corrected renderer is stated beside it. Both are recorded under Findings.

The interpreter is specified by a functional semantics (`semantics.dfy`).
`SemValue`, `SemLogical`, `SemBlock`, `SemStmt`, `SemLoop` and the others map
a fuel bound, a state, a piece of syntax and a supply of fresh instances to a
`Step`: the result, the state after, and the unused supply. The state is the
class table, the variables, the current instance, the output and the field
store of every instance. Each `Interpreter` method is proved to end in exactly
the state and result that its semantic function gives for the state it started
in, where the supply is the sequence of instances the method created. The
properties of the language are then proved as lemmas about the semantic
functions.

## Model

| member | source | states |
|---|---|---|
| ClassTable.DeclaredInChainStep | interpreter.py:11-17 | A name is declared in a class's chain exactly when the class declares it or its superclass's chain does |
| ClassTable.LookupAttr | interpreter.py:11-17 | `get_attr` succeeds exactly when some class of the chain declares the name; otherwise the error is an unknown attribute |
| ClassTable.LookupAtDepth | interpreter.py:11-17 | A declaration at any depth k of the chain is found |
| Runtime.Instance.constructor | interpreter.py:20-23 | A new instance has the given class and no stored fields |
| Runtime.Instance.GetAttr | interpreter.py:25-33 | A stored field is returned unchanged. An unset name declared anywhere in the chain yields None. A name declared nowhere raises an unknown-attribute error |
| Runtime.Instance.SetAttr | interpreter.py:35-39 | Succeeds exactly when the own class declares the name or the class has a superclass. On success only `fields[name]` changes; on failure the fields are untouched |
| Runtime.WriteThenRead | interpreter.py:25-39 | A write succeeds exactly when the guard allows it; after a successful write the read yields the written value whatever the class declares, and after a refused one the read is what it was before |
| ClassTable.DeclaredIsWritable | interpreter.py:35-37 | Every readable declared name passes the write guard |
| ClassTable.LooseWriteGuard | interpreter.py:35-37 | The guard is looser than the declarations: Dog(Animal) accepts a write to "color", which no class declares and which a read refuses |
| ClassTable.RootRefusesUndeclared | interpreter.py:35-39 | A root class refuses a write to a name it does not declare, and a read of it raises |
| ClassTable.BuildClassDef | interpreter.py:61-68 | The element loop yields attribute keys in first-declaration order and the method table, as the two reference functions define them |
| ClassTable.AttrKeysExact | interpreter.py:62-65 | The attribute keys are exactly the declared attribute names, each once |
| ClassTable.MethodTableLastWins | interpreter.py:66-68 | A method name is in the table exactly when declared, and maps to its last declaration |
| ClassTable.RegisterOverwrites | interpreter.py:53-69 | A declaration fails exactly when its superclass is not registered. Otherwise the entry for the name is set or overwritten, bound to the registered superclass, and no other entry changes |
| ClassTable.DeclareAllKeys | interpreter.py:48-50 | A complete declaration pass adds exactly the declared names to the table; a failed one fails on an unknown superclass; no name is ever removed |
| ClassTable.DeclareAllStops | interpreter.py:48-50 | Once a declaration fails, the declarations after it do not change the table or the fault |
| Semantics.SemProgram | interpreter.py:48-51 | The table after a run is the declaration pass's table; a failed pass ends the run with its fault and runs no statement; output only grows |
| Semantics.SemBlock | interpreter.py:74-76 | A block keeps the class table, only appends output, and on success ends with the current instance it began with |
| Semantics.BlockAppend | interpreter.py:74-76 | Running `a + b` runs `a`, stops at its fault, and otherwise runs `b` from the state `a` left |
| Semantics.BlockStops | interpreter.py:74-76 | After the first faulting statement the rest of the block does not run: the block's step is that prefix's step |
| Semantics.SemStmt | interpreter.py:74-136 | Every statement keeps the class table, only appends output, and on success ends with the current instance it began with |
| Semantics.CreateEffect | interpreter.py:78-90 | An unknown class faults and changes nothing. Otherwise the statement succeeds exactly when the arguments do; the variable then names a new instance of the class, unknown before, whose fields are the arguments bound by the constructor rule; every other variable, every other instance's fields, the current instance and the output are as the arguments left them |
| Semantics.CreateThenRead | interpreter.py:78-90 | After a successful create, reading attribute k of the new object yields argument k, unless a later argument rebinds the same name |
| Semantics.AssignTo | interpreter.py:92-114 | An assignment changes neither the class table, the current instance nor the output, and a failed one changes nothing |
| Semantics.AssignSucceeds | interpreter.py:92-114 | A variable assignment succeeds exactly when the variable exists; a field assignment exactly when the object resolves (`self` needs a current instance) and its class's guard allows the field |
| Semantics.AssignThenRead | interpreter.py:92-114 | After a successful assignment the variable or field reads back as the assigned value, and every other variable and every other field of every instance is unchanged |
| Semantics.PrintCallFree | interpreter.py:116-118 | Printing a call-free value appends exactly its `str()` line and changes nothing else; a fault in the value prints nothing |
| Semantics.IfCallFree | interpreter.py:120-125 | With a call-free condition: a fault ends the statement; a truthy one runs the then block, a falsy one the else block when there is one and nothing otherwise, all from the unchanged state |
| Semantics.SemLoop | interpreter.py:127-131 | A loop keeps the class table, only appends output, and on success ends with the current instance it began with |
| Semantics.LoopCondsEnd | interpreter.py:127-131 | Every condition value but the last is falsy, and a loop that succeeds evaluated at least one condition, the last of them truthy |
| Semantics.LoopTrace | interpreter.py:127-131 | After a run of falsy iterations the loop continues as the same loop started from the last state with the remaining fuel |
| Semantics.LoopTraceExtend | interpreter.py:127-131 | One more falsy iteration extends the recorded trace of states and instance supplies |
| Semantics.LoopExit | interpreter.py:127-131 | An iteration that faults ends the loop with that fault, and one whose condition is truthy ends it successfully, in the state the iteration left |
| Semantics.LoopAdvance | interpreter.py:127-131 | The iteration after the traced ones either ends the loop (a fault or a truthy condition) in the state it leaves, or, with a falsy condition, extends the trace |
| Semantics.LoopOutOfFuel | interpreter.py:127-131 | A loop whose every allowed iteration had a falsy condition ends with `OutOfFuel` |
| Semantics.SemCall | interpreter.py:138-152 | A call keeps the class table, only appends output, and on success ends with the current instance it began with |
| Semantics.AtomValue | interpreter.py:169-189 | An integer literal succeeds exactly when its text is a decimal digit run and is that number; a string or character literal is its text with the surrounding `"` or `'` stripped, no longer than the text; a bool literal is that bool; a variable reference succeeds exactly when the variable exists and yields its value; a member read is `MemberIn`'s read of the field |
| Semantics.ValueCallFree | interpreter.py:168-196 | An expression without a method call changes nothing, uses no new instance, and its value is the reference value `ValueIn` |
| Semantics.ValueInWithin | interpreter.py:168-196 | A call-free expression's value refers only to instances of the heap that holds the state |
| Semantics.ArgsCount | interpreter.py:86-88 | A successful argument list has one value per argument |
| Semantics.ArgsCallFree | interpreter.py:86-88 | Call-free arguments change nothing; the list succeeds exactly when every argument does, with their values in order, and otherwise fails with the first argument's fault |
| Semantics.ArgResultsAt | interpreter.py:86-88 | The k-th reference result is the reference value of the k-th argument |
| Semantics.GathersStep | interpreter.py:86-88 | Adding one argument result to a gathered list gathers the longer list |
| Semantics.ArgsStop | interpreter.py:86-88 | After the first faulting argument the rest are not evaluated |
| Semantics.SemLogical | interpreter.py:198-202 | An `or` chain keeps the class table, only appends output, and on success ends with the current instance it began with |
| Semantics.OrValuesSettle | interpreter.py:198-202 | Short-circuit `or`: every evaluated term but the last is falsy, fewer terms than there are are evaluated only when the last is truthy, and the result is the last evaluated value |
| Semantics.OrSettles | interpreter.py:198-202 | Once the chain faults or holds a truthy value, no later term is evaluated |
| Semantics.OrFinish | interpreter.py:198-202 | Whether the `or` loop reaches the end or stops at a fault, the chain's step is the one reached, and a successful chain settles as `OrValuesSettle` states |
| Semantics.OrOfFalsy | interpreter.py:198-202 | When a call-free `or` is falsy, every term was evaluated and falsy, and the result is the last term's value |
| Semantics.LogicalCallFree | interpreter.py:198-202 | A call-free logical expression changes nothing and its value is the reference value |
| Semantics.SemTerm | interpreter.py:204-208 | An `and` chain keeps the class table, only appends output, and on success ends with the current instance it began with |
| Semantics.AndValuesSettle | interpreter.py:204-208 | Short-circuit `and`: every evaluated factor but the last is truthy, fewer factors than there are are evaluated only when the last is falsy, and the result is the last evaluated value |
| Semantics.AndSettles | interpreter.py:204-208 | Once the chain faults or holds a falsy value, no later factor is evaluated |
| Semantics.AndFinish | interpreter.py:204-208 | Whether the `and` loop reaches the end or stops at a fault, the chain's step is the one reached, and a successful chain settles as `AndValuesSettle` states |
| Semantics.AndOfTruthy | interpreter.py:204-208 | When a call-free `and` is truthy, every factor was evaluated and truthy, and the result is the last factor's value |
| Semantics.AndCallFree | interpreter.py:204-208 | A call-free `and` prefix changes nothing and its value is the reference value of that prefix |
| Semantics.SemFactor | interpreter.py:210-217 | A factor keeps the class table, only appends output, and on success ends with the current instance it began with |
| Semantics.FactorCallFree | interpreter.py:210-217 | A call-free factor (a comparison, a single value, or a parenthesised one, which faults) changes nothing and its value is the reference value |
| Semantics.ValueSupplyExtends | interpreter.py:78-90 | A successful evaluation uses a prefix of the instance supply: a longer supply gives the same result and state and leaves the extra instances unused |
| Semantics.BlockSupplyExtends | interpreter.py:74-90 | A successful block uses a prefix of the instance supply in the same way |
| Semantics.ValueMoreFuel | interpreter.py:127-152 | An evaluation that did not run out of fuel gives the same step with any larger fuel |
| Semantics.BlockMoreFuel | interpreter.py:127-152 | A block that did not run out of fuel gives the same step with any larger fuel |
| Semantics.LoopMoreFuel | interpreter.py:127-131 | A loop that did not run out of fuel gives the same step with any larger fuel |
| Semantics.BindIgnoresExtra | interpreter.py:258-259 | Arguments beyond the attribute list do not affect the fields |
| Semantics.BindKeys | interpreter.py:258-260 | The bound names are exactly the first min(#args, #names) collected names |
| Semantics.BindAt | interpreter.py:258-260 | Argument i is the value of name i unless a later argument rebinds the same name |
| Interp.BindConstructorArgs | interpreter.py:257-260 | The instance's fields become the arguments bound in order to the collected names |
| Interp.BindWithin | interpreter.py:257-260 | Binding arguments that refer to existing instances stores only references to existing instances |
| Interp.Interpreter.constructor | interpreter.py:42-46 | The interpreter starts with no classes, no variables and no current instance |
| Interp.Interpreter.DeclareClass | interpreter.py:53-69 | The class table becomes exactly the registration result, and the error is the registration error. Variables, current instance and output are unchanged |
| Interp.Interpreter.Run | interpreter.py:48-51 | The run ends in the state and result `SemProgram` gives: the declaration pass, then the main block. The table's keys are the old keys plus every declared class name; it never fails for want of a new instance |
| Interp.Interpreter.ExecBlock | interpreter.py:74-76 | The statements run in order from the first, and the first fault ends the block; the final state and result are `SemBlock`'s; it never fails for want of a new instance |
| Interp.Interpreter.ExecStmt | interpreter.py:74-136 | Each statement ends in the state and result `SemStmt` gives; `return` succeeds and changes nothing; it never fails for want of a new instance |
| Interp.Interpreter.ExecCreate | interpreter.py:78-90 | An unknown class raises and changes nothing. Otherwise the state and result are `SemCreate`'s: on success the variable holds a fresh instance of that class whose fields are the arguments bound by the constructor rule; it never fails for want of a new instance |
| Interp.Interpreter.NewInstance | interpreter.py:84-89 | A fresh instance of the class joins the heap, its fields bound from the arguments; nothing else changes |
| Interp.Interpreter.ExecAssign | interpreter.py:92-114 | The state and result are `SemStmt`'s. On success the variable, `self`'s field or the named object's field holds the assigned value; `self` with no current instance fails; it never fails for want of a new instance |
| Interp.Interpreter.StoreTo | interpreter.py:92-114 | The store gives the result and state `AssignTo` defines, and on success the target holds the value |
| Interp.Interpreter.StoreField | interpreter.py:97-114 | A field store changes only the target instance's fields, as `AssignTo` defines |
| Interp.Interpreter.ExecPrint | interpreter.py:116-118 | The state and result are `SemStmt`'s. On success the last output line is the `str()` of the value; a call-free operand appends exactly that line; it never fails for want of a new instance |
| Interp.Interpreter.ExecIf | interpreter.py:120-125 | The state and result are `SemIf`'s. A truthy condition runs the then block; a falsy one runs the else block when there is one, and nothing otherwise; it never fails for want of a new instance |
| Interp.Interpreter.ExecLoop | interpreter.py:127-131 | The state and result are `SemLoop`'s, and the condition values are the loop's. On success the body ran at least once, every condition value but the last was falsy, and the last was truthy; it never fails for want of a new instance |
| Interp.Interpreter.LoopIterations | interpreter.py:127-131 | The iterations run while fuel lasts, ending in the state and result `SemLoop` gives; it never fails for want of a new instance |
| Interp.Interpreter.ExecIteration | interpreter.py:128-130 | The body, then the condition, ending in the state and value `SemIteration` gives; it never fails for want of a new instance |
| Interp.Interpreter.CallMethod | interpreter.py:138-152 | An unknown object or an undispatchable method raises and changes nothing. The state and result are `SemCall`'s: a successful call returns None and leaves the current instance as it was before; it never fails for want of a new instance |
| Interp.Interpreter.MemberValue | interpreter.py:154-166 | `self.f` with no current instance fails; otherwise the current or named object's `get_attr` result |
| Interp.Interpreter.EvalValue | interpreter.py:168-196 | The state and result are `SemValue`'s; the value refers only to existing instances; a call-free expression changes nothing and equals the reference value; it never fails for want of a new instance |
| Interp.Interpreter.EvalAtom | interpreter.py:169-189 | A literal, variable or member access evaluates to `AtomValue` without changing anything |
| Interp.Interpreter.EvalBinary | interpreter.py:190-194 | The left operand, then the right, then the operator, ending in the state and result `SemValue` gives; it never fails for want of a new instance |
| Interp.Interpreter.EvalArgs | interpreter.py:86-88 | One value per argument, left to right, each referring to existing instances; the state and result are `SemArgs`'s; it never fails for want of a new instance |
| Interp.Interpreter.EvalLogical | interpreter.py:198-202 | The state and result are `SemLogical`'s. Short-circuit `or`: every evaluated term but the last is falsy, evaluation stops at a truthy term, and the result is the last evaluated value; it never fails for want of a new instance |
| Interp.Interpreter.OrStep | interpreter.py:200-201 | One more term of the `or` chain, evaluated only when the value so far is falsy, as `SemOr` defines; it never fails for want of a new instance |
| Interp.Interpreter.OrChain | interpreter.py:200-201 | The loop after the first term: from the first term's outcome, the state and result reach `SemOr` over all terms; it never fails for want of a new instance |
| Interp.Interpreter.EvalTerm | interpreter.py:204-208 | The state and result are `SemTerm`'s. Short-circuit `and`: every evaluated factor but the last is truthy, evaluation stops at a falsy factor, and the result is the last evaluated value; it never fails for want of a new instance |
| Interp.Interpreter.AndStep | interpreter.py:206-207 | One more factor of the `and` chain, evaluated only when the value so far is truthy, as `SemAnd` defines; it never fails for want of a new instance |
| Interp.Interpreter.AndChain | interpreter.py:206-207 | The loop after the first factor: from the first factor's outcome, the state and result reach `SemAnd` over all factors; it never fails for want of a new instance |
| Interp.Interpreter.EvalFactor | interpreter.py:210-217 | The state and result are `SemFactor`'s: a comparison evaluates both sides left to right and compares them, a single value is that value's evaluation, and a parenthesised factor fails without changing anything; it never fails for want of a new instance |
| Runtime.ParseDecimal | interpreter.py:169-170 | An integer literal parses exactly when it is a non-empty run of decimal digits |
| Runtime.ParseRendered | interpreter.py:169-170 | Parsing the decimal rendering of n gives n back |
| Runtime.StripIsSlice | interpreter.py:173-176 | Stripping the quotes removes a prefix and a suffix made only of quotes and leaves a contiguous slice of the literal text |
| Runtime.StripIdempotent | interpreter.py:173-176 | The stripped text has no quote at either end, so stripping again changes nothing |
| Runtime.BinaryOp | interpreter.py:219-232 | `+` with a string side concatenates both `str()` forms; an unknown operator raises. Numeric `+ - * %` succeed except `%` by zero; `%` is Python's floor modulo; division by zero raises |
| Runtime.IntPlusString | interpreter.py:220-222 | `1 + "x"` is `"1x"` |
| Runtime.PyMod | interpreter.py:230-231 | The remainder has the divisor's sign, is smaller than it in size, and completes floor division |
| Runtime.Repeat | interpreter.py:226-227 | `s * n` has length n·len(s), or 0 when n ≤ 0 |
| Runtime.RepeatSplit | interpreter.py:226-227 | `s * (a + b)` is `s * a` followed by `s * b`, and `s * 1` is `s`, so `s * n` is `s` written out n times |
| Runtime.Compare | interpreter.py:234-247 | Unknown operators raise; `==` and `!=` are Python equality and its negation; every result is a bool |
| Runtime.CompareConsistent | interpreter.py:239-246 | `<` and `>` are converse; `<=` holds exactly when `<` or `==` does |
| Runtime.StrLessIrreflexive | interpreter.py:239-240 | String `<` is irreflexive |
| Runtime.StrLessTransitive | interpreter.py:239-240 | String `<` is transitive |
| Runtime.StrLessTotal | interpreter.py:239-240 | Any two strings are equal or ordered one way |
| ClassTable.CollectAttributes | interpreter.py:250-255 | A name is collected exactly when the chain declares it |
| ClassTable.CollectIsRootFirst | interpreter.py:250-255 | The collected list is the chain's attribute lists read from the root down |
| ClassTable.CollectedAreWritable | interpreter.py:257-260 | Every collected name passes the write guard, so constructor binding never raises |
| ClassTable.Dispatch | interpreter.py:144-148 | A method is found exactly when the own class or the immediate superclass declares it, and the own class wins |
| ClassTable.DispatchAgreesNearby | interpreter.py:144-146 | What dispatch finds is the nearest declaration up the chain; for chains of at most two classes it is exact |
| ClassTable.DispatchStopsAtParent | interpreter.py:144-148 | A method declared only on a grandparent is not found |
| JavaGen.JavaType | javaCompiler.py:4-12 | A key of the table maps to its Java name; any other name passes through unchanged |
| JavaGen.JavaTypeIdempotent | javaCompiler.py:45 | Mapping an already mapped type name changes nothing |
| JavaGen.JavaCompiler.constructor | javaCompiler.py:15-20 | Empty output and empty tables |
| JavaGen.JavaCompiler.Compile | javaCompiler.py:22-29 | The output grows by the class lines and then the main lines, and the result is the output joined by newlines |
| JavaGen.SplitJoin | javaCompiler.py:24 | Splitting the compiled text at newlines gives the emitted lines back when no line holds a newline |
| JavaGen.JavaCompiler.EmitClass | javaCompiler.py:31-41 | Appends the header, the element lines and `}`. The class becomes current and its base is recorded |
| JavaGen.ClassHeader | javaCompiler.py:37-38 | `class N {`, or `class N extends B {` exactly when there is an inherits clause |
| JavaGen.JavaCompiler.EmitElements | javaCompiler.py:39-40 | Each element's lines are appended in order, each seeing the tables left by the ones before it |
| JavaGen.JavaCompiler.EmitElement | javaCompiler.py:43-53 | Appends an attribute line with the mapped type, or a method header, body and closing line, or a constructor |
| JavaGen.JavaCompiler.EmitConstructor | javaCompiler.py:55-84 | Appends the constructor lines and records the parameter names for the current class |
| JavaGen.ConstructorParts | javaCompiler.py:60-66 | Typed parameter texts, parameter names in declaration order, and one `this.p = p;` line per parameter in order |
| JavaGen.ParamList | javaCompiler.py:86-92 | The parameter list is the typed parameter texts joined by `, `; a single parameter renders as its mapped type, a space and its name |
| JavaGen.SuperArity | javaCompiler.py:72-75 | The `super` prefix has min(#params, #base params) names. The base count is 0 when the base never recorded a constructor, and all the parameters when a class names itself as its base |
| JavaGen.ConstructorForwardsPrefix | javaCompiler.py:72-83 | For an inheriting class the constructor has one line per parameter not passed on, plus three, and the line after the header is `super(...)` with the first `SuperArity` parameter names |
| JavaGen.ConstructorAssignsRest | javaCompiler.py:78-83 | For an inheriting class, the lines between the `super(...)` line and the closing line are exactly the assignments of the parameters after the first `SuperArity` ones, in order |
| JavaGen.ConstructorAssignsAll | javaCompiler.py:60-84 | A class without a base emits one `this.p = p;` per parameter, in order, between header and closing line |
| JavaGen.JavaCompiler.EmitMain | javaCompiler.py:97-102 | Appends the `Main` class wrapper around the main block's lines |
| JavaGen.JavaCompiler.EmitBlock | javaCompiler.py:104-106 | Appends each statement's lines in order and leaves the tables alone |
| JavaGen.JavaCompiler.EmitIf | javaCompiler.py:161-169 | Appends the condition line (rendered as written, keeping two terms and two factors), the then block and its closing line, then the else block with its own opening and closing lines only when there is one |
| JavaGen.JavaCompiler.EmitStmt | javaCompiler.py:108-240 | Appends exactly the statement's lines, with nested blocks in place, loop and `if` conditions rendered as written, and nothing else changed; an expression statement that renders empty appends nothing |
| JavaGen.StmtLinesIndented | javaCompiler.py:108-240 | A statement emits at least one line exactly when it is not an expression statement that renders empty, and every line it emits, nested ones included, carries the statement indentation |
| JavaGen.BlockLinesIndented | javaCompiler.py:104-106 | Every line of a block is indented, and a block whose statements all emit has at least one line per statement |
| JavaGen.RenderValue | javaCompiler.py:130-152 | Binary and parenthesised expressions render wrapped in parentheses |
| JavaGen.RenderValueBalanced | javaCompiler.py:145-151 | When no token holds a parenthesis, every rendered value expression has balanced parentheses |
| JavaGen.RenderMember | javaCompiler.py:154-159 | `self.f` becomes `this.f`; any other base keeps dot syntax |
| JavaGen.TruncationIgnoresLaterTerms | javaCompiler.py:177-182 | As written, terms after the second never reach the output |
| JavaGen.TruncationIgnoresLaterFactors | javaCompiler.py:184-189 | As written, factors after the second never reach the output |
| JavaGen.ThirdTermDropped | javaCompiler.py:177-182 | `a \|\| b \|\| c` is emitted as `a \|\| b` as written, and as `a \|\| b \|\| c` by the corrected renderer |
| JavaGen.RenderLogicalAppend | javaCompiler.py:177-182 | Corrected: one more term adds exactly ` \|\| ` and that term's rendering |
| JavaGen.RenderTermAppend | javaCompiler.py:184-189 | Corrected: one more factor adds exactly ` && ` and that factor's rendering |
| JavaGen.CorrectedAgreesWhenShort | javaCompiler.py:177-200 | On expressions with at most two parts at every level, the corrected renderer emits what the original emits |

## Left out

- Floats. Float literals and true division `/` are not modelled: `/` by zero raises `ZeroDivision`, and any other numeric `/` ends in `Unmodelled`.
- String `%` formatting ends in `Unmodelled`.
- The memory address in Python's `str()` of an instance is left out. An instance prints as a fixed text.
- `print` to standard output is modelled as appending the line to `output`.
- Non-termination is modelled by fuel. Every loop iteration and method call spends one unit, and a run that runs out ends with `OutOfFuel` instead of running forever.
- Python's `int()` also accepts surrounding whitespace, signs and underscores. The model accepts only digit runs, which is what the integer-literal token holds.
- The ANTLR parse tree and visitor dispatch are replaced by datatypes. The grammar itself is not part of this model.
- Python's own failures, such as an attribute access on a value that is not an instance or a visit of a missing child, are modelled as the `HostError` fault.
- An expression statement whose `anyExpression` is the `print` form is left out of both backends: the statement holds a value expression. The transpiler's `print` statement itself is modelled.
- The transpiler defines `visitArgumentList` twice with the same body; the model has one argument renderer.
- The interpreter ignores a method call's argument list, and so does the model; parameters are never bound.
- The transpiler's `classes_with_parents` field is never read or written after construction, so it is left out.
- The constructor's entry in the parameter table under the key `None` is left out. It arises only when a constructor is visited outside any class, and no lookup can reach it.
- Memory allocation is modelled by a supply of instances. The semantic functions take the new instances a run will use as a sequence, and a create statement takes the next one, which must be of the class and unknown to the state; otherwise the semantics ends with `NoFreshInstance`. The interpreter's methods state their semantics for the sequence of instances they actually created, and each of them ensures that its fault, when it has one, is never `NoFreshInstance`: a create of a registered class whose arguments succeed always succeeds, as in the Python code.
- Semantics.CreateThenRead: stated for a variable other than `self`, because `self.f` reads the current instance, not a variable named `self`.
- Semantics.ValueCallFree, Semantics.LogicalCallFree, Semantics.PrintCallFree, Semantics.IfCallFree: the reference values `ValueIn` and `LogicalIn` cover only expressions without method calls. Expressions with calls are described by `SemValue` and `SemLogical` themselves.

## Findings

| source | as written | input that shows it | evidently intended | confidence | as-written member | corrected member |
|---|---|---|---|---|---|---|
| javaCompiler.py:177-189 | A logical expression renders only its first two terms, and a term only its first two factors | `a \|\| b \|\| c` is emitted as `a \|\| b` | Every term and every factor is rendered, joined by ` \|\| ` and ` && ` | high; not executed | JavaGen.ThirdTermDropped | JavaGen.RenderLogicalAppend |
