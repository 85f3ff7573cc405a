/** The Java transpiler. Expressions are rendered by pure functions (the
    visitors that only return strings); statements, class members and
    classes are emitted by a `JavaCompiler` object that appends lines to its
    output and records constructor parameter names per class. Each emitting
    method is specified by a function from the compiler's tables and the
    syntax to the lines it appends. */
module JavaGen {
  import opened Base
  import opened Syntax
  import Runtime

  /** The indentation of every statement line. */
  const Indent: string := "        "

  /** OOPsy type names and their Java spelling. */
  const TypeMap: map<string, string> := map[
    "int" := "int", "float" := "float", "bool" := "boolean", "char" := "char",
    "string" := "String", "list" := "ArrayList", "dict" := "HashMap"]

  /** A type name through the table; a name that is not a key is kept. */
  function JavaType(t: string): (r: string)
    ensures t in TypeMap ==> r == TypeMap[t]
    ensures t !in TypeMap ==> r == t
  {
    if t in TypeMap then TypeMap[t] else t
  }

  /** Translating a translated name changes nothing: no Java spelling in the
      table is itself an OOPsy key that maps elsewhere. */
  lemma JavaTypeIdempotent(t: string)
    ensures JavaType(JavaType(t)) == JavaType(t)
  {
    if t in TypeMap {
      assert TypeMap[t] in TypeMap.Values;
    }
  }

  // ---- joining and splitting lines ----

  /** `sep.join(parts)` */
  function Join(parts: seq<string>, sep: string): string
  {
    if parts == [] then ""
    else if |parts| == 1 then parts[0]
    else parts[0] + sep + Join(parts[1..], sep)
  }

  lemma {:induction false} JoinAppend(parts: seq<string>, x: string, sep: string)
    ensures Join(parts + [x], sep) == if parts == [] then x else Join(parts, sep) + sep + x
  {
    if |parts| == 1 {
      assert parts + [x] == [parts[0], x];
      assert [parts[0], x][1..] == [x];
    } else if |parts| > 1 {
      assert (parts + [x])[1..] == parts[1..] + [x];
      JoinAppend(parts[1..], x, sep);
    }
  }

  lemma JoinPair(x: string, y: string, sep: string)
    ensures Join([x], sep) == x
    ensures Join([x, y], sep) == x + sep + y
  {
    assert [x, y][1..] == [y];
  }

  lemma AppendAssoc(a: seq<string>, b: seq<string>, c: seq<string>)
    ensures a + b + c == a + (b + c)
  {
  }

  function JoinLines(lines: seq<string>): string
  {
    Join(lines, "\n")
  }

  /** `str.split("\n")`: the pieces between newlines, always at least one. */
  function SplitLines(s: string): (r: seq<string>)
    ensures |r| >= 1
  {
    if s == [] then [""]
    else
      var tail := SplitLines(s[1..]);
      if s[0] == '\n' then [""] + tail
      else [[s[0]] + tail[0]] + tail[1..]
  }

  predicate NoNewline(line: string)
  {
    forall i :: 0 <= i < |line| ==> line[i] != '\n'
  }

  lemma {:induction false} SplitPrefix(a: string, t: string)
    requires NoNewline(a)
    ensures SplitLines(a + t) == [a + SplitLines(t)[0]] + SplitLines(t)[1..]
  {
    var st := SplitLines(t);
    if a == [] {
      assert a + t == t;
      assert a + st[0] == st[0];
      assert [st[0]] + st[1..] == st;
    } else {
      assert (a + t)[0] == a[0] && a[0] != '\n';
      assert (a + t)[1..] == a[1..] + t;
      assert NoNewline(a[1..]) by {
        forall i | 0 <= i < |a[1..]|
          ensures a[1..][i] != '\n'
        {
          assert a[1..][i] == a[i + 1];
        }
      }
      SplitPrefix(a[1..], t);
      var tail := SplitLines(a[1..] + t);
      assert SplitLines(a + t) == [[a[0]] + tail[0]] + tail[1..];
      assert [a[0]] + (a[1..] + st[0]) == a + st[0];
    }
  }

  /** The joined output splits back into the emitted lines when no line
      holds a newline of its own. */
  lemma {:induction false} SplitJoin(lines: seq<string>)
    requires |lines| >= 1
    requires forall i :: 0 <= i < |lines| ==> NoNewline(lines[i])
    ensures SplitLines(JoinLines(lines)) == lines
  {
    if |lines| == 1 {
      SplitPrefix(lines[0], "");
      assert lines[0] + "" == lines[0];
    } else {
      var rest := JoinLines(lines[1..]);
      SplitJoin(lines[1..]);
      assert JoinLines(lines) == lines[0] + ("\n" + rest);
      SplitPrefix(lines[0], "\n" + rest);
      assert ("\n" + rest)[1..] == rest;
      assert SplitLines("\n" + rest) == [""] + lines[1..];
      assert lines[0] + "" == lines[0];
    }
  }

  // ---- value expressions ----

  /** `visitValueExpression`: literals keep their token text, binary
      expressions are fully parenthesised; a character literal is not
      handled and renders as the empty string. */
  function RenderValue(e: ValueExpr): (r: string)
    decreases e
    ensures e.Binary? ==> |r| >= 2 && r[0] == '(' && r[|r| - 1] == ')'
    ensures e.Paren? ==> |r| >= 2 && r[0] == '(' && r[|r| - 1] == ')'
  {
    match e
    case Call(c) => RenderCall(c)
    case Member(base, field) => RenderMember(base, field)
    case Var(name) => name
    case IntLit(digits) => digits
    case StrLit(text) => text
    case CharLit(_) => ""
    case BoolLit(b) => if b then "true" else "false"
    case Binary(left, op, right) => "(" + RenderValue(left) + " " + op + " " + RenderValue(right) + ")"
    case Paren(inner) => "(" + RenderValue(inner) + ")"
  }

  /** The renderings of an argument list, in order. */
  function RenderArgs(args: seq<ValueExpr>): (r: seq<string>)
    decreases args
  {
    seq(|args|, i requires 0 <= i < |args| => RenderValue(args[i]))
  }

  /** `visitMethodCall`: `obj.method(args)`. */
  function RenderCall(c: MethodCall): string
    decreases c
  {
    c.objName + "." + c.methodName + "(" + Join(RenderArgs(c.args), ", ") + ")"
  }

  /** `visitMemberAccess`: `self` is lowered to Java's `this`. */
  function RenderMember(base: string, field: string): (r: string)
    ensures base == "self" ==> r == "this." + field
    ensures base != "self" ==> r == base + "." + field
  {
    (if base == "self" then "this" else base) + "." + field
  }

  // ---- full parenthesisation keeps parentheses balanced ----

  /** Open minus closed parentheses. */
  function Depth(s: string): int
    decreases |s|
  {
    if s == [] then 0
    else Depth(s[..|s| - 1]) + (if s[|s| - 1] == '(' then 1 else if s[|s| - 1] == ')' then -1 else 0)
  }

  /** Every prefix opens at least as many parentheses as it closes, and
      the whole closes them all. */
  predicate Balanced(s: string)
  {
    Depth(s) == 0 && forall k :: 0 <= k <= |s| ==> Depth(s[..k]) >= 0
  }

  predicate ParenFree(s: string)
  {
    forall i :: 0 <= i < |s| ==> s[i] != '(' && s[i] != ')'
  }

  lemma {:induction false} DepthConcat(a: string, b: string)
    ensures Depth(a + b) == Depth(a) + Depth(b)
    decreases |b|
  {
    if b == [] {
      assert a + b == a;
    } else {
      var n := |b| - 1;
      assert (a + b)[..|a + b| - 1] == a + b[..n];
      DepthConcat(a, b[..n]);
    }
  }

  lemma {:induction false} ParenFreeDepth(s: string)
    requires ParenFree(s)
    ensures Depth(s) == 0
    decreases |s|
  {
    if s != [] {
      var front := s[..|s| - 1];
      assert ParenFree(front) by {
        forall i | 0 <= i < |front|
          ensures front[i] != '(' && front[i] != ')'
        {
          assert front[i] == s[i];
        }
      }
      ParenFreeDepth(front);
    }
  }

  lemma ParenFreeBalanced(s: string)
    requires ParenFree(s)
    ensures Balanced(s)
  {
    ParenFreeDepth(s);
    forall k | 0 <= k <= |s|
      ensures Depth(s[..k]) >= 0
    {
      assert ParenFree(s[..k]) by {
        forall i | 0 <= i < k
          ensures s[..k][i] != '(' && s[..k][i] != ')'
        {
          assert s[..k][i] == s[i];
        }
      }
      ParenFreeDepth(s[..k]);
    }
  }

  lemma BalancedConcat(a: string, b: string)
    requires Balanced(a) && Balanced(b)
    ensures Balanced(a + b)
  {
    DepthConcat(a, b);
    forall k | 0 <= k <= |a + b|
      ensures Depth((a + b)[..k]) >= 0
    {
      if k <= |a| {
        assert (a + b)[..k] == a[..k];
      } else {
        assert (a + b)[..k] == a + b[..k - |a|];
        DepthConcat(a, b[..k - |a|]);
      }
    }
  }

  lemma BalancedWrap(x: string)
    requires Balanced(x)
    ensures Balanced("(" + x + ")")
  {
    var w := "(" + x + ")";
    DepthConcat("(", x);
    DepthConcat("(" + x, ")");
    forall k | 0 <= k <= |w|
      ensures Depth(w[..k]) >= 0
    {
      if 1 <= k <= |x| + 1 {
        assert w[..k] == "(" + x[..k - 1];
        DepthConcat("(", x[..k - 1]);
      } else if k == |x| + 2 {
        assert w[..k] == w;
      }
    }
  }

  lemma {:induction false} JoinBalanced(parts: seq<string>, sep: string)
    requires forall i :: 0 <= i < |parts| ==> Balanced(parts[i])
    requires ParenFree(sep)
    ensures Balanced(Join(parts, sep))
    decreases |parts|
  {
    if parts == [] {
      ParenFreeBalanced("");
    } else if |parts| > 1 {
      JoinBalanced(parts[1..], sep);
      ParenFreeBalanced(sep);
      BalancedConcat(parts[0], sep);
      BalancedConcat(parts[0] + sep, Join(parts[1..], sep));
    }
  }

  /** No identifier, literal or operator token holds a parenthesis. */
  predicate AtomsParenFree(e: ValueExpr)
    decreases e
  {
    match e
    case Call(c) =>
      ParenFree(c.objName) && ParenFree(c.methodName) &&
      forall i :: 0 <= i < |c.args| ==> AtomsParenFree(c.args[i])
    case Member(base, field) => ParenFree(base) && ParenFree(field)
    case Var(name) => ParenFree(name)
    case IntLit(digits) => ParenFree(digits)
    case StrLit(text) => ParenFree(text)
    case CharLit(_) => true
    case BoolLit(_) => true
    case Binary(left, op, right) => AtomsParenFree(left) && ParenFree(op) && AtomsParenFree(right)
    case Paren(inner) => AtomsParenFree(inner)
  }

  lemma ParenFreeConcat(a: string, b: string)
    requires ParenFree(a) && ParenFree(b)
    ensures ParenFree(a + b)
  {
    forall i | 0 <= i < |a + b|
      ensures (a + b)[i] != '(' && (a + b)[i] != ')'
    {
      if i < |a| {
        assert (a + b)[i] == a[i];
      } else {
        assert (a + b)[i] == b[i - |a|];
      }
    }
  }

  lemma BinaryBalanced(l: string, op: string, r: string)
    requires Balanced(l) && Balanced(r) && ParenFree(op)
    ensures Balanced("(" + l + " " + op + " " + r + ")")
  {
    ParenFreeConcat(" ", op);
    ParenFreeConcat(" " + op, " ");
    ParenFreeBalanced(" " + op + " ");
    BalancedConcat(l, " " + op + " ");
    BalancedConcat(l + (" " + op + " "), r);
    BalancedWrap(l + (" " + op + " ") + r);
    assert "(" + l + " " + op + " " + r + ")" == "(" + (l + (" " + op + " ") + r) + ")";
  }

  lemma CallBalanced(obj: string, m: string, args: string)
    requires ParenFree(obj) && ParenFree(m) && Balanced(args)
    ensures Balanced(obj + "." + m + "(" + args + ")")
  {
    BalancedWrap(args);
    ParenFreeConcat(obj, ".");
    ParenFreeConcat(obj + ".", m);
    ParenFreeBalanced(obj + "." + m);
    BalancedConcat(obj + "." + m, "(" + args + ")");
    assert obj + "." + m + "(" + args + ")" == (obj + "." + m) + ("(" + args + ")");
  }

  /** The rendering of a value expression has balanced parentheses when
      its tokens have none: every `(` the renderer adds is closed. */
  lemma {:induction false} RenderValueBalanced(e: ValueExpr)
    requires AtomsParenFree(e)
    ensures Balanced(RenderValue(e))
    decreases e
  {
    match e
    case Call(c) =>
      forall i | 0 <= i < |c.args|
        ensures Balanced(RenderArgs(c.args)[i])
      {
        RenderValueBalanced(c.args[i]);
      }
      JoinBalanced(RenderArgs(c.args), ", ");
      CallBalanced(c.objName, c.methodName, Join(RenderArgs(c.args), ", "));
    case Member(base, field) =>
      ParenFreeConcat(if base == "self" then "this" else base, ".");
      ParenFreeConcat((if base == "self" then "this" else base) + ".", field);
      ParenFreeBalanced(RenderValue(e));
    case Var(name) =>
      ParenFreeBalanced(name);
    case IntLit(digits) =>
      ParenFreeBalanced(digits);
    case StrLit(text) =>
      ParenFreeBalanced(text);
    case CharLit(_) =>
      ParenFreeBalanced("");
    case BoolLit(b) =>
      ParenFreeBalanced(RenderValue(e));
    case Binary(left, op, right) =>
      RenderValueBalanced(left);
      RenderValueBalanced(right);
      BinaryBalanced(RenderValue(left), op, RenderValue(right));
    case Paren(inner) =>
      RenderValueBalanced(inner);
      BalancedWrap(RenderValue(inner));
  }

  // ---- logical expressions, as written: only two parts are kept ----

  /** `visitLogicalExpression` as written: the first two terms at most. */
  function TruncatedLogical(le: LogicalExpr): string
    decreases le
  {
    if |le.rest| > 0 then TruncatedTerm(le.first) + " || " + TruncatedTerm(le.rest[0])
    else TruncatedTerm(le.first)
  }

  /** `visitLogicalTerm` as written: the first two factors at most. */
  function TruncatedTerm(t: LogicalTerm): string
    decreases t
  {
    if |t.rest| > 0 then TruncatedFactor(t.first) + " && " + TruncatedFactor(t.rest[0])
    else TruncatedFactor(t.first)
  }

  /** `visitLogicalFactor` as written. A comparison whose operator is not a
      comparison operator falls to the last branch and renders its left
      operand only. */
  function TruncatedFactor(f: LogicalFactor): string
    decreases f
  {
    match f
    case Comparison(l, op, r) =>
      if Runtime.IsComparisonOp(op) then RenderValue(l) + " " + op + " " + RenderValue(r)
      else RenderValue(l)
    case Nested(le) => "(" + TruncatedLogical(le) + ")"
    case Single(v) => RenderValue(v)
  }

  /** Terms after the second never reach the output. */
  lemma TruncationIgnoresLaterTerms(le: LogicalExpr, more: seq<LogicalTerm>)
    requires |le.rest| >= 1
    ensures TruncatedLogical(LogicalExpr(le.first, le.rest + more)) == TruncatedLogical(le)
  {
    assert (le.rest + more)[0] == le.rest[0];
  }

  /** Factors after the second never reach the output. */
  lemma TruncationIgnoresLaterFactors(t: LogicalTerm, more: seq<LogicalFactor>)
    requires |t.rest| >= 1
    ensures TruncatedTerm(LogicalTerm(t.first, t.rest + more)) == TruncatedTerm(t)
  {
    assert (t.rest + more)[0] == t.rest[0];
  }

  function SingleVar(name: string): LogicalTerm
  {
    LogicalTerm(Single(Var(name)), [])
  }

  /** `a || b || c` is emitted as `a || b`: the third alternative is lost,
      while the corrected renderer keeps it. */
  lemma ThirdTermDropped()
    ensures TruncatedLogical(LogicalExpr(SingleVar("a"), [SingleVar("b"), SingleVar("c")])) == "a || b"
    ensures RenderLogical(LogicalExpr(SingleVar("a"), [SingleVar("b"), SingleVar("c")])) == "a || b || c"
  {
    var le := LogicalExpr(SingleVar("a"), [SingleVar("b"), SingleVar("c")]);
    assert RenderTerm(SingleVar("a")) == "a";
    assert RenderTerm(SingleVar("b")) == "b";
    assert RenderTerm(SingleVar("c")) == "c";
    assert TermTexts(le.rest) == ["b", "c"];
    assert [RenderTerm(le.first)] + TermTexts(le.rest) == ["a", "b", "c"];
    assert Join(["c"], " || ") == "c";
    assert Join(["b", "c"], " || ") == "b || c";
    assert ["a", "b", "c"][1..] == ["b", "c"];
    assert ["b", "c"][1..] == ["c"];
  }

  // ---- logical expressions, corrected: every part is kept ----

  function TermTexts(ts: seq<LogicalTerm>): (r: seq<string>)
    decreases ts
  {
    seq(|ts|, i requires 0 <= i < |ts| => RenderTerm(ts[i]))
  }

  function FactorTexts(fs: seq<LogicalFactor>): (r: seq<string>)
    decreases fs
  {
    seq(|fs|, i requires 0 <= i < |fs| => RenderFactor(fs[i]))
  }

  /** Every term, joined with ` || `. */
  function RenderLogical(le: LogicalExpr): string
    decreases le
  {
    Join([RenderTerm(le.first)] + TermTexts(le.rest), " || ")
  }

  /** Every factor, joined with ` && `. */
  function RenderTerm(t: LogicalTerm): string
    decreases t
  {
    Join([RenderFactor(t.first)] + FactorTexts(t.rest), " && ")
  }

  function RenderFactor(f: LogicalFactor): string
    decreases f
  {
    match f
    case Comparison(l, op, r) =>
      if Runtime.IsComparisonOp(op) then RenderValue(l) + " " + op + " " + RenderValue(r)
      else RenderValue(l)
    case Nested(le) => "(" + RenderLogical(le) + ")"
    case Single(v) => RenderValue(v)
  }

  /** One more term adds exactly ` || ` and that term's rendering. */
  lemma {:induction false} RenderLogicalAppend(le: LogicalExpr, t: LogicalTerm)
    ensures RenderLogical(LogicalExpr(le.first, le.rest + [t])) == RenderLogical(le) + " || " + RenderTerm(t)
  {
    var texts := [RenderTerm(le.first)] + TermTexts(le.rest);
    assert [RenderTerm(le.first)] + TermTexts(le.rest + [t]) == texts + [RenderTerm(t)];
    JoinAppend(texts, RenderTerm(t), " || ");
  }

  /** One more factor adds exactly ` && ` and that factor's rendering. */
  lemma {:induction false} RenderTermAppend(t: LogicalTerm, f: LogicalFactor)
    ensures RenderTerm(LogicalTerm(t.first, t.rest + [f])) == RenderTerm(t) + " && " + RenderFactor(f)
  {
    var texts := [RenderFactor(t.first)] + FactorTexts(t.rest);
    assert [RenderFactor(t.first)] + FactorTexts(t.rest + [f]) == texts + [RenderFactor(f)];
    JoinAppend(texts, RenderFactor(f), " && ");
  }

  /** At most two parts at every level, nested expressions included: the
      inputs the truncating renderer handles completely. */
  predicate ShortLogical(le: LogicalExpr)
    decreases le
  {
    |le.rest| <= 1 && ShortTerm(le.first) && (forall i :: 0 <= i < |le.rest| ==> ShortTerm(le.rest[i]))
  }

  predicate ShortTerm(t: LogicalTerm)
    decreases t
  {
    |t.rest| <= 1 && ShortFactor(t.first) && (forall i :: 0 <= i < |t.rest| ==> ShortFactor(t.rest[i]))
  }

  predicate ShortFactor(f: LogicalFactor)
    decreases f
  {
    f.Nested? ==> ShortLogical(f.expr)
  }

  /** The correction changes nothing on the inputs the original renders
      completely. */
  lemma {:induction false} CorrectedAgreesWhenShort(le: LogicalExpr)
    requires ShortLogical(le)
    ensures RenderLogical(le) == TruncatedLogical(le)
    decreases le
  {
    CorrectedTermAgrees(le.first);
    if |le.rest| == 1 {
      assert ShortTerm(le.rest[0]);
      CorrectedTermAgrees(le.rest[0]);
      assert [RenderTerm(le.first)] + TermTexts(le.rest) == [RenderTerm(le.first), RenderTerm(le.rest[0])];
      JoinPair(RenderTerm(le.first), RenderTerm(le.rest[0]), " || ");
    } else {
      assert [RenderTerm(le.first)] + TermTexts(le.rest) == [RenderTerm(le.first)];
      JoinPair(RenderTerm(le.first), "", " || ");
    }
  }

  lemma {:induction false} CorrectedTermAgrees(t: LogicalTerm)
    requires ShortTerm(t)
    ensures RenderTerm(t) == TruncatedTerm(t)
    decreases t
  {
    CorrectedFactorAgrees(t.first);
    if |t.rest| == 1 {
      assert ShortFactor(t.rest[0]);
      CorrectedFactorAgrees(t.rest[0]);
      assert [RenderFactor(t.first)] + FactorTexts(t.rest) == [RenderFactor(t.first), RenderFactor(t.rest[0])];
      JoinPair(RenderFactor(t.first), RenderFactor(t.rest[0]), " && ");
    } else {
      assert [RenderFactor(t.first)] + FactorTexts(t.rest) == [RenderFactor(t.first)];
      JoinPair(RenderFactor(t.first), "", " && ");
    }
  }

  lemma {:induction false} CorrectedFactorAgrees(f: LogicalFactor)
    requires ShortFactor(f)
    ensures RenderFactor(f) == TruncatedFactor(f)
    decreases f
  {
    if f.Nested? {
      CorrectedAgreesWhenShort(f.expr);
    }
  }

  // ---- statements ----

  function TargetText(t: Target): string
  {
    match t
    case VarTarget(name) => name
    case FieldTarget(base, field) => RenderMember(base, field)
  }

  /** A statement line: eight spaces, then the text. */
  function Line(text: string): string
  {
    Indent + text
  }

  /** The lines one statement emits; every statement line is indented by
      eight spaces, and the blocks of `if` and the loop are emitted in
      place between their opening and closing lines. */
  function StmtLines(s: Stmt): (r: seq<string>)
    decreases s
  {
    match s
    case Create(v, c, args) => [Line(c + " " + v + " = new " + c + "(" + Join(RenderArgs(args), ", ") + ");")]
    case Assign(target, value) => [Line(TargetText(target) + " = " + RenderValue(value) + ";")]
    case Print(value) => [Line("System.out.println(" + RenderValue(value) + ");")]
    case If(cond, thenBlock, elseClause) =>
      [Line("if (" + TruncatedLogical(cond) + ") {")] + BlockLines(thenBlock) + [Line("}")] +
      (match elseClause
       case NoElse => []
       case Else(block) => [Line("else {")] + BlockLines(block) + [Line("}")])
    case Loop(body, cond) =>
      [Line("do {")] + BlockLines(body) + [Line("} while (!(" + TruncatedLogical(cond) + "));")]
    case Return(result) =>
      (match result
       case Some(v) => [Line("return " + RenderValue(v) + ";")]
       case None => [Line("return;")])
    case ExprStmt(e) =>
      if RenderValue(e) == "" then [] else [Line(RenderValue(e) + ";")]
    case Break => [Line("break;")]
    case Continue => [Line("continue;")]
    case SuperCall(args) => [Line("super(" + Join(RenderArgs(args), ", ") + ");")]
  }

  /** The statements' lines, one after the other. */
  function BlockLines(stmts: seq<Stmt>): seq<string>
    decreases stmts
  {
    if stmts == [] then [] else BlockLines(stmts[..|stmts| - 1]) + StmtLines(stmts[|stmts| - 1])
  }

  predicate Indented(line: string)
  {
    |line| >= |Indent| && line[..|Indent|] == Indent
  }

  predicate AllIndented(lines: seq<string>)
  {
    forall i :: 0 <= i < |lines| ==> Indented(lines[i])
  }

  lemma IndentedConcat(a: seq<string>, b: seq<string>)
    requires AllIndented(a) && AllIndented(b)
    ensures AllIndented(a + b)
  {
    forall i | 0 <= i < |a + b|
      ensures Indented((a + b)[i])
    {
      if i < |a| {
        assert (a + b)[i] == a[i];
      } else {
        assert (a + b)[i] == b[i - |a|];
      }
    }
  }

  lemma IndentPrefix(x: string)
    ensures Indented(Line(x))
  {
    assert (Indent + x)[..|Indent|] == Indent;
  }

  /** Whether a statement emits anything: only an expression statement
      whose expression renders as the empty string (a character literal)
      is dropped. */
  predicate Emits(s: Stmt)
  {
    !s.ExprStmt? || RenderValue(s.expr) != ""
  }

  /** A statement emits at least one line exactly when `Emits` says so, and
      every line it emits, nested blocks included, carries the statement
      indentation. */
  lemma {:induction false} StmtLinesIndented(s: Stmt)
    ensures |StmtLines(s)| >= 1 <==> Emits(s)
    ensures AllIndented(StmtLines(s))
    decreases s, 1
  {
    match s
    case Create(v, c, args) =>
      IndentPrefix(c + " " + v + " = new " + c + "(" + Join(RenderArgs(args), ", ") + ");");
    case Assign(target, value) =>
      IndentPrefix(TargetText(target) + " = " + RenderValue(value) + ";");
    case Print(value) =>
      IndentPrefix("System.out.println(" + RenderValue(value) + ");");
    case If(_, _, _) =>
      IfLinesIndented(s);
    case Loop(body, cond) =>
      IndentPrefix("do {");
      IndentPrefix("} while (!(" + TruncatedLogical(cond) + "));");
      BlockLinesIndented(body);
      IndentedConcat([Line("do {")], BlockLines(body));
      IndentedConcat([Line("do {")] + BlockLines(body), [Line("} while (!(" + TruncatedLogical(cond) + "));")]);
    case Return(result) =>
      match result {
        case Some(v) =>
          IndentPrefix("return " + RenderValue(v) + ";");
        case None =>
          IndentPrefix("return;");
      }
    case ExprStmt(e) =>
      IndentPrefix(RenderValue(e) + ";");
    case Break =>
      IndentPrefix("break;");
    case Continue =>
      IndentPrefix("continue;");
    case SuperCall(args) =>
      IndentPrefix("super(" + Join(RenderArgs(args), ", ") + ");");
  }

  /** The `if` case of `StmtLinesIndented`. */
  lemma {:induction false} IfLinesIndented(s: Stmt)
    requires s.If?
    ensures |StmtLines(s)| >= 1 && AllIndented(StmtLines(s))
    decreases s, 0
  {
    var open := Line("if (" + TruncatedLogical(s.cond) + ") {");
    IndentPrefix("if (" + TruncatedLogical(s.cond) + ") {");
    IndentPrefix("}");
    BlockLinesIndented(s.thenBlock);
    var head := [open] + BlockLines(s.thenBlock) + [Line("}")];
    IndentedConcat([open], BlockLines(s.thenBlock));
    IndentedConcat([open] + BlockLines(s.thenBlock), [Line("}")]);
    match s.elseClause {
      case NoElse =>
        assert StmtLines(s) == head + [];
      case Else(block) =>
        IndentPrefix("else {");
        BlockLinesIndented(block);
        IndentedConcat([Line("else {")], BlockLines(block));
        IndentedConcat([Line("else {")] + BlockLines(block), [Line("}")]);
        IndentedConcat(head, [Line("else {")] + BlockLines(block) + [Line("}")]);
    }
  }

  /** A block's lines are all indented, and there is at least one per
      statement when every statement emits. */
  lemma {:induction false} BlockLinesIndented(stmts: seq<Stmt>)
    ensures AllIndented(BlockLines(stmts))
    ensures (forall i :: 0 <= i < |stmts| ==> Emits(stmts[i])) ==> |BlockLines(stmts)| >= |stmts|
    decreases stmts
  {
    if stmts != [] {
      BlockLinesIndented(stmts[..|stmts| - 1]);
      StmtLinesIndented(stmts[|stmts| - 1]);
      IndentedConcat(BlockLines(stmts[..|stmts| - 1]), StmtLines(stmts[|stmts| - 1]));
    }
  }

  // ---- class members and constructors ----

  /** The compiler's bookkeeping: the class being emitted, the parameter
      names recorded for each class's constructor, and each inheriting
      class's base name. */
  datatype Tables = Tables(current: Option<string>, paramNames: map<string, seq<string>>, superOf: map<string, string>)

  function ParamText(p: Param): string
  {
    JavaType(p.typeName) + " " + p.name
  }

  /** `visitParamList`, before joining. */
  function ParamTexts(ps: seq<Param>): (r: seq<string>)
    ensures |r| == |ps| && forall i :: 0 <= i < |ps| ==> r[i] == ParamText(ps[i])
  {
    seq(|ps|, i requires 0 <= i < |ps| => ParamText(ps[i]))
  }

  function ParamNames(ps: seq<Param>): (r: seq<string>)
    ensures |r| == |ps| && forall i :: 0 <= i < |ps| ==> r[i] == ps[i].name
  {
    seq(|ps|, i requires 0 <= i < |ps| => ps[i].name)
  }

  function AssignLine(name: string): string
  {
    Indent + "this." + name + " = " + name + ";"
  }

  function AssignLines(names: seq<string>): (r: seq<string>)
    ensures |r| == |names| && forall i :: 0 <= i < |names| ==> r[i] == AssignLine(names[i])
  {
    seq(|names|, i requires 0 <= i < |names| => AssignLine(names[i]))
  }

  /** The class name as an f-string shows it (`None` outside a class). */
  function ClassName(t: Tables): string
  {
    if t.current.Some? then t.current.value else "None"
  }

  /** The constructor records its parameter names for the current class. */
  function ConstructorTables(t: Tables, params: seq<Param>): Tables
  {
    if t.current.Some? then t.(paramNames := t.paramNames[t.current.value := ParamNames(params)]) else t
  }

  predicate Inheriting(t: Tables)
  {
    t.current.Some? && t.current.value in t.superOf
  }

  /** How many parameters go to `super(...)`: the base class's recorded
      parameter count, read after this constructor's own entry was made,
      capped by this constructor's own parameter count. Seen from the
      tables before the constructor: all parameters when the class names
      itself as its base, none when the base never declared a constructor. */
  function SuperArity(t: Tables, params: seq<Param>): (k: nat)
    requires Inheriting(t)
    ensures k <= |params|
    ensures var b := t.superOf[t.current.value];
      var base := if b == t.current.value then |params| else if b in t.paramNames then |t.paramNames[b]| else 0;
      k == if base < |params| then base else |params|
  {
    var recorded := ConstructorTables(t, params).paramNames;
    var b := t.superOf[t.current.value];
    var n := if b in recorded then |recorded[b]| else 0;
    if n < |params| then n else |params|
  }

  function ConstructorHeader(t: Tables, params: seq<Param>): string
  {
    "    public " + ClassName(t) + "(" + Join(ParamTexts(params), ", ") + ") {"
  }

  function SuperLine(args: seq<string>): string
  {
    Indent + "super(" + Join(args, ", ") + ");"
  }

  /** A constructor that forwards its first `k` parameters to `super`. */
  function ForwardingLines(header: string, names: seq<string>, k: nat): seq<string>
    requires k <= |names|
  {
    [header, SuperLine(names[..k])] + AssignLines(names[k..]) + ["    }"]
  }

  /** `visitConstructorDecl` */
  function ConstructorLines(t: Tables, params: seq<Param>): seq<string>
  {
    var names := ParamNames(params);
    if Inheriting(t) then
      ForwardingLines(ConstructorHeader(t, params), names, SuperArity(t, params))
    else
      [ConstructorHeader(t, params)] + AssignLines(names) + ["    }"]
  }

  /** In an inheriting class the first `SuperArity` parameters go to
      `super(...)` on the line after the header, and one line per remaining
      parameter follows. */
  lemma ConstructorForwardsPrefix(t: Tables, params: seq<Param>)
    requires Inheriting(t)
    ensures |ConstructorLines(t, params)| == |params| - SuperArity(t, params) + 3
    ensures ConstructorLines(t, params)[1] == SuperLine(ParamNames(params)[..SuperArity(t, params)])
  {
    var names := ParamNames(params);
    var k := SuperArity(t, params);
    assert ConstructorLines(t, params) == [ConstructorHeader(t, params), SuperLine(names[..k])] + AssignLines(names[k..]) + ["    }"];
  }

  /** In an inheriting class the lines between the `super(...)` line and
      the closing line are the field assignments of the remaining
      parameters, in order. */
  lemma ConstructorAssignsRest(t: Tables, params: seq<Param>)
    requires Inheriting(t)
    ensures var lines := ConstructorLines(t, params);
      |lines| >= 3 && lines[2..|lines| - 1] == AssignLines(ParamNames(params)[SuperArity(t, params)..])
  {
    var names := ParamNames(params);
    var k := SuperArity(t, params);
    var rest := AssignLines(names[k..]);
    var lines := [ConstructorHeader(t, params), SuperLine(names[..k])] + rest + ["    }"];
    assert ConstructorLines(t, params) == lines;
    assert lines[2..|lines| - 1] == rest;
  }

  /** A class without a base assigns every parameter, in order. */
  lemma ConstructorAssignsAll(t: Tables, params: seq<Param>)
    requires !Inheriting(t)
    ensures
      var lines := ConstructorLines(t, params);
      && |lines| == |params| + 2
      && lines[0] == ConstructorHeader(t, params)
      && (forall i :: 1 <= i <= |params| ==> lines[i] == AssignLine(params[i - 1].name))
      && lines[|lines| - 1] == "    }"
  {
  }

  /** The lines of one class element. */
  function ElementLines(t: Tables, e: ClassElement): seq<string>
  {
    match e
    case AttributeDecl(typeName, name) => ["    public " + JavaType(typeName) + " " + name + ";"]
    case MethodElement(m) =>
      ["    public void " + m.name + "(" + Join(ParamTexts(m.params), ", ") + ") {"] + BlockLines(m.body) + ["    }"]
    case ConstructorDecl(params) => ConstructorLines(t, params)
  }

  function ElementTables(t: Tables, e: ClassElement): Tables
  {
    if e.ConstructorDecl? then ConstructorTables(t, e.params) else t
  }

  /** The tables after a run of class elements. */
  function ElementsTables(t: Tables, es: seq<ClassElement>): Tables
    decreases |es|
  {
    if es == [] then t else ElementTables(ElementsTables(t, es[..|es| - 1]), es[|es| - 1])
  }

  /** The lines of a run of class elements, each element seeing the tables
      its predecessors left. */
  function ElementsLines(t: Tables, es: seq<ClassElement>): seq<string>
    decreases |es|
  {
    if es == [] then []
    else ElementsLines(t, es[..|es| - 1]) + ElementLines(ElementsTables(t, es[..|es| - 1]), es[|es| - 1])
  }

  lemma ElementsStep(t: Tables, es: seq<ClassElement>, i: nat)
    requires i < |es|
    ensures ElementsTables(t, es[..i + 1]) == ElementTables(ElementsTables(t, es[..i]), es[i])
    ensures ElementsLines(t, es[..i + 1]) == ElementsLines(t, es[..i]) + ElementLines(ElementsTables(t, es[..i]), es[i])
  {
    assert es[..i + 1][..i] == es[..i];
  }

  /** Entering a class: it becomes current, and an inherits clause records
      its base (a later re-declaration without one leaves the old entry). */
  function EnterClass(t: Tables, d: ClassDecl): Tables
  {
    Tables(Some(d.name), t.paramNames,
           if d.inherits.Some? then t.superOf[d.name := d.inherits.value] else t.superOf)
  }

  function ClassHeader(d: ClassDecl): (r: string)
    ensures d.inherits.None? ==> r == "class " + d.name + " {"
    ensures d.inherits.Some? ==> r == "class " + d.name + " extends " + d.inherits.value + " {"
  {
    "class " + d.name + (if d.inherits.Some? then " extends " + d.inherits.value else "") + " {"
  }

  /** `visitClassDecl`: header, element lines, closing brace. */
  function ClassLines(t: Tables, d: ClassDecl): seq<string>
  {
    [ClassHeader(d)] + ElementsLines(EnterClass(t, d), d.elements) + ["}"]
  }

  function ClassTables(t: Tables, d: ClassDecl): Tables
  {
    ElementsTables(EnterClass(t, d), d.elements)
  }

  function ProgramTables(t: Tables, classes: seq<ClassDecl>): Tables
    decreases |classes|
  {
    if classes == [] then t
    else ClassTables(ProgramTables(t, classes[..|classes| - 1]), classes[|classes| - 1])
  }

  function ClassesLines(t: Tables, classes: seq<ClassDecl>): seq<string>
    decreases |classes|
  {
    if classes == [] then []
    else ClassesLines(t, classes[..|classes| - 1]) + ClassLines(ProgramTables(t, classes[..|classes| - 1]), classes[|classes| - 1])
  }

  lemma ClassesStep(t: Tables, classes: seq<ClassDecl>, i: nat)
    requires i < |classes|
    ensures ProgramTables(t, classes[..i + 1]) == ClassTables(ProgramTables(t, classes[..i]), classes[i])
    ensures ClassesLines(t, classes[..i + 1]) == ClassesLines(t, classes[..i]) + ClassLines(ProgramTables(t, classes[..i]), classes[i])
  {
    assert classes[..i + 1][..i] == classes[..i];
  }

  /** `visitMainMethod` */
  function MainLines(main: seq<Stmt>): seq<string>
  {
    ["public class Main {", "    public static void main(String[] args) {"] + BlockLines(main) + ["    }", "}"]
  }

  /** `visitParamList`: the typed parameters, one after the other, joined
      by commas. */
  method ParamList(params: seq<Param>) returns (text: string)
    ensures text == Join(ParamTexts(params), ", ")
    ensures |params| == 1 ==> text == JavaType(params[0].typeName) + " " + params[0].name
  {
    var texts := [];
    var i := 0;
    while i < |params|
      invariant 0 <= i <= |params|
      invariant texts == ParamTexts(params[..i])
    {
      texts := texts + [ParamText(params[i])];
      i := i + 1;
    }
    assert params[..i] == params;
    text := Join(texts, ", ");
  }

  /** The three lists `visitConstructorDecl` builds in its loop: the typed
      parameters, their names, and one field assignment per parameter. */
  method ConstructorParts(params: seq<Param>) returns (texts: seq<string>, names: seq<string>, assigns: seq<string>)
    ensures texts == ParamTexts(params)
    ensures |names| == |params| && forall i :: 0 <= i < |params| ==> names[i] == params[i].name
    ensures |assigns| == |params| && forall i :: 0 <= i < |params| ==> assigns[i] == AssignLine(params[i].name)
  {
    texts, names, assigns := [], [], [];
    var i := 0;
    while i < |params|
      invariant 0 <= i <= |params|
      invariant texts == ParamTexts(params[..i])
      invariant |names| == i && forall j :: 0 <= j < i ==> names[j] == params[j].name
      invariant |assigns| == i && forall j :: 0 <= j < i ==> assigns[j] == AssignLine(params[j].name)
    {
      texts := texts + [ParamText(params[i])];
      names := names + [params[i].name];
      assigns := assigns + [AssignLine(params[i].name)];
      i := i + 1;
    }
    assert params[..i] == params;
  }

  class JavaCompiler {
    var output: seq<string>
    var currentClass: Option<string>
    var classParamCounts: map<string, seq<string>>
    var superclassParamMap: map<string, string>

    function State(): Tables
      reads this
    {
      Tables(currentClass, classParamCounts, superclassParamMap)
    }

    constructor ()
      ensures output == [] && State() == Tables(None, map[], map[])
    {
      output := [];
      currentClass := None;
      classParamCounts := map[];
      superclassParamMap := map[];
    }

    /** `visitBlock` */
    method EmitBlock(stmts: seq<Stmt>)
      modifies this
      decreases stmts
      ensures output == old(output) + BlockLines(stmts)
      ensures State() == old(State())
    {
      var i := 0;
      while i < |stmts|
        invariant 0 <= i <= |stmts|
        invariant output == old(output) + BlockLines(stmts[..i])
        invariant State() == old(State())
      {
        assert stmts[..i + 1][..i] == stmts[..i];
        EmitStmt(stmts[i]);
        i := i + 1;
      }
      assert stmts[..i] == stmts;
    }

    /** The statement visitors: each appends its lines and touches nothing
        else. */
    method EmitStmt(s: Stmt)
      modifies this
      decreases s, 1
      ensures output == old(output) + StmtLines(s)
      ensures State() == old(State())
    {
      match s
      case If(_, _, _) =>
        EmitIf(s);
      case Loop(body, cond) =>
        output := output + [Line("do {")];
        EmitBlock(body);
        output := output + [Line("} while (!(" + TruncatedLogical(cond) + "));")];
      case ExprStmt(e) =>
        var text := RenderValue(e);
        if text != "" {
          output := output + [Line(text + ";")];
        }
      case _ =>
        output := output + StmtLines(s);
    }

    /** `visitIfStatement`: the condition line, the then block, and the
        else block only when there is one. */
    method EmitIf(s: Stmt)
      requires s.If?
      modifies this
      decreases s, 0
      ensures output == old(output) + StmtLines(s)
      ensures State() == old(State())
    {
      output := output + [Line("if (" + TruncatedLogical(s.cond) + ") {")];
      EmitBlock(s.thenBlock);
      output := output + [Line("}")];
      ghost var mid := output;
      assert mid == old(output) + ([Line("if (" + TruncatedLogical(s.cond) + ") {")] + BlockLines(s.thenBlock) + [Line("}")]);
      match s.elseClause
      case NoElse =>
      case Else(block) =>
        output := output + [Line("else {")];
        EmitBlock(block);
        output := output + [Line("}")];
        assert output == mid + ([Line("else {")] + BlockLines(block) + [Line("}")]);
    }

    /** `visitConstructorDecl` */
    method EmitConstructor(params: seq<Param>)
      modifies this
      ensures output == old(output) + ConstructorLines(old(State()), params)
      ensures State() == ConstructorTables(old(State()), params)
    {
      var t := State();
      var texts, names, assigns := ConstructorParts(params);
      assert names == ParamNames(params);
      assert assigns == AssignLines(names);
      var header := "    public " + ClassName(t) + "(" + Join(texts, ", ") + ") {";
      assert header == ConstructorHeader(t, params);
      var lines;
      if currentClass.Some? && currentClass.value in superclassParamMap {
        var b := superclassParamMap[currentClass.value];
        var recorded := classParamCounts[currentClass.value := names];
        var baseNames := if b in recorded then recorded[b] else [];
        var k := if |baseNames| < |names| then |baseNames| else |names|;
        assert k == SuperArity(t, params);
        lines := ForwardingLines(header, names, k);
      } else {
        lines := [header] + assigns + ["    }"];
      }
      assert lines == ConstructorLines(t, params);
      if currentClass.Some? {
        classParamCounts := classParamCounts[currentClass.value := names];
      }
      output := output + lines;
    }

    method EmitElement(e: ClassElement)
      modifies this
      ensures output == old(output) + ElementLines(old(State()), e)
      ensures State() == ElementTables(old(State()), e)
    {
      match e
      case AttributeDecl(typeName, name) =>
        output := output + ["    public " + JavaType(typeName) + " " + name + ";"];
      case MethodElement(m) =>
        var ps := ParamList(m.params);
        output := output + ["    public void " + m.name + "(" + ps + ") {"];
        EmitBlock(m.body);
        output := output + ["    }"];
      case ConstructorDecl(params) =>
        EmitConstructor(params);
    }

    /** The element loop of `visitClassDecl`. */
    method EmitElements(es: seq<ClassElement>)
      modifies this
      ensures output == old(output) + ElementsLines(old(State()), es)
      ensures State() == ElementsTables(old(State()), es)
    {
      var i := 0;
      while i < |es|
        invariant 0 <= i <= |es|
        invariant output == old(output) + ElementsLines(old(State()), es[..i])
        invariant State() == ElementsTables(old(State()), es[..i])
      {
        ElementsStep(old(State()), es, i);
        ghost var lines := ElementLines(State(), es[i]);
        ghost var prev := ElementsLines(old(State()), es[..i]);
        EmitElement(es[i]);
        AppendAssoc(old(output), prev, lines);
        i := i + 1;
      }
      assert es[..i] == es;
    }

    /** `visitClassDecl` */
    method EmitClass(d: ClassDecl)
      modifies this
      ensures output == old(output) + ClassLines(old(State()), d)
      ensures State() == ClassTables(old(State()), d)
    {
      currentClass := Some(d.name);
      if d.inherits.Some? {
        superclassParamMap := superclassParamMap[d.name := d.inherits.value];
      }
      assert State() == EnterClass(old(State()), d);
      output := output + [ClassHeader(d)];
      EmitElements(d.elements);
      output := output + ["}"];
      AppendAssoc(old(output), [ClassHeader(d)], ElementsLines(EnterClass(old(State()), d), d.elements));
    }

    /** `visitMainMethod` */
    method EmitMain(main: seq<Stmt>)
      modifies this
      ensures output == old(output) + MainLines(main)
      ensures State() == old(State())
    {
      output := output + ["public class Main {", "    public static void main(String[] args) {"];
      EmitBlock(main);
      output := output + ["    }", "}"];
    }

    /** `compile`: emit the classes, then the main class, and return the
        whole output joined by newlines. */
    method Compile(p: Program) returns (r: string)
      modifies this
      ensures output == old(output) + ClassesLines(old(State()), p.classes) + MainLines(p.main)
      ensures State() == ProgramTables(old(State()), p.classes)
      ensures r == JoinLines(output)
    {
      var i := 0;
      while i < |p.classes|
        invariant 0 <= i <= |p.classes|
        invariant output == old(output) + ClassesLines(old(State()), p.classes[..i])
        invariant State() == ProgramTables(old(State()), p.classes[..i])
      {
        ClassesStep(old(State()), p.classes, i);
        ghost var tables := State();
        ghost var lines := ClassLines(tables, p.classes[i]);
        ghost var prev := ClassesLines(old(State()), p.classes[..i]);
        EmitClass(p.classes[i]);
        assert output == old(output) + prev + lines;
        AppendAssoc(old(output), prev, lines);
        i := i + 1;
      }
      assert p.classes[..i] == p.classes;
      EmitMain(p.main);
      r := JoinLines(output);
    }
  }
}
