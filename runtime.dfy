/** Runtime values of the interpreter and the operations on them: Python's
    truthiness, `str()` rendering, the arithmetic operators of
    `evaluate_binary_operation` and the comparisons of `evaluate_comparison`,
    and instances, whose field store `set_attr` updates in place. */
module Runtime {
  import opened Base
  import opened ClassTable

  /** A Python value as the interpreter produces it. Character literals are
      Python strings, so they are `VStr` too; `VNone` is the unset default. */
  datatype Value =
    | VInt(i: int)
    | VStr(s: string)
    | VBool(b: bool)
    | VNone
    | VObj(obj: Instance)

  /** An object: its class and its lazily filled field store. */
  class Instance {
    const classDef: ClassDef
    var fields: map<string, Value>

    constructor (c: ClassDef)
      ensures classDef == c && fields == map[]
    {
      classDef := c;
      fields := map[];
    }

    /** `Instance.get_attr`: a stored field first; otherwise the unset default
        for a name declared anywhere in the chain; otherwise an error. */
    function GetAttr(name: string): (r: Result<Value, Fault>)
      reads this
      ensures name in fields ==> r == Ok(fields[name])
      ensures name !in fields ==> (r.Ok? <==> DeclaredInChain(classDef, name))
      ensures name !in fields && r.Ok? ==> r.value == VNone
      ensures r.Err? ==> r.error == UnknownAttribute(name)
    {
      ReadField(fields, classDef, name)
    }

    /** `Instance.set_attr`: only `fields[name]` changes, and only when the
        loose write guard lets it. */
    method SetAttr(name: string, value: Value) returns (r: Outcome)
      modifies this
      ensures r.Ok? <==> WriteAllowed(classDef, name)
      ensures r.Err? ==> r.error == UnknownAttribute(name)
      ensures fields == if r.Ok? then old(fields)[name := value] else old(fields)
    {
      if name in classDef.attributes || classDef.superclass.Some? {
        fields := fields[name := value];
        r := Ok(());
      } else {
        r := Err(UnknownAttribute(name));
      }
    }
  }

  /** The read of `get_attr` on a field store `fields` of an instance of
      class `c`. */
  function ReadField(fields: map<string, Value>, c: ClassDef, name: string): (r: Result<Value, Fault>)
    ensures name in fields ==> r == Ok(fields[name])
    ensures name !in fields ==> (r.Ok? <==> DeclaredInChain(c, name))
    ensures name !in fields && r.Ok? ==> r.value == VNone
    ensures r.Err? ==> r.error == UnknownAttribute(name)
  {
    DeclaredInChainStep(c, name);
    if name in fields then Ok(fields[name])
    else if name in c.attributes then Ok(VNone)
    else match c.superclass
      case Some(p) =>
        (match LookupAttr(p, name)
         case Ok(_) => Ok(VNone)
         case Err(e) => Err(e))
      case None => Err(UnknownAttribute(name))
  }

  /** A read after a successful write yields the written value, whatever the
      class declares; a refused write leaves the read as it was. */
  method WriteThenRead(o: Instance, name: string, value: Value) returns (w: Outcome, r: Result<Value, Fault>)
    modifies o
    ensures w.Ok? <==> WriteAllowed(o.classDef, name)
    ensures w.Ok? ==> r == Ok(value)
    ensures w.Err? ==> r == old(o.GetAttr(name))
  {
    w := o.SetAttr(name, value);
    r := o.GetAttr(name);
  }

  /** Python truthiness. */
  predicate Truthy(v: Value)
  {
    match v
    case VInt(i) => i != 0
    case VStr(s) => s != ""
    case VBool(b) => b
    case VNone => false
    case VObj(_) => true
  }

  // ---- decimal text ----

  function DigitChar(d: nat): (c: char)
    requires d < 10
    ensures '0' <= c <= '9'
  {
    (48 + d) as char
  }

  predicate IsDigit(c: char) { '0' <= c <= '9' }

  function DigitValue(c: char): nat
    requires IsDigit(c)
  {
    (c as int - 48) as nat
  }

  /** Decimal digits of a natural number, most significant first. */
  function NatToString(n: nat): (s: string)
    ensures |s| >= 1 && forall i :: 0 <= i < |s| ==> IsDigit(s[i])
  {
    if n < 10 then [DigitChar(n)] else NatToString(n / 10) + [DigitChar(n % 10)]
  }

  /** Python `str()` of an int. */
  function IntToString(i: int): string
  {
    if i < 0 then "-" + NatToString(-i) else NatToString(i)
  }

  function DigitsValue(s: string): nat
    requires forall i :: 0 <= i < |s| ==> IsDigit(s[i])
  {
    if s == [] then 0 else DigitsValue(s[..|s| - 1]) * 10 + DigitValue(s[|s| - 1])
  }

  /** Python `int()` of an INT_LITERAL token, which the lexer makes a run of
      decimal digits; any other text raises. */
  function ParseDecimal(s: string): (r: Option<nat>)
    ensures r.Some? <==> |s| >= 1 && forall i :: 0 <= i < |s| ==> IsDigit(s[i])
  {
    if |s| >= 1 && forall i :: 0 <= i < |s| ==> IsDigit(s[i]) then Some(DigitsValue(s)) else None
  }

  /** Reading back the decimal rendering of a natural number gives it back. */
  lemma {:induction false} ParseRendered(n: nat)
    ensures ParseDecimal(NatToString(n)) == Some(n)
  {
    var s := NatToString(n);
    if n >= 10 {
      ParseRendered(n / 10);
      assert s[..|s| - 1] == NatToString(n / 10);
      assert DigitValue(s[|s| - 1]) == n % 10;
      assert DigitsValue(s) == (n / 10) * 10 + n % 10;
    } else {
      assert s[..0] == [];
      assert DigitsValue(s) == DigitValue(s[0]);
    }
  }

  // ---- str.strip(c) ----

  function StripLeft(t: string, c: char): (r: string)
    ensures |r| <= |t| && r == t[|t| - |r|..]
    ensures forall k :: 0 <= k < |t| - |r| ==> t[k] == c
    ensures r == [] || r[0] != c
  {
    if t != [] && t[0] == c then StripLeft(t[1..], c) else t
  }

  function StripRight(t: string, c: char): (r: string)
    ensures |r| <= |t| && r == t[..|r|]
    ensures forall k :: |r| <= k < |t| ==> t[k] == c
    ensures r == [] || r[|r| - 1] != c
  {
    if t != [] && t[|t| - 1] == c then StripRight(t[..|t| - 1], c) else t
  }

  /** `text.strip(c)`: drop every leading and trailing `c`. */
  function Strip(t: string, c: char): string
  {
    StripRight(StripLeft(t, c), c)
  }

  /** The stripped text is a slice of the original, and everything cut
      off on either side is `c`. */
  lemma StripIsSlice(t: string, c: char)
    ensures exists i, j ::
              && 0 <= i <= j <= |t| && Strip(t, c) == t[i..j]
              && (forall k :: 0 <= k < i ==> t[k] == c)
              && (forall k :: j <= k < |t| ==> t[k] == c)
  {
    var l := StripLeft(t, c);
    var r := StripRight(l, c);
    var i := |t| - |l|;
    var j := i + |r|;
    assert Strip(t, c) == t[i..j] by {
      assert l == t[i..] && r == l[..|r|];
      assert t[i..][..|r|] == t[i..j];
    }
    assert forall k :: j <= k < |t| ==> t[k] == c by {
      assert l == t[i..];
      forall k | j <= k < |t|
        ensures t[k] == c
      {
        assert t[k] == l[k - i];
      }
    }
  }

  /** The stripped text has no `c` at either end, so stripping it again
      changes nothing. */
  lemma StripIdempotent(t: string, c: char)
    ensures Strip(t, c) == [] || (Strip(t, c)[0] != c && Strip(t, c)[|Strip(t, c)| - 1] != c)
    ensures Strip(Strip(t, c), c) == Strip(t, c)
  {
    var l := StripLeft(t, c);
    var r := StripRight(l, c);
    assert Strip(t, c) == r;
    if r != [] {
      assert r[0] == l[0];
    }
    assert StripLeft(r, c) == r;
    assert StripRight(r, c) == r;
  }

  /** Python `str()` of a value. Booleans print as `True`/`False`; an object
      prints without the memory address Python adds. */
  function Render(v: Value): string
  {
    match v
    case VInt(i) => IntToString(i)
    case VStr(s) => s
    case VBool(b) => if b then "True" else "False"
    case VNone => "None"
    case VObj(_) => "<interpreter.Instance object>"
  }

  // ---- arithmetic ----

  /** The numeric view of a value: Python's bool is an int subclass. */
  function Numeric(v: Value): Option<int>
  {
    match v
    case VInt(i) => Some(i)
    case VBool(b) => Some(if b then 1 else 0)
    case _ => None
  }

  /** Python's `//` on ints: the quotient rounded toward minus infinity. */
  function FloorDiv(a: int, b: int): int
    requires b != 0
  {
    if b > 0 || a % b == 0 then a / b else a / b - 1
  }

  /** Python's `%` on ints: the remainder takes the sign of the divisor and
      completes the floor division. */
  function PyMod(a: int, b: int): (m: int)
    requires b != 0
    ensures b > 0 ==> 0 <= m < b
    ensures b < 0 ==> b < m <= 0
    ensures a == b * FloorDiv(a, b) + m
  {
    var e := a % b;
    var q := a / b;
    assert a == b * q + e;
    if b > 0 || e == 0 then e
    else
      assert b * (q - 1) == b * q - b;
      e + b
  }

  /** Python `s * n` on a string. */
  function Repeat(s: string, n: int): (r: string)
    ensures |r| == if n <= 0 then 0 else n * |s|
    decreases n
  {
    if n <= 0 then "" else s + Repeat(s, n - 1)
  }

  /** `s * (a + b)` is `s * a` followed by `s * b`, and `s * 1` is `s`:
      together these say the result is `s` written out `n` times. */
  lemma {:induction false} RepeatSplit(s: string, a: nat, b: nat)
    ensures Repeat(s, a + b) == Repeat(s, a) + Repeat(s, b)
    ensures Repeat(s, 1) == s
    decreases a
  {
    assert Repeat(s, 1) == s + Repeat(s, 0);
    if a > 0 {
      RepeatSplit(s, a - 1, b);
      calc {
        Repeat(s, a + b);
        s + Repeat(s, a - 1 + b);
        s + (Repeat(s, a - 1) + Repeat(s, b));
        (s + Repeat(s, a - 1)) + Repeat(s, b);
        Repeat(s, a) + Repeat(s, b);
      }
    } else {
      assert Repeat(s, 0) == "";
    }
  }

  predicate IsArithmeticOp(op: string)
  {
    op == "+" || op == "-" || op == "*" || op == "/" || op == "%"
  }

  /** `evaluate_binary_operation`. `+` concatenates the `str()` forms when
      either side is a string; the rest is Python arithmetic. True division
      produces a float and string `%` is formatting: both are outside the
      model and reported as `Unmodelled`. */
  function BinaryOp(l: Value, op: string, r: Value): (res: Result<Value, Fault>)
    ensures op == "+" && (l.VStr? || r.VStr?) ==> res == Ok(VStr(Render(l) + Render(r)))
    ensures !IsArithmeticOp(op) ==> res == Err(UnknownOperator(op))
    ensures res.Ok? ==> res.value.VInt? || res.value.VStr?
    ensures IsArithmeticOp(op) && op != "/" && Numeric(l).Some? && Numeric(r).Some? && !(op == "%" && Numeric(r).value == 0) ==>
      res.Ok? && res.value.VInt?
    ensures res.Ok? && op == "%" && Numeric(l).Some? && Numeric(r).Some? ==>
      var a, b := Numeric(l).value, Numeric(r).value;
      b != 0 && res.value == VInt(PyMod(a, b))
    ensures (op == "/" || op == "%") && Numeric(l).Some? && Numeric(r) == Some(0) ==> res == Err(ZeroDivision)
  {
    var nl, nr := Numeric(l), Numeric(r);
    if op == "+" then
      if l.VStr? || r.VStr? then Ok(VStr(Render(l) + Render(r)))
      else if nl.Some? && nr.Some? then Ok(VInt(nl.value + nr.value))
      else Err(TypeMismatch(op))
    else if op == "-" then
      if nl.Some? && nr.Some? then Ok(VInt(nl.value - nr.value)) else Err(TypeMismatch(op))
    else if op == "*" then
      if nl.Some? && nr.Some? then Ok(VInt(nl.value * nr.value))
      else if l.VStr? && nr.Some? then Ok(VStr(Repeat(l.s, nr.value)))
      else if nl.Some? && r.VStr? then Ok(VStr(Repeat(r.s, nl.value)))
      else Err(TypeMismatch(op))
    else if op == "/" then
      if nl.Some? && nr.Some? then
        if nr.value == 0 then Err(ZeroDivision) else Err(Unmodelled("float division"))
      else Err(TypeMismatch(op))
    else if op == "%" then
      if nl.Some? && nr.Some? then
        if nr.value == 0 then Err(ZeroDivision) else Ok(VInt(PyMod(nl.value, nr.value)))
      else if l.VStr? then Err(Unmodelled("string formatting"))
      else Err(TypeMismatch(op))
    else Err(UnknownOperator(op))
  }

  /** Adding a string to an int concatenates the int's text: `1 + "x"` is
      `"1x"`, not an arithmetic fault. */
  lemma IntPlusString()
    ensures BinaryOp(VInt(1), "+", VStr("x")) == Ok(VStr("1x"))
  {
    assert DigitChar(1) == '1';
    assert Render(VInt(1)) == "1";
    assert "1" + "x" == "1x";
  }

  // ---- comparison ----

  /** Python's lexicographic `<` on strings, by code point. */
  predicate StrLess(a: string, b: string)
  {
    if a == [] then b != []
    else if b == [] then false
    else if a[0] != b[0] then a[0] < b[0]
    else StrLess(a[1..], b[1..])
  }

  /** String `<` is a strict total order. */
  lemma {:induction false} StrLessIrreflexive(a: string)
    ensures !StrLess(a, a)
  {
    if a != [] {
      StrLessIrreflexive(a[1..]);
    }
  }

  lemma {:induction false} StrLessTransitive(a: string, b: string, c: string)
    requires StrLess(a, b) && StrLess(b, c)
    ensures StrLess(a, c)
  {
    if a != [] && b != [] && c != [] && a[0] == b[0] && b[0] == c[0] {
      StrLessTransitive(a[1..], b[1..], c[1..]);
    }
  }

  lemma {:induction false} StrLessTotal(a: string, b: string)
    ensures StrLess(a, b) || a == b || StrLess(b, a)
  {
    if a != [] && b != [] && a[0] == b[0] {
      StrLessTotal(a[1..], b[1..]);
      if a[1..] == b[1..] {
        assert a == [a[0]] + a[1..] && b == [b[0]] + b[1..];
      }
    }
  }

  /** Python `==`: numbers (bools included) by value, strings by content,
      objects by identity; values of different kinds are unequal. */
  predicate PyEq(l: Value, r: Value)
  {
    if Numeric(l).Some? && Numeric(r).Some? then Numeric(l).value == Numeric(r).value
    else match (l, r)
      case (VStr(a), VStr(b)) => a == b
      case (VNone, VNone) => true
      case (VObj(a), VObj(b)) => a == b
      case _ => false
  }

  predicate IsComparisonOp(op: string)
  {
    op == "==" || op == "!=" || op == "<" || op == ">" || op == "<=" || op == ">="
  }

  /** `evaluate_comparison`: equality on any values; an ordering only between
      two numbers or two strings (Python raises TypeError otherwise). */
  function Compare(l: Value, op: string, r: Value): (res: Result<Value, Fault>)
    ensures !IsComparisonOp(op) <==> res == Err(UnknownOperator(op))
    ensures res.Ok? ==> res.value.VBool?
    ensures op == "==" ==> res == Ok(VBool(PyEq(l, r)))
    ensures op == "!=" ==> res == Ok(VBool(!PyEq(l, r)))
  {
    if op == "==" then Ok(VBool(PyEq(l, r)))
    else if op == "!=" then Ok(VBool(!PyEq(l, r)))
    else if op == "<" || op == ">" || op == "<=" || op == ">=" then
      if Numeric(l).Some? && Numeric(r).Some? then
        var a, b := Numeric(l).value, Numeric(r).value;
        Ok(VBool(if op == "<" then a < b else if op == ">" then a > b else if op == "<=" then a <= b else a >= b))
      else if l.VStr? && r.VStr? then
        var a, b := l.s, r.s;
        Ok(VBool(if op == "<" then StrLess(a, b) else if op == ">" then StrLess(b, a)
                 else if op == "<=" then !StrLess(b, a) else !StrLess(a, b)))
      else Err(TypeMismatch(op))
    else Err(UnknownOperator(op))
  }

  /** The orderings are consistent: `<` and `>` are converse, and `<=` holds
      exactly when `<` or `==` does, for numbers and strings alike. */
  lemma CompareConsistent(l: Value, r: Value)
    ensures Compare(l, "<", r).Ok? <==> Compare(r, ">", l).Ok?
    ensures Compare(l, "<", r).Ok? ==> Compare(l, "<", r) == Compare(r, ">", l)
    ensures Compare(l, "<=", r).Ok? <==> Compare(l, "<", r).Ok?
    ensures Compare(l, "<=", r).Ok? ==>
      (Compare(l, "<=", r).value.b <==> Compare(l, "<", r).value.b || PyEq(l, r))
  {
    if l.VStr? && r.VStr? {
      StrLessTotal(l.s, r.s);
      if l.s == r.s {
        StrLessIrreflexive(l.s);
      }
      if StrLess(l.s, r.s) && StrLess(r.s, l.s) {
        StrLessTransitive(l.s, r.s, l.s);
        StrLessIrreflexive(l.s);
      }
    }
  }
}
