/**
 * Row coercion (`_reshape`): the API sends every field as a string, and each field whose
 * declared type is `int` or `Decimal` is converted. Only `TypeError` is caught; the errors a
 * malformed numeric string raises propagate.
 */
module Coercion {
  import opened Wrappers
  import opened Digits
  import opened Seqs

  /**
   * A finite `decimal.Decimal`, exactly as its `as_tuple()`: a sign, a coefficient and an exponent.
   * The sign is kept apart from the coefficient, so "-0.0" is (true, 0, -1) and "0.0" is (false, 0, -1).
   * Equality of this datatype is `as_tuple()` equality, which is finer than Python's `==` on
   * decimals: `Decimal("0.0") == Decimal("0.00")` and `Decimal("-0.0") == Decimal("0.0")` hold in
   * Python, while their tuples differ. Numeric equality is `SignedCoefficient` times 10^exponent.
   */
  datatype Decimal = Decimal(negative: bool, coefficient: nat, exponent: int)

  /** The coefficient with its sign applied; the value is this times 10^exponent. */
  function SignedCoefficient(d: Decimal): (m: int)
    ensures m < 0 ==> d.negative
    ensures m > 0 ==> !d.negative
    ensures m == 0 <==> d.coefficient == 0
  {
    if d.negative then -(d.coefficient as int) else d.coefficient
  }

  /** `Decimal(i)` for an `int`: negative exactly when `i` is, exponent zero. */
  function FromInt(i: int): (d: Decimal)
    ensures SignedCoefficient(d) == i && d.exponent == 0
    ensures d.negative <==> i < 0
  {
    Decimal(i < 0, if i < 0 then -i else i, 0)
  }

  /** The JSON values a row can hold once decoded (numbers with a fraction arrive as Decimal). */
  datatype Value =
    | Null
    | Bool(b: bool)
    | Int(i: int)
    | Str(s: string)
    | Dec(d: Decimal)
    | Object(fields: map<string, Value>)

  /** The declared type of a field (`model[k].type_`). */
  datatype TypeTag = IntType | DecimalType | OtherType(name: string)

  predicate IsNumeric(t: TypeTag)
  {
    t == IntType || t == DecimalType
  }

  /** The exceptions other than `TypeError` that a conversion raises. */
  datatype ConversionError = ValueError | InvalidOperation

  /** The outcome of one conversion attempt. */
  datatype Conversion = Converted(value: Value) | TypeErr | OtherErr(error: ConversionError)

  /** Position of the first character of `s` in `cs`, or |s| when there is none. */
  function IndexOf(s: string, cs: set<char>): (i: nat)
    ensures i <= |s|
    ensures i < |s| ==> s[i] in cs
    ensures forall j :: 0 <= j < i ==> s[j] !in cs
  {
    if |s| == 0 then 0 else if s[0] in cs then 0 else 1 + IndexOf(s[1..], cs)
  }

  /** The digits of a coefficient, with an optional decimal point among them (at least one digit in all). */
  function ParseCoefficient(coeff: string): (r: Option<Decimal>)
    ensures r.Some? ==> !r.value.negative
  {
    var dot := IndexOf(coeff, {'.'});
    var intPart := coeff[..dot];
    var frac := if dot < |coeff| then coeff[dot + 1..] else "";
    if AllDigits(intPart) && AllDigits(frac) && |intPart| + |frac| > 0 then
      Some(Decimal(false, DigitsToNat(intPart + frac), -|frac|))
    else None
  }

  /** A coefficient followed by an optional exponent `e`/`E` with an optional sign. */
  function ParseUnsignedDecimal(body: string): (r: Option<Decimal>)
    ensures r.Some? ==> !r.value.negative
  {
    var e := IndexOf(body, {'e', 'E'});
    var exp: Option<int> := if e == |body| then Some(0) else ParseInt(body[e + 1..]);
    match (ParseCoefficient(body[..e]), exp)
    case (Some(c), Some(x)) => Some(Decimal(c.negative, c.coefficient, c.exponent + x))
    case _ => None
  }

  /** `Decimal(s)` for the finite-number grammar: an optional sign, then an unsigned decimal. */
  function ParseDecimal(s: string): (r: Option<Decimal>)
    ensures r.Some? ==> |s| >= 1
    ensures r.Some? ==> (r.value.negative <==> s[0] == '-')
  {
    var signed := |s| > 0 && (s[0] == '-' || s[0] == '+');
    match ParseUnsignedDecimal(if signed then s[1..] else s)
    case Some(d) => Some(if signed && s[0] == '-' then Decimal(true, d.coefficient, d.exponent) else d)
    case None => None
  }

  lemma {:induction false} IndexOfAbsent(s: string, cs: set<char>)
    requires forall i :: 0 <= i < |s| ==> s[i] !in cs
    ensures IndexOf(s, cs) == |s|
  {
    if |s| > 0 {
      IndexOfAbsent(s[1..], cs);
    }
  }

  lemma {:induction false} IndexOfAppend(x: string, y: string, cs: set<char>)
    requires forall i :: 0 <= i < |x| ==> x[i] !in cs
    ensures IndexOf(x + y, cs) == |x| + IndexOf(y, cs)
  {
    if |x| > 0 {
      assert (x + y)[1..] == x[1..] + y;
      IndexOfAppend(x[1..], y, cs);
    } else {
      assert x + y == y;
    }
  }

  lemma DigitsHaveNoMarks(s: string)
    requires AllDigits(s)
    ensures forall i :: 0 <= i < |s| ==> s[i] !in {'e', 'E'} && s[i] !in {'.'}
  {
  }

  /**
   * On a plain integer string, `Decimal(s)` has the value `int(s)` with exponent zero, and it is
   * negative exactly when the text has a minus sign (so "-0" gives a negative zero).
   */
  lemma ParseDecimalOfInteger(s: string, n: int)
    requires ParseInt(s) == Some(n)
    ensures ParseDecimal(s).Some?
    ensures var d := ParseDecimal(s).value;
      SignedCoefficient(d) == n && d.exponent == 0 && (d.negative <==> s[0] == '-')
  {
    var body := if s[0] == '-' || s[0] == '+' then s[1..] else s;
    assert AllDigits(body);
    DigitsHaveNoMarks(body);
    IndexOfAbsent(body, {'e', 'E'});
    IndexOfAbsent(body, {'.'});
    assert body[..|body|] == body;
    assert body + "" == body;
  }

  lemma DotIndex(a: string, b: string)
    requires AllDigits(a)
    ensures IndexOf(a + "." + b, {'.'}) == |a|
  {
    DigitsHaveNoMarks(a);
    assert a + "." + b == a + ("." + b);
    IndexOfAppend(a, "." + b, {'.'});
  }

  lemma CoefficientOfPoint(a: string, b: string)
    requires AllDigits(a) && AllDigits(b) && |a| + |b| > 0
    ensures ParseCoefficient(a + "." + b) == Some(Decimal(false, DigitsToNat(a + b), -|b|))
  {
    var s := a + "." + b;
    DotIndex(a, b);
    assert s[..|a|] == a;
    assert s[|a| + 1..] == b;
  }

  lemma UnsignedWithoutExponent(s: string)
    requires forall i :: 0 <= i < |s| ==> s[i] !in {'e', 'E'}
    ensures ParseUnsignedDecimal(s) == ParseCoefficient(s)
  {
    IndexOfAbsent(s, {'e', 'E'});
    assert s[..|s|] == s;
  }

  lemma AllDigitsAppend(a: string, b: string)
    requires AllDigits(a) && AllDigits(b)
    ensures AllDigits(a + b)
  {
    assert forall i :: 0 <= i < |a + b| ==> (a + b)[i] == if i < |a| then a[i] else b[i - |a|];
  }

  lemma PointNumberHasNoExponent(a: string, b: string)
    requires AllDigits(a) && AllDigits(b)
    ensures forall i :: 0 <= i < |a + "." + b| ==> (a + "." + b)[i] !in {'e', 'E'}
  {
    var s := a + "." + b;
    forall i | 0 <= i < |s| ensures s[i] !in {'e', 'E'} {
      if i < |a| { assert s[i] == a[i]; } else if i > |a| { assert s[i] == b[i - |a| - 1]; }
    }
  }

  lemma UnsignedWithoutSign(s: string)
    requires |s| > 0 && s[0] != '-' && s[0] != '+'
    ensures ParseDecimal(s) == ParseUnsignedDecimal(s)
  {
  }

  /** Digits, a point and digits: the coefficient is all the digits, the exponent minus the fraction length. */
  lemma ParseDecimalOfPoint(a: string, b: string)
    requires AllDigits(a) && AllDigits(b) && |a| + |b| > 0
    ensures AllDigits(a + b)
    ensures ParseDecimal(a + "." + b) == Some(Decimal(false, DigitsToNat(a + b), -|b|))
  {
    var s := a + "." + b;
    AllDigitsAppend(a, b);
    PointNumberHasNoExponent(a, b);
    UnsignedWithoutExponent(s);
    CoefficientOfPoint(a, b);
    if |a| > 0 {
      assert s[0] == a[0];
    } else {
      assert s[0] == '.';
    }
    UnsignedWithoutSign(s);
  }

  /** A leading minus sign makes the decimal negative and leaves its coefficient and exponent as they are. */
  lemma ParseDecimalNegated(s: string)
    requires |s| > 0 && s[0] != '-' && s[0] != '+'
    ensures ParseDecimal("-" + s).Some? <==> ParseDecimal(s).Some?
    ensures ParseDecimal(s).Some? ==>
      ParseDecimal("-" + s) == Some(Decimal(true, ParseDecimal(s).value.coefficient, ParseDecimal(s).value.exponent))
  {
    assert ("-" + s)[1..] == s;
    UnsignedWithoutSign(s);
  }

  /**
   * `Decimal("-0.0")` keeps its sign: its sign, `as_tuple()` and text differ from those of
   * `Decimal("0.0")`, though the two have the same value and so compare equal in Python.
   */
  lemma NegativeZeroKept()
    ensures ParseDecimal("-0.0") == Some(Decimal(true, 0, -1))
    ensures ParseDecimal("-0.0") != ParseDecimal("0.0")
    ensures SignedCoefficient(ParseDecimal("-0.0").value) == SignedCoefficient(ParseDecimal("0.0").value)
    ensures ParseDecimal("-0.0").value.exponent == ParseDecimal("0.0").value.exponent
  {
    PointZeroParse();
    ParseDecimalNegated("0.0");
    assert "-" + "0.0" == "-0.0";
  }

  /** The characters that can occur in a finite decimal string: digits, signs, the point and `e`/`E`. */
  predicate IsDecimalChar(c: char)
  {
    IsDigit(c) || c == '+' || c == '-' || c == '.' || c == 'e' || c == 'E'
  }

  /** `int()` of an exponent rejects a text holding a character that is neither a sign nor a digit. */
  lemma ParseIntRejects(t: string, j: nat)
    requires j < |t| && !IsDecimalChar(t[j])
    ensures ParseInt(t) == None
  {
    if t[0] == '-' || t[0] == '+' {
      assert t[1..][j - 1] == t[j];
    }
  }

  /** A coefficient holding a character other than a digit or a point is rejected. */
  lemma CoefficientRejects(coeff: string, j: nat)
    requires j < |coeff| && !IsDecimalChar(coeff[j])
    ensures ParseCoefficient(coeff) == None
  {
    var dot := IndexOf(coeff, {'.'});
    if j < dot {
      assert coeff[..dot][j] == coeff[j];
    } else {
      assert coeff[dot + 1..][j - dot - 1] == coeff[j];
    }
  }

  lemma UnsignedRejects(body: string, j: nat)
    requires j < |body| && !IsDecimalChar(body[j])
    ensures ParseUnsignedDecimal(body) == None
  {
    var e := IndexOf(body, {'e', 'E'});
    if j < e {
      assert body[..e][j] == body[j];
      CoefficientRejects(body[..e], j);
    } else {
      assert body[e + 1..][j - e - 1] == body[j];
      ParseIntRejects(body[e + 1..], j - e - 1);
    }
  }

  /**
   * A printable ASCII character that no text `Decimal()` accepts can hold: not a digit, sign, point
   * or `e`/`E`, not whitespace or `_` (whitespace is stripped and underscores group digits), and
   * not a letter of `nan`, `snan`, `inf` or `infinity` in either case.
   */
  predicate IsForeignChar(c: char)
  {
    && '!' <= c <= '~'
    && !IsDecimalChar(c) && c != '_'
    && c !in {'n', 'N', 'a', 'A', 's', 'S', 'i', 'I', 'f', 'F', 't', 'T', 'y', 'Y'}
  }

  /**
   * `Decimal()` raises `InvalidOperation` on any string holding a foreign character: "N/A",
   * "1,5", "12%" and the like are all rejected, by Python as by the model.
   */
  lemma ForeignCharRejected(s: string, i: nat)
    requires i < |s| && IsForeignChar(s[i])
    ensures ParseDecimal(s) == None
    ensures ToDecimal(Str(s)) == OtherErr(InvalidOperation)
  {
    if |s| > 0 && (s[0] == '-' || s[0] == '+') {
      assert s[1..][i - 1] == s[i];
      UnsignedRejects(s[1..], i - 1);
    } else {
      UnsignedRejects(s, i);
    }
  }

  /** `int(d)` for a Decimal: truncation toward zero. */
  function Truncate(d: Decimal): (t: int)
    ensures t != 0 ==> (t < 0 <==> d.negative)
    ensures d.exponent >= 0 ==> t == SignedCoefficient(d) * Pow10(d.exponent)
    ensures d.exponent < 0 ==>
      var a := if t < 0 then -t else t;
      a * Pow10(-d.exponent) <= d.coefficient < (a + 1) * Pow10(-d.exponent)
  {
    if d.exponent >= 0 then SignedCoefficient(d) * Pow10(d.exponent)
    else
      var q := d.coefficient / Pow10(-d.exponent);
      DivBounds(d.coefficient, Pow10(-d.exponent));
      if d.negative then -q else q
  }

  /** Division of naturals rounds down: the quotient is the whole number of divisors in `c`. */
  lemma DivBounds(c: nat, p: nat)
    requires p >= 1
    ensures (c / p) * p <= c < (c / p + 1) * p
  {
  }

  /** `int(v)`. */
  function ToInt(v: Value): (r: Conversion)
    ensures r.Converted? ==> r.value.Int?
    ensures r.TypeErr? <==> v.Null? || v.Object?
    ensures r.OtherErr? <==> v.Str? && ParseInt(v.s).None?
    ensures r.OtherErr? ==> r.error == ValueError
    ensures v.Int? ==> r == Converted(v)
    ensures v.Str? && ParseInt(v.s).Some? ==> r == Converted(Int(ParseInt(v.s).value))
    ensures v.Bool? ==> r == Converted(Int(if v.b then 1 else 0))
    ensures v.Dec? ==> r == Converted(Int(Truncate(v.d)))
  {
    match v
    case Null => TypeErr
    case Bool(b) => Converted(Int(if b then 1 else 0))
    case Int(i) => Converted(Int(i))
    case Str(s) => (match ParseInt(s) case Some(n) => Converted(Int(n)) case None => OtherErr(ValueError))
    case Dec(d) => Converted(Int(Truncate(d)))
    case Object(_) => TypeErr
  }

  /** `decimal.Decimal(v)`. */
  function ToDecimal(v: Value): (r: Conversion)
    ensures r.Converted? ==> r.value.Dec?
    ensures r.TypeErr? <==> v.Null? || v.Object?
    ensures r.OtherErr? <==> v.Str? && ParseDecimal(v.s).None?
    ensures r.OtherErr? ==> r.error == InvalidOperation
    ensures v.Dec? ==> r == Converted(v)
    ensures v.Int? ==> r == Converted(Dec(FromInt(v.i)))
    ensures v.Bool? ==> r == Converted(Dec(FromInt(if v.b then 1 else 0)))
    ensures v.Str? && ParseDecimal(v.s).Some? ==> r == Converted(Dec(ParseDecimal(v.s).value))
  {
    match v
    case Null => TypeErr
    case Bool(b) => Converted(Dec(FromInt(if b then 1 else 0)))
    case Int(i) => Converted(Dec(FromInt(i)))
    case Str(s) => (match ParseDecimal(s) case Some(d) => Converted(Dec(d)) case None => OtherErr(InvalidOperation))
    case Dec(d) => Converted(Dec(d))
    case Object(_) => TypeErr
  }

  /** A string `int()` accepts, `Decimal()` accepts too, with the same value and exponent zero. */
  lemma ToDecimalAgreesWithToInt(s: string)
    requires ToInt(Str(s)).Converted?
    ensures var r := ToDecimal(Str(s));
      r.Converted? && SignedCoefficient(r.value.d) == ToInt(Str(s)).value.i && r.value.d.exponent == 0
  {
    ParseDecimalOfInteger(s, ParseInt(s).value);
  }

  /** The key the API nests its attribution details under; it is dropped from every row. */
  const AttrDependency := "attr_dependency"

  /** A key the data model does not declare is an additional metric, typed as Decimal. */
  function DeclaredType(types: map<string, TypeTag>, k: string): (t: TypeTag)
    ensures k in types ==> t == types[k]
    ensures k !in types ==> t == DecimalType
  {
    if k in types then types[k] else DecimalType
  }

  /** What the loop body does with the value of key `k`: `Converted(v)` untouched when the type is not numeric. */
  function Step(types: map<string, TypeTag>, k: string, v: Value): (c: Conversion)
    ensures !IsNumeric(DeclaredType(types, k)) ==> c == Converted(v)
    ensures DeclaredType(types, k) == IntType ==> c == ToInt(v)
    ensures DeclaredType(types, k) == DecimalType ==> c == ToDecimal(v)
  {
    match DeclaredType(types, k)
    case IntType => ToInt(v)
    case DecimalType => ToDecimal(v)
    case OtherType(_) => Converted(v)
  }

  /** The value left in the row after a step that did not raise: a `TypeError` keeps the old value. */
  function After(c: Conversion, v: Value): (w: Value)
    requires !c.OtherErr?
    ensures c.TypeErr? ==> w == v
    ensures c.Converted? ==> w == c.value
  {
    if c.Converted? then c.value else v
  }

  /** The index of the first key, in row order, whose conversion raises; |ks| when none does. */
  function FirstRaise(types: map<string, TypeTag>, ks: seq<string>, vs: map<string, Value>): (r: nat)
    requires forall i :: 0 <= i < |ks| ==> ks[i] in vs
    ensures r <= |ks|
    ensures forall j :: 0 <= j < r ==> !Step(types, ks[j], vs[ks[j]]).OtherErr?
    ensures r < |ks| ==> Step(types, ks[r], vs[ks[r]]).OtherErr?
  {
    if |ks| == 0 then 0
    else if Step(types, ks[0], vs[ks[0]]).OtherErr? then 0
    else 1 + FirstRaise(types, ks[1..], vs)
  }

  /** The row values once the keys `ks[..n]` have been converted, one at a time in order. */
  function CoercedUpTo(types: map<string, TypeTag>, ks: seq<string>, vs: map<string, Value>, n: nat)
    : (r: map<string, Value>)
    requires forall i :: 0 <= i < |ks| ==> ks[i] in vs
    requires n <= FirstRaise(types, ks, vs)
    ensures r.Keys == vs.Keys
  {
    if n == 0 then vs
    else
      var k := ks[n - 1];
      CoercedUpTo(types, ks, vs, n - 1)[k := After(Step(types, k, vs[k]), vs[k])]
  }

  /** After `n` steps, the keys among `ks[..n]` hold their converted value and every other key its original. */
  lemma {:induction false} CoercedUpToAt(types: map<string, TypeTag>, ks: seq<string>, vs: map<string, Value>,
                                         n: nat, k: string)
    requires forall i :: 0 <= i < |ks| ==> ks[i] in vs
    requires n <= FirstRaise(types, ks, vs) && k in vs
    ensures CoercedUpTo(types, ks, vs, n)[k]
      == if k in ks[..n] then After(Step(types, k, vs[k]), vs[k]) else vs[k]
  {
    if n > 0 {
      CoercedUpToAt(types, ks, vs, n - 1, k);
      assert ks[..n] == ks[..n - 1] + [ks[n - 1]];
    }
  }

  /** What a completed reshape leaves under each key, by the key's declared type. */
  lemma ReshapedValues(types: map<string, TypeTag>, ks: seq<string>, vs: map<string, Value>, k: string)
    requires forall i :: 0 <= i < |ks| ==> ks[i] in vs
    requires FirstRaise(types, ks, vs) == |ks| && k in ks
    ensures var w := CoercedUpTo(types, ks, vs, |ks|)[k];
      && (!IsNumeric(DeclaredType(types, k)) ==> w == vs[k])
      && (k !in types && ToDecimal(vs[k]).Converted? ==> w == ToDecimal(vs[k]).value)
      && (k !in types && vs[k].Str? && ParseDecimal(vs[k].s).Some? ==> w == Dec(ParseDecimal(vs[k].s).value))
      && (Step(types, k, vs[k]).TypeErr? ==> w == vs[k])
      && (DeclaredType(types, k) == IntType && vs[k].Str? ==> w == Int(ParseInt(vs[k].s).value))
  {
    CoercedUpToAt(types, ks, vs, |ks|, k);
    assert ks[..|ks|] == ks;
  }

  /** `int("N/A")` raises ValueError, which `_reshape` does not catch. */
  lemma NotANumberRaises()
    ensures Step(map["installs" := IntType], "installs", Str("N/A")) == OtherErr(ValueError)
  {
  }

  /**
   * An `"N/A"` under an additional metric (a key the data model does not declare) makes
   * `Decimal()` raise `InvalidOperation`, which `_reshape` does not catch either.
   */
  lemma DecimalNotANumberRaises()
    ensures Step(map[], "custom_x", Str("N/A")) == OtherErr(InvalidOperation)
  {
    ForeignCharRejected("N/A", 1);
  }

  /** A null value of a numeric field raises TypeError, so it stays in the row as it was. */
  lemma NullIsKept(types: map<string, TypeTag>, k: string)
    requires IsNumeric(DeclaredType(types, k))
    ensures Step(types, k, Null) == TypeErr && After(Step(types, k, Null), Null) == Null
  {
  }

  /**
   * `"installs": "10"` becomes `10` and `"network_cost": "0.0"` becomes `Decimal("0.0")` (positive,
   * coefficient 0, exponent -1); with `CoercedPair` this gives the whole converted row.
   */
  lemma ExampleRow()
    ensures var types := map["installs" := IntType, "network_cost" := DecimalType];
      && Step(types, "installs", Str("10")) == Converted(Int(10))
      && Step(types, "network_cost", Str("0.0")) == Converted(Dec(Decimal(false, 0, -1)))
  {
    TenText();
    PointZeroText();
  }

  /** A row of two keys, neither of which raises, ends with both converted. */
  lemma CoercedPair(types: map<string, TypeTag>, a: string, b: string, vs: map<string, Value>)
    requires a != b && vs.Keys == {a, b}
    requires !Step(types, a, vs[a]).OtherErr? && !Step(types, b, vs[b]).OtherErr?
    ensures FirstRaise(types, [a, b], vs) == 2
    ensures CoercedUpTo(types, [a, b], vs, 2)
      == map[a := After(Step(types, a, vs[a]), vs[a]), b := After(Step(types, b, vs[b]), vs[b])]
  {
    var ks := [a, b];
    var wa, wb := After(Step(types, a, vs[a]), vs[a]), After(Step(types, b, vs[b]), vs[b]);
    assert ks[1..] == [b];
    assert FirstRaise(types, [b], vs) == 1;
    assert CoercedUpTo(types, ks, vs, 1) == vs[a := wa];
    assert CoercedUpTo(types, ks, vs, 2) == vs[a := wa][b := wb];
    assert vs[a := wa][b := wb] == map[a := wa, b := wb];
  }

  lemma TenText()
    ensures ToInt(Str("10")) == Converted(Int(10))
  {
    assert DigitsToNat("10") == 10;
  }

  lemma PointZeroText()
    ensures ToDecimal(Str("0.0")) == Converted(Dec(Decimal(false, 0, -1)))
  {
    PointZeroParse();
  }

  lemma PointZeroParse()
    ensures ParseDecimal("0.0") == Some(Decimal(false, 0, -1))
  {
    ParseDecimalOfPoint("0", "0");
    assert "0" + "." + "0" == "0.0";
    assert DigitsToNat("0" + "0") == 0;
  }

  /**
   * Reaching key `ks[i]` in the scan: it still holds its original value, and it is the first
   * raising key exactly when its own conversion raises.
   */
  lemma ScanAt(types: map<string, TypeTag>, ks: seq<string>, vs: map<string, Value>, i: nat)
    requires forall j :: 0 <= j < |ks| ==> ks[j] in vs
    requires NoDuplicates(ks) && i < |ks| && i <= FirstRaise(types, ks, vs)
    ensures CoercedUpTo(types, ks, vs, i)[ks[i]] == vs[ks[i]]
    ensures Step(types, ks[i], vs[ks[i]]).OtherErr? <==> FirstRaise(types, ks, vs) == i
  {
    CoercedUpToAt(types, ks, vs, i, ks[i]);
    assert ks[i] !in ks[..i];
  }
}
