/** The activation functions of include/Activation.h and src/Activation.cpp:
    ReLU, the logistic sigmoid and a row-wise softmax, applied by an
    Activation object that keeps its last result in a cached buffer.
    std::exp is a parameter of the model (any everywhere-positive function);
    see README.md. */
module Activations {
  import opened Base
  import opened Matrices

  /** The exponential the transforms use: only its positivity is assumed. */
  type ExpFn = f: real -> real | forall x :: f(x) > 0.0 witness (x: real) => 1.0

  /** ActivationMethod. A loaded file may cast any int32 to the enum, so
      Other carries a code that names none of the four enumerators. */
  datatype ActivationMethod = ReLU | Sigmoid | Softmax | NONE | Other(code: int32)

  type Method = m: ActivationMethod | m.Other? ==> m.code < 0 || m.code > 3 witness ReLU

  /** The enumerator's underlying int32, as static_cast<int32_t> gives it. */
  function Code(m: Method): (c: int32)
    ensures 0 <= c <= 3 <==> !m.Other?
  {
    match m
    case ReLU => 0
    case Sigmoid => 1
    case Softmax => 2
    case NONE => 3
    case Other(code) => code
  }

  /** static_cast<ActivationMethod>(int32_t). */
  function FromCode(c: int32): (m: Method)
    ensures Code(m) == c
  {
    if c == 0 then ReLU
    else if c == 1 then Sigmoid
    else if c == 2 then Softmax
    else if c == 3 then NONE
    else Other(c)
  }

  /** The two casts are inverse to each other. */
  lemma CodeRoundTrip(m: Method)
    ensures FromCode(Code(m)) == m
  {
    match m
    case Other(code) =>
    case _ =>
  }

  /** The methods Activation::forward has a transform for. */
  predicate Supported(m: Method)
  {
    m.ReLU? || m.Sigmoid? || m.Softmax?
  }

  // ---------------------------------------------------------------------
  // The transforms, entry by entry
  // ---------------------------------------------------------------------

  /** std::max(0.0, x) */
  function Relu(x: real): (y: real)
    ensures y >= 0.0 && (x >= 0.0 ==> y == x) && (x <= 0.0 ==> y == 0.0)
  {
    if 0.0 < x then x else 0.0
  }

  /** 1 / (1 + exp(-x)) */
  function Logistic(exp: ExpFn, x: real): (y: real)
    ensures 0.0 < y < 1.0
  {
    1.0 / (1.0 + exp(-x))
  }

  /** std::max(a, b) */
  function Larger(a: real, b: real): (c: real)
    ensures c >= a && c >= b && (c == a || c == b)
  {
    if a < b then b else a
  }

  /** The running maximum of the first n entries of xs, started at init. */
  function MaxPrefix(xs: seq<real>, n: nat, init: real): real
    requires n <= |xs|
  {
    if n == 0 then init else Larger(MaxPrefix(xs, n - 1, init), xs[n - 1])
  }

  /** The largest entry of a non-empty row, which the softmax subtracts. */
  function Max(xs: seq<real>): real
    requires 0 < |xs|
  {
    MaxPrefix(xs, |xs|, xs[0])
  }

  lemma {:induction false} MaxPrefixBounds(xs: seq<real>, n: nat, init: real)
    requires n <= |xs|
    ensures MaxPrefix(xs, n, init) >= init
    ensures forall j :: 0 <= j < n ==> xs[j] <= MaxPrefix(xs, n, init)
    ensures MaxPrefix(xs, n, init) == init || exists j :: 0 <= j < n && MaxPrefix(xs, n, init) == xs[j]
  {
    if n > 0 {
      MaxPrefixBounds(xs, n - 1, init);
    }
  }

  /** Max is an entry of the row and no entry exceeds it. */
  lemma MaxIsMaximum(xs: seq<real>)
    requires 0 < |xs|
    ensures forall j :: 0 <= j < |xs| ==> xs[j] <= Max(xs)
    ensures exists j :: 0 <= j < |xs| && Max(xs) == xs[j]
  {
    MaxPrefixBounds(xs, |xs|, xs[0]);
  }

  /** exp(x - shift), the softmax's stabilised exponential. */
  function Shifted(exp: ExpFn, x: real, shift: real): (y: real)
    ensures y > 0.0
  {
    exp(x - shift)
  }

  /** Sum over j < n of exp(xs[j] - shift), accumulated left to right. */
  function ExpSum(exp: ExpFn, xs: seq<real>, shift: real, n: nat): (s: real)
    requires n <= |xs|
    ensures s >= 0.0 && (n > 0 ==> s > 0.0)
  {
    if n == 0 then 0.0 else ExpSum(exp, xs, shift, n - 1) + Shifted(exp, xs[n - 1], shift)
  }

  /** Softmax of entry j of a row: its shifted exponential over the
      row's sum of shifted exponentials. */
  function SoftmaxOf(exp: ExpFn, xs: seq<real>, j: nat): real
    requires j < |xs|
  {
    Shifted(exp, xs[j], Max(xs)) / ExpSum(exp, xs, Max(xs), |xs|)
  }

  /** Softmax of entry (i, j) of a matrix, row by row. */
  function SoftmaxAt(exp: ExpFn, m: Matrix, i: nat, j: nat): real
    requires i < m.rows && j < m.cols
  {
    SoftmaxOf(exp, Row(m, i), j)
  }

  /** The value a supported kind gives entry (i, j) of its input. */
  function EntryAt(kind: Method, exp: ExpFn, m: Matrix, i: nat, j: nat): real
    requires Supported(kind) && i < m.rows && j < m.cols
  {
    match kind
    case ReLU => Relu(At(m, i, j))
    case Sigmoid => Logistic(exp, At(m, i, j))
    case Softmax => SoftmaxAt(exp, m, i, j)
  }

  /** The transformed matrix, as a value. */
  function Activated(kind: Method, exp: ExpFn, m: Matrix): (r: Matrix)
    requires Supported(kind)
    ensures r.rows == m.rows && r.cols == m.cols
  {
    Mat(m.rows, m.cols,
        seq(m.rows, i requires 0 <= i < m.rows =>
          seq(m.cols, j requires 0 <= j < m.cols => EntryAt(kind, exp, m, i, j))))
  }

  /** Activation::forward as a value: the transform of a supported kind,
      UnsupportedActivation for NONE and for unknown codes. */
  function Apply(kind: Method, exp: ExpFn, input: Matrix): (r: Result<Matrix>)
    ensures r.Err? <==> !Supported(kind)
    ensures r.Err? ==> r.error == UnsupportedActivation
    ensures r.Ok? ==> r.value.rows == input.rows && r.value.cols == input.cols
  {
    if Supported(kind) then Ok(Activated(kind, exp, input)) else Err(UnsupportedActivation)
  }

  /** The cached buffer after the size check at the top of forward: kept
      when it exists with the input's shape, otherwise a fresh zero matrix. */
  function Realloc(cache: Option<Matrix>, rows: nat, cols: nat): (b: Matrix)
    ensures b.rows == rows && b.cols == cols
  {
    if cache.Some? && cache.value.rows == rows && cache.value.cols == cols then cache.value
    else Zeros(rows, cols)
  }

  /** The cache after forward: the result on success; on failure the
      buffer the size check left behind. */
  function CacheAfter(cache: Option<Matrix>, kind: Method, exp: ExpFn, input: Matrix): (c: Option<Matrix>)
    ensures c.Some? && c.value.rows == input.rows && c.value.cols == input.cols
    ensures Supported(kind) ==> c == Some(Apply(kind, exp, input).value)
  {
    if Supported(kind) then Some(Activated(kind, exp, input))
    else Some(Realloc(cache, input.rows, input.cols))
  }

  // ---------------------------------------------------------------------
  // What the transforms guarantee
  // ---------------------------------------------------------------------

  /** ReLU output is non-negative, keeps non-negative entries and zeroes
      the negative ones. */
  lemma ReluOutput(exp: ExpFn, input: Matrix, i: nat, j: nat)
    requires i < input.rows && j < input.cols
    ensures Apply(ReLU, exp, input).Ok?
    ensures var y := At(Apply(ReLU, exp, input).value, i, j);
            y >= 0.0 && (At(input, i, j) >= 0.0 ==> y == At(input, i, j)) &&
            (At(input, i, j) < 0.0 ==> y == 0.0)
  {}

  /** Sigmoid output lies strictly between 0 and 1. */
  lemma SigmoidOutput(exp: ExpFn, input: Matrix, i: nat, j: nat)
    requires i < input.rows && j < input.cols
    ensures Apply(Sigmoid, exp, input).Ok?
    ensures 0.0 < At(Apply(Sigmoid, exp, input).value, i, j) < 1.0
  {
  }

  /** Sum of the first n entries, accumulated left to right. */
  function Total(ys: seq<real>, n: nat): real
    requires n <= |ys|
  {
    if n == 0 then 0.0 else Total(ys, n - 1) + ys[n - 1]
  }

  /** Every entry divided by d. */
  function Scaled(ys: seq<real>, d: real): (zs: seq<real>)
    requires d != 0.0
    ensures |zs| == |ys| && forall j :: 0 <= j < |ys| ==> zs[j] == ys[j] / d
  {
    seq(|ys|, j requires 0 <= j < |ys| => ys[j] / d)
  }

  /** The shifted exponentials of a row. */
  function Exps(exp: ExpFn, xs: seq<real>, shift: real): (es: seq<real>)
    ensures |es| == |xs| && forall j :: 0 <= j < |xs| ==> es[j] == Shifted(exp, xs[j], shift)
  {
    seq(|xs|, j requires 0 <= j < |xs| => Shifted(exp, xs[j], shift))
  }

  /** The softmax of a non-empty row. */
  function SoftmaxVector(exp: ExpFn, xs: seq<real>): (ps: seq<real>)
    requires 0 < |xs|
    ensures |ps| == |xs| && forall j :: 0 <= j < |xs| ==> ps[j] == SoftmaxOf(exp, xs, j)
  {
    seq(|xs|, j requires 0 <= j < |xs| => SoftmaxOf(exp, xs, j))
  }

  /** One step of summing quotients with a common denominator. */
  lemma QuotientStep(sum: real, term: real, prefix: real, e: real, d: real)
    requires d != 0.0 && sum == prefix / d && term == e / d
    ensures sum + term == (prefix + e) / d
  {}

  lemma DivSelf(d: real)
    requires d != 0.0
    ensures d / d == 1.0
  {}

  lemma DivUnitInterval(a: real, d: real)
    requires 0.0 < a <= d
    ensures 0.0 < a / d <= 1.0
  {}

  /** Dividing every entry by d divides the sum by d. */
  lemma {:induction false} ScaledTotal(ys: seq<real>, d: real, n: nat)
    requires d != 0.0 && n <= |ys|
    ensures Total(Scaled(ys, d), n) == Total(ys, n) / d
  {
    if n > 0 {
      ScaledTotal(ys, d, n - 1);
      QuotientStep(Total(Scaled(ys, d), n - 1), Scaled(ys, d)[n - 1], Total(ys, n - 1), ys[n - 1], d);
    }
  }

  lemma {:induction false} ExpSumIsTotal(exp: ExpFn, xs: seq<real>, shift: real, n: nat)
    requires n <= |xs|
    ensures ExpSum(exp, xs, shift, n) == Total(Exps(exp, xs, shift), n)
  {
    if n > 0 {
      ExpSumIsTotal(exp, xs, shift, n - 1);
    }
  }

  /** The softmax of a non-empty row is a probability distribution: each
      entry lies in (0, 1] and they sum to 1. */
  lemma SoftmaxIsDistribution(exp: ExpFn, xs: seq<real>)
    requires 0 < |xs|
    ensures forall j :: 0 <= j < |xs| ==> 0.0 < SoftmaxVector(exp, xs)[j] <= 1.0
    ensures Total(SoftmaxVector(exp, xs), |xs|) == 1.0
  {
    forall j | 0 <= j < |xs|
      ensures 0.0 < SoftmaxOf(exp, xs, j) <= 1.0
    {
      SoftmaxEntryInUnitInterval(exp, xs, j);
    }
    SoftmaxSumsToOne(exp, xs);
  }

  lemma SoftmaxEntryInUnitInterval(exp: ExpFn, xs: seq<real>, j: nat)
    requires j < |xs|
    ensures 0.0 < SoftmaxOf(exp, xs, j) <= 1.0
  {
    ExpSumCovers(exp, xs, Max(xs), |xs|, j);
    DivUnitInterval(Shifted(exp, xs[j], Max(xs)), ExpSum(exp, xs, Max(xs), |xs|));
  }

  lemma SoftmaxSumsToOne(exp: ExpFn, xs: seq<real>)
    requires 0 < |xs|
    ensures Total(SoftmaxVector(exp, xs), |xs|) == 1.0
  {
    var total := ExpSum(exp, xs, Max(xs), |xs|);
    var es := Exps(exp, xs, Max(xs));
    assert SoftmaxVector(exp, xs) == Scaled(es, total);
    ScaledTotal(es, total, |xs|);
    ExpSumIsTotal(exp, xs, Max(xs), |xs|);
    DivSelf(total);
  }

  /** Every row of a forward softmax is a probability distribution. */
  lemma SoftmaxRowIsDistribution(exp: ExpFn, input: Matrix, i: nat)
    requires i < input.rows && 0 < input.cols
    ensures Apply(Softmax, exp, input).Ok?
    ensures var out := Apply(Softmax, exp, input).value;
            && (forall j: nat :: j < input.cols ==> 0.0 < At(out, i, j) <= 1.0)
            && Total(Row(out, i), input.cols) == 1.0
  {
    var out := Activated(Softmax, exp, input);
    assert Row(out, i) == SoftmaxVector(exp, Row(input, i));
    SoftmaxIsDistribution(exp, Row(input, i));
  }

  /** Each term of an exponential sum is at most the sum. */
  lemma {:induction false} ExpSumCovers(exp: ExpFn, xs: seq<real>, shift: real, n: nat, j: nat)
    requires n <= |xs| && j < n
    ensures Shifted(exp, xs[j], shift) <= ExpSum(exp, xs, shift, n)
  {
    if j < n - 1 {
      ExpSumCovers(exp, xs, shift, n - 1, j);
    }
  }

  /** The softmax only ever exponentiates non-positive numbers (the
      numerical-stability shift). */
  lemma SoftmaxShiftNonPositive(input: Matrix, i: nat, j: nat)
    requires i < input.rows && j < input.cols
    ensures At(input, i, j) - Max(Row(input, i)) <= 0.0
  {
    MaxIsMaximum(Row(input, i));
  }

  // ---------------------------------------------------------------------
  // The loops of Activation::forward, one per transform
  // ---------------------------------------------------------------------

  /** The ReLU loop nest, writing into a buffer of the input's shape. */
  method ReluLoop(exp: ExpFn, input: Matrix, buffer: Matrix) returns (out: Matrix)
    requires buffer.rows == input.rows && buffer.cols == input.cols
    ensures out == Activated(ReLU, exp, input)
  {
    out := buffer;
    for i := 0 to input.rows
      invariant out.rows == input.rows && out.cols == input.cols
      invariant forall a: nat, b: nat :: a < i && b < input.cols ==> At(out, a, b) == Relu(At(input, a, b))
    {
      for j := 0 to input.cols
        invariant out.rows == input.rows && out.cols == input.cols
        invariant forall a: nat, b: nat :: (a < i || (a == i && b < j)) && b < input.cols ==>
                    At(out, a, b) == Relu(At(input, a, b))
      {
        var value := At(input, i, j);
        out := Set(out, i, j, Larger(0.0, value));
      }
    }
    Extensionality(out, Activated(ReLU, exp, input));
  }

  /** The sigmoid loop nest. */
  method SigmoidLoop(exp: ExpFn, input: Matrix, buffer: Matrix) returns (out: Matrix)
    requires buffer.rows == input.rows && buffer.cols == input.cols
    ensures out == Activated(Sigmoid, exp, input)
  {
    out := buffer;
    for i := 0 to input.rows
      invariant out.rows == input.rows && out.cols == input.cols
      invariant forall a: nat, b: nat :: a < i && b < input.cols ==>
                  At(out, a, b) == Logistic(exp, At(input, a, b))
    {
      for j := 0 to input.cols
        invariant out.rows == input.rows && out.cols == input.cols
        invariant forall a: nat, b: nat :: (a < i || (a == i && b < j)) && b < input.cols ==>
                    At(out, a, b) == Logistic(exp, At(input, a, b))
      {
        var value := At(input, i, j);
        out := Set(out, i, j, 1.0 / (1.0 + exp(-value)));
      }
    }
    Extensionality(out, Activated(Sigmoid, exp, input));
  }

  /** The first softmax loop: the running maximum of row i. The C++ code
      starts it at minus infinity; starting at the row's first entry gives
      the same maximum. */
  method RowMaximum(input: Matrix, i: nat) returns (maxVal: real)
    requires i < input.rows && 0 < input.cols
    ensures maxVal == Max(Row(input, i))
    ensures forall j: nat :: j < input.cols ==> At(input, i, j) <= maxVal
  {
    ghost var row := Row(input, i);
    maxVal := At(input, i, 0);
    for j := 0 to input.cols
      invariant maxVal == MaxPrefix(row, j, row[0])
    {
      maxVal := Larger(maxVal, At(input, i, j));
    }
    MaxIsMaximum(row);
  }

  /** The second softmax loop: row i of the buffer receives the shifted
      exponentials, whose sum is returned. */
  method ShiftedExponentials(exp: ExpFn, input: Matrix, buffer: Matrix, i: nat, maxVal: real)
    returns (out: Matrix, sumExp: real)
    requires i < input.rows
    requires buffer.rows == input.rows && buffer.cols == input.cols
    ensures out.rows == input.rows && out.cols == input.cols
    ensures sumExp == ExpSum(exp, Row(input, i), maxVal, input.cols)
    ensures forall b: nat :: b < input.cols ==> At(out, i, b) == Shifted(exp, At(input, i, b), maxVal)
    ensures forall a: nat, b: nat :: a < input.rows && a != i && b < input.cols ==>
              At(out, a, b) == At(buffer, a, b)
  {
    ghost var row := Row(input, i);
    out := buffer;
    sumExp := 0.0;
    for j := 0 to input.cols
      invariant out.rows == input.rows && out.cols == input.cols
      invariant sumExp == ExpSum(exp, row, maxVal, j)
      invariant forall b: nat :: b < j ==> At(out, i, b) == Shifted(exp, At(input, i, b), maxVal)
      invariant forall a: nat, b: nat :: a < input.rows && a != i && b < input.cols ==>
                  At(out, a, b) == At(buffer, a, b)
    {
      out := Set(out, i, j, exp(At(input, i, j) - maxVal));
      sumExp := sumExp + At(out, i, j);
    }
  }

  /** The third softmax loop: row i of the buffer is divided in place by
      the sum of its entries' exponentials. */
  method DivideRow(buffer: Matrix, i: nat, sumExp: real) returns (out: Matrix)
    requires i < buffer.rows && sumExp != 0.0
    ensures out.rows == buffer.rows && out.cols == buffer.cols
    ensures forall b: nat :: b < buffer.cols ==> At(out, i, b) == At(buffer, i, b) / sumExp
    ensures forall a: nat, b: nat :: a < buffer.rows && a != i && b < buffer.cols ==>
              At(out, a, b) == At(buffer, a, b)
  {
    out := buffer;
    for j := 0 to buffer.cols
      invariant out.rows == buffer.rows && out.cols == buffer.cols
      invariant forall b: nat :: b < j ==> At(out, i, b) == At(buffer, i, b) / sumExp
      invariant forall b: nat :: j <= b < buffer.cols ==> At(out, i, b) == At(buffer, i, b)
      invariant forall a: nat, b: nat :: a < buffer.rows && a != i && b < buffer.cols ==>
                  At(out, a, b) == At(buffer, a, b)
    {
      out := Set(out, i, j, At(out, i, j) / sumExp);
    }
  }

  /** The softmax of one row: maximum, shifted exponentials and their sum,
      then the division; the other rows keep their values. */
  method SoftmaxRow(exp: ExpFn, input: Matrix, buffer: Matrix, i: nat) returns (out: Matrix)
    requires i < input.rows
    requires buffer.rows == input.rows && buffer.cols == input.cols
    ensures out.rows == input.rows && out.cols == input.cols
    ensures forall b: nat :: b < input.cols ==> At(out, i, b) == SoftmaxAt(exp, input, i, b)
    ensures forall a: nat, b: nat :: a < input.rows && a != i && b < input.cols ==>
              At(out, a, b) == At(buffer, a, b)
  {
    if input.cols == 0 {
      return buffer;
    }
    var maxVal := RowMaximum(input, i);
    var exps, sumExp := ShiftedExponentials(exp, input, buffer, i, maxVal);
    out := DivideRow(exps, i, sumExp);
  }

  /** The softmax loop nest: one row at a time. */
  method SoftmaxLoop(exp: ExpFn, input: Matrix, buffer: Matrix) returns (out: Matrix)
    requires buffer.rows == input.rows && buffer.cols == input.cols
    ensures out == Activated(Softmax, exp, input)
  {
    out := buffer;
    for i := 0 to input.rows
      invariant out.rows == input.rows && out.cols == input.cols
      invariant forall a: nat, b: nat :: a < i && b < input.cols ==> At(out, a, b) == SoftmaxAt(exp, input, a, b)
    {
      out := SoftmaxRow(exp, input, out, i);
    }
    Extensionality(out, Activated(Softmax, exp, input));
  }

  // ---------------------------------------------------------------------
  // The Activation object
  // ---------------------------------------------------------------------

  class Activation {
    var kind: Method
    /** m_output: the buffer forward writes into, absent until first use. */
    var cache: Option<Matrix>

    constructor(m: Method)
      ensures kind == m && cache == None
    {
      kind := m;
      cache := None;
    }

    /** getActivationMethod */
    method GetActivationMethod() returns (m: Method)
      ensures m == kind
    {
      return kind;
    }

    /** setActivationMethod: replaces the method, drops the cached buffer
      and returns the new kind. */
    method SetActivationMethod(m: Method) returns (r: Method)
      modifies this
      ensures kind == m && cache == None && r == m
    {
      kind := m;
      cache := None;
      return kind;
    }

    /** toString: the enumerator's name for the three transforms,
        "Unknown" for everything else. */
    function ToString(): (s: string)
      reads this
      ensures s == "Unknown" <==> !Supported(kind)
      ensures s == "ReLU" <==> kind == ReLU
      ensures s == "Sigmoid" <==> kind == Sigmoid
      ensures s == "Softmax" <==> kind == Softmax
    {
      match kind
      case ReLU => "ReLU"
      case Sigmoid => "Sigmoid"
      case Softmax => "Softmax"
      case _ => "Unknown"
    }

    /** forward: (re)allocate the buffer to the input's shape, then apply
        the transform; NONE and unknown codes fail after the allocation. */
    method Forward(exp: ExpFn, input: Matrix) returns (r: Result<Matrix>)
      modifies this
      ensures kind == old(kind)
      ensures r == Apply(kind, exp, input)
      ensures cache == CacheAfter(old(cache), kind, exp, input)
    {
      var buffer := Realloc(cache, input.rows, input.cols);
      cache := Some(buffer);
      var out: Matrix;
      match kind {
        case ReLU =>
          out := ReluLoop(exp, input, buffer);
        case Sigmoid =>
          out := SigmoidLoop(exp, input, buffer);
        case Softmax =>
          out := SoftmaxLoop(exp, input, buffer);
        case _ =>
          return Err(UnsupportedActivation);
      }
      cache := Some(out);
      return Ok(out);
    }
  }
}
