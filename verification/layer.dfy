/** A fully connected layer (LayerDense): weights nIn x nOut, a 1 x nOut
    bias row, an owned Activation and the output buffer forward fills,
    together with the byte frame save and load use. */
module Layers {
  import opened Base
  import opened Matrices
  import opened Activations
  import opened Codec

  /** What a layer persists and computes with: the activation kind, the
      weights and the biases. */
  datatype Params = Params(kind: Method, weights: Matrix, biases: Matrix)

  // ---------------------------------------------------------------------
  // forward, as values
  // ---------------------------------------------------------------------

  /** inputs * W + b, or the reason it cannot be formed: ShapeMismatch when
      the input width is not the weight height (checked first), otherwise
      whatever Matrix::add reports for the bias. */
  function PreActivation(p: Params, input: Matrix): (r: Result<Matrix>)
    ensures input.cols != p.weights.rows ==> r == Err(ShapeMismatch)
    ensures r.Ok? ==> r.value.rows == input.rows && r.value.cols == p.weights.cols
  {
    if input.cols != p.weights.rows then Err(ShapeMismatch)
    else Sum(Product(input, p.weights), p.biases)
  }

  /** act(inputs * W + b), or the first failure on the way. */
  function LayerOutput(p: Params, exp: ExpFn, input: Matrix): (r: Result<Matrix>)
    ensures r.Ok? <==> PreActivation(p, input).Ok? && Supported(p.kind)
    ensures r.Ok? ==> r.value.rows == input.rows && r.value.cols == p.weights.cols
  {
    match PreActivation(p, input)
    case Err(e) => Err(e)
    case Ok(z) => Apply(p.kind, exp, z)
  }

  /** The scratch state forward writes: the layer's output buffer and its
      activation's cache. */
  datatype Buffers = Buffers(output: Option<Matrix>, cache: Option<Matrix>)

  /** The buffers after forward(input) on a layer whose persisted state is
      p and whose buffers were prev. The output is untouched when the input
      width is not the weight height, the result on success, and otherwise
      the buffer reallocated to input.rows x biases.cols; the cache is
      untouched unless the product and the bias sum succeed, and then as
      Activation::forward leaves it. */
  function AfterForward(p: Params, exp: ExpFn, input: Matrix, prev: Buffers): Buffers
  {
    var output :=
      if input.cols != p.weights.rows then prev.output
      else if LayerOutput(p, exp, input).Ok? then Some(LayerOutput(p, exp, input).value)
      else Some(Realloc(prev.output, input.rows, p.biases.cols));
    var cache :=
      match PreActivation(p, input)
      case Err(_) => prev.cache
      case Ok(z) => CacheAfter(prev.cache, p.kind, exp, z);
    Buffers(output, cache)
  }

  /** Entry (i, j) of a successful forward pass is the activation applied
      to (inputs * W)(i, j) + b(i or 0, j). */
  lemma LayerOutputEntries(p: Params, exp: ExpFn, input: Matrix, i: nat, j: nat)
    requires LayerOutput(p, exp, input).Ok?
    requires i < input.rows && j < p.weights.cols
    ensures input.cols == p.weights.rows
    ensures BroadcastRow(p.biases, i) < p.biases.rows && j < p.biases.cols
    ensures var z := PreActivation(p, input).value;
            At(z, i, j) == Dot(input, p.weights, i, j, input.cols) + At(p.biases, BroadcastRow(p.biases, i), j)
            && At(LayerOutput(p, exp, input).value, i, j) == EntryAt(p.kind, exp, z, i, j)
  {}

  // ---------------------------------------------------------------------
  // The save frame
  // ---------------------------------------------------------------------

  /** The int32 casts in save keep every size it writes. */
  predicate Persistable(p: Params)
  {
    && p.weights.rows < 0x8000_0000 && p.weights.cols < 0x8000_0000
    && p.weights.rows * p.weights.cols < 0x8000_0000
    && p.biases.rows < 0x8000_0000 && p.biases.cols < 0x8000_0000
  }

  /** Tag 0x10, the activation code, the weight shape and the weights in
      row-major order: the part of the frame that load reads back intact. */
  function HeadFrame(codec: F64Codec, p: Params): (b: seq<byte>)
    requires Persistable(p)
    ensures |b| >= 13 && b[0] == 0x10
  {
    [0x10] + I32(Code(p.kind)) + I32(p.weights.rows) + I32(p.weights.cols) + F64s(codec, Data(p.weights))
  }

  /** The bias part as save writes it: the bias row count, then that many
      doubles from the start of the bias buffer. */
  function BiasFrame(codec: F64Codec, b: Matrix): (f: seq<byte>)
    requires b.rows < 0x8000_0000 && b.rows <= |Data(b)|
  {
    I32(b.rows) + F64s(codec, Data(b)[..b.rows])
  }

  /** The whole frame save writes for a layer. */
  function Frame(codec: F64Codec, p: Params): (b: seq<byte>)
    requires Persistable(p) && p.biases.rows <= |Data(p.biases)|
    ensures |b| >= 17 && b[0] == 0x10
  {
    HeadFrame(codec, p) + BiasFrame(codec, p.biases)
  }

  /** The number of entries of a rows x cols matrix. */
  function Area(rows: nat, cols: nat): nat
  {
    rows * cols
  }

  /** The kind, shape and weights at the front of a layer frame, read as
      load reads them. A wrong tag is CorruptFormat; a stream that ends
      early or a negative dimension is Malformed (the C++ code checks
      neither and goes on with garbage). */
  function ReadHead(codec: F64Codec, s: seq<byte>): (r: Result<Parsed<(Method, Matrix)>>)
    ensures r.Err? ==> r.error == CorruptFormat || r.error == Malformed
    ensures r.Err? && r.error == CorruptFormat <==> |s| > 0 && s[0] != 0x10
    ensures r.Ok? ==> |r.value.rest| < |s|
  {
    if |s| == 0 then Err(Malformed)
    else if s[0] != 0x10 then Err(CorruptFormat)
    else if |s| < 13 then Err(Malformed)
    else
      var code, rows, cols := ReadI32(s[1..]), ReadI32(s[5..]), ReadI32(s[9..]);
      if rows < 0 || cols < 0 then Err(Malformed)
      else
        var n := Area(rows, cols);
        if |s| - 13 < 8 * n then Err(Malformed)
        else
          var w := FromData(rows, cols, ReadF64s(codec, s[13..], n));
          Ok(Parsed((FromCode(code), w), s[13 + 8 * n..]))
  }

  /** The bias as load rebuilds it: a row count, then that many doubles,
      placed in a rows x 1 column. */
  function ReadBias(codec: F64Codec, s: seq<byte>): (r: Result<Parsed<Matrix>>)
    ensures r.Err? ==> r.error == Malformed
    ensures r.Ok? ==> r.value.value.cols == 1 && |r.value.rest| < |s|
  {
    if |s| < 4 then Err(Malformed)
    else
      var rows := ReadI32(s);
      if rows < 0 || |s| - 4 < 8 * rows then Err(Malformed)
      else Ok(Parsed(FromData(rows, 1, ReadF64s(codec, s[4..], rows)), s[4 + 8 * rows..]))
  }

  /** A layer frame read as load reads it. */
  function ParseLayer(codec: F64Codec, s: seq<byte>): (r: Result<Parsed<Params>>)
    ensures r.Err? ==> r.error == CorruptFormat || r.error == Malformed
    ensures r.Err? && r.error == CorruptFormat <==> |s| > 0 && s[0] != 0x10
    ensures r.Ok? ==> |r.value.rest| < |s|
  {
    match ReadHead(codec, s)
    case Err(e) => Err(e)
    case Ok(Parsed((kind, w), rest)) =>
      match ReadBias(codec, rest)
      case Err(e) => Err(e)
      case Ok(Parsed(b, rest')) => Ok(Parsed(Params(kind, w, b), rest'))
  }

  /** Every entry of a buffer survives the double codec. */
  predicate AllExact(codec: F64Codec, xs: seq<real>)
  {
    forall k :: 0 <= k < |xs| ==> Exact(codec, xs[k])
  }

  /** The doubles save writes for p survive the codec. */
  predicate Representable(codec: F64Codec, p: Params)
    requires p.biases.rows <= |Data(p.biases)|
  {
    AllExact(codec, Data(p.weights)) && AllExact(codec, Data(p.biases)[..p.biases.rows])
  }

  lemma {:induction false} HeadRoundTrip(codec: F64Codec, p: Params, rest: seq<byte>)
    requires Persistable(p) && AllExact(codec, Data(p.weights))
    ensures ReadHead(codec, HeadFrame(codec, p) + rest) == Ok(Parsed((p.kind, p.weights), rest))
  {
    var w := p.weights;
    var n := Area(w.rows, w.cols);
    var data := F64s(codec, Data(w));
    var s := HeadFrame(codec, p) + rest;
    assert s[1..] == I32(Code(p.kind)) + (s[5..]);
    assert s[5..] == I32(w.rows) + (s[9..]);
    assert s[9..] == I32(w.cols) + (s[13..]);
    assert s[13..] == data + rest;
    I32RoundTrip(Code(p.kind), s[5..]);
    I32RoundTrip(w.rows, s[9..]);
    I32RoundTrip(w.cols, s[13..]);
    CodeRoundTrip(p.kind);
    F64sRoundTrip(codec, Data(w), rest);
    FromDataOfData(w);
    assert s[13 + 8 * n..] == rest;
  }

  lemma {:induction false} BiasRoundTrip(codec: F64Codec, b: Matrix, rest: seq<byte>)
    requires b.rows < 0x8000_0000 && b.rows <= |Data(b)|
    requires AllExact(codec, Data(b)[..b.rows])
    ensures ReadBias(codec, BiasFrame(codec, b) + rest)
         == Ok(Parsed(FromData(b.rows, 1, Data(b)[..b.rows]), rest))
  {
    var s := BiasFrame(codec, b) + rest;
    var kept := Data(b)[..b.rows];
    assert s[4..] == F64s(codec, kept) + rest;
    I32RoundTrip(b.rows, s[4..]);
    assert ReadI32(s) == b.rows;
    F64sRoundTrip(codec, kept, rest);
    assert ReadF64s(codec, s[4..], b.rows) == kept;
    assert s[4 + 8 * b.rows..] == rest;
  }

  /** save followed by load, as the code is written: the activation kind
      and the weights come back exactly, but the bias comes back as a
      b.rows x 1 column holding the first b.rows entries of the bias
      buffer. */
  lemma SaveLoadAsWritten(codec: F64Codec, p: Params, rest: seq<byte>)
    requires Persistable(p) && p.biases.rows <= |Data(p.biases)|
    requires Representable(codec, p)
    ensures ParseLayer(codec, Frame(codec, p) + rest)
         == Ok(Parsed(Params(p.kind, p.weights, FromData(p.biases.rows, 1, Data(p.biases)[..p.biases.rows])), rest))
  {
    var head := HeadFrame(codec, p);
    var bias := BiasFrame(codec, p.biases);
    assert Frame(codec, p) + rest == head + (bias + rest);
    HeadRoundTrip(codec, p, bias + rest);
    BiasRoundTrip(codec, p.biases, rest);
  }

  /** For the 1 x n bias row every constructed layer has, the reloaded bias
      is the 1 x 1 matrix holding b(0, 0): the other n - 1 entries are lost. */
  lemma BiasRowTruncated(codec: F64Codec, p: Params, rest: seq<byte>)
    requires Persistable(p) && p.biases.rows == 1 && p.biases.cols >= 1
    requires Representable(codec, p)
    ensures ParseLayer(codec, Frame(codec, p) + rest).Ok?
    ensures var b := ParseLayer(codec, Frame(codec, p) + rest).value.value.biases;
            b.rows == 1 && b.cols == 1 && At(b, 0, 0) == At(p.biases, 0, 0)
  {
    SaveLoadAsWritten(codec, p, rest);
    DataAt(p.biases, 0, 0);
    var b := FromData(1, 1, Data(p.biases)[..1]);
    DataAt(b, 0, 0);
  }

  /** A layer with two or more neurons cannot run forward after the round
      trip: the one-column bias is narrower than inputs * W, so
      Matrix::add reads past it, for every non-empty input the original
      layer accepts. */
  lemma ReloadedLayerReadsPastBias(codec: F64Codec, p: Params, rest: seq<byte>, exp: ExpFn, input: Matrix)
    requires Persistable(p) && p.biases.rows == 1 && p.biases.cols >= 1
    requires Representable(codec, p)
    requires p.weights.cols >= 2 && input.rows > 0 && input.cols == p.weights.rows
    ensures ParseLayer(codec, Frame(codec, p) + rest).Ok?
    ensures LayerOutput(ParseLayer(codec, Frame(codec, p) + rest).value.value, exp, input) == Err(UndefinedRead)
  {
    BiasRowTruncated(codec, p, rest);
    var q := ParseLayer(codec, Frame(codec, p) + rest).value.value;
    assert q.weights == p.weights by { SaveLoadAsWritten(codec, p, rest); }
    var z := Product(input, q.weights);
    assert PreActivation(q, input) == Sum(z, q.biases);
    assert Sum(z, q.biases) == Err(UndefinedRead);
  }

  // ---------------------------------------------------------------------
  // The bias frame as evidently intended
  // ---------------------------------------------------------------------

  /** The bias part with the count of bias entries (b.cols for the 1 x n
      row) and all of them, so that load can rebuild the row. */
  function FullBiasFrame(codec: F64Codec, b: Matrix): (f: seq<byte>)
    requires b.rows == 1 && b.cols < 0x8000_0000
  {
    I32(b.cols) + F64s(codec, Data(b))
  }

  /** The bias read back as the 1 x count row it was written from. */
  function ReadFullBias(codec: F64Codec, s: seq<byte>): (r: Result<Parsed<Matrix>>)
    ensures r.Err? ==> r.error == Malformed
    ensures r.Ok? ==> r.value.value.rows == 1 && |r.value.rest| < |s|
  {
    if |s| < 4 then Err(Malformed)
    else
      var cols := ReadI32(s);
      if cols < 0 || |s| - 4 < 8 * cols then Err(Malformed)
      else Ok(Parsed(FromData(1, cols, ReadF64s(codec, s[4..], cols)), s[4 + 8 * cols..]))
  }

  function FullFrame(codec: F64Codec, p: Params): (b: seq<byte>)
    requires Persistable(p) && p.biases.rows == 1
    ensures |b| >= 17 && b[0] == 0x10
  {
    HeadFrame(codec, p) + FullBiasFrame(codec, p.biases)
  }

  function ParseFullLayer(codec: F64Codec, s: seq<byte>): (r: Result<Parsed<Params>>)
    ensures r.Err? && r.error == CorruptFormat <==> |s| > 0 && s[0] != 0x10
    ensures r.Ok? ==> r.value.value.biases.rows == 1
  {
    match ReadHead(codec, s)
    case Err(e) => Err(e)
    case Ok(Parsed((kind, w), rest)) =>
      match ReadFullBias(codec, rest)
      case Err(e) => Err(e)
      case Ok(Parsed(b, rest')) => Ok(Parsed(Params(kind, w, b), rest'))
  }

  /** With the full bias frame, save followed by load restores the layer
      exactly. */
  lemma FullSaveLoad(codec: F64Codec, p: Params, rest: seq<byte>)
    requires Persistable(p) && p.biases.rows == 1
    requires AllExact(codec, Data(p.weights)) && AllExact(codec, Data(p.biases))
    ensures ParseFullLayer(codec, FullFrame(codec, p) + rest) == Ok(Parsed(p, rest))
  {
    var b := p.biases;
    var head := HeadFrame(codec, p);
    var bias := FullBiasFrame(codec, b);
    assert FullFrame(codec, p) + rest == head + (bias + rest);
    HeadRoundTrip(codec, p, bias + rest);
    FullBiasRoundTrip(codec, b, rest);
  }

  lemma {:induction false} FullBiasRoundTrip(codec: F64Codec, b: Matrix, rest: seq<byte>)
    requires b.rows == 1 && b.cols < 0x8000_0000 && AllExact(codec, Data(b))
    ensures ReadFullBias(codec, FullBiasFrame(codec, b) + rest) == Ok(Parsed(b, rest))
  {
    var s := FullBiasFrame(codec, b) + rest;
    assert s[4..] == F64s(codec, Data(b)) + rest;
    I32RoundTrip(b.cols, s[4..]);
    assert ReadI32(s) == b.cols;
    F64sRoundTrip(codec, Data(b), rest);
    assert ReadF64s(codec, s[4..], b.cols) == Data(b);
    assert s[4 + 8 * b.cols..] == rest;
    FromDataOfData(b);
  }

  // ---------------------------------------------------------------------
  // The LayerDense object
  // ---------------------------------------------------------------------

  class LayerDense {
    var weights: Matrix
    var biases: Matrix
    const activation: Activation
    /** The output pointer: absent until the first forward. */
    var output: Option<Matrix>

    /** The state forward and save work from. */
    function Current(): (p: Params)
      reads this, activation
      ensures p.kind == activation.kind && p.weights == weights && p.biases == biases
    {
      Params(activation.kind, weights, biases)
    }

    /** The buffers forward writes. */
    function Buffered(): Buffers
      reads this, activation
    {
      Buffers(output, activation.cache)
    }

    /** LayerDense(nIn, nOut, a): weights nIn x nOut drawn from [-1, 1]
        (the random generator is a nondeterministic choice here), a zero
        1 x nOut bias row and no output buffer. */
    constructor(nIn: nat, nOut: nat, a: Method)
      ensures weights.rows == nIn && weights.cols == nOut
      ensures forall i: nat, j: nat :: i < nIn && j < nOut ==> -1.0 <= At(weights, i, j) <= 1.0
      ensures biases.rows == 1 && biases.cols == nOut
      ensures forall j: nat :: j < nOut ==> At(biases, 0, j) == 0.0
      ensures output == None
      ensures fresh(activation) && activation.kind == a && activation.cache == None
    {
      var w := Zeros(nIn, nOut);
      for i := 0 to nIn
        invariant w.rows == nIn && w.cols == nOut
        invariant forall p: nat, q: nat :: p < nIn && q < nOut ==> -1.0 <= At(w, p, q) <= 1.0
      {
        for j := 0 to nOut
          invariant w.rows == nIn && w.cols == nOut
          invariant forall p: nat, q: nat :: p < nIn && q < nOut ==> -1.0 <= At(w, p, q) <= 1.0
        {
          var draw: real :| -1.0 <= draw <= 1.0;
          w := Set(w, i, j, draw);
        }
      }
      var b := Zeros(1, nOut);
      for j := 0 to nOut
        invariant b.rows == 1 && b.cols == nOut
        invariant forall q: nat :: q < nOut ==> At(b, 0, q) == 0.0
      {
        b := Set(b, 0, j, 0.0);
      }
      weights := w;
      biases := b;
      activation := new Activation(a);
      output := None;
    }

    /** forward: rejects an input whose width is not the weight height
        before touching anything; otherwise (re)allocates the output to
        input.rows x biases.cols, then stores act(inputs * W + b). A bias
        or activation failure leaves the reallocated buffer behind. */
    method Forward(exp: ExpFn, input: Matrix) returns (s: Status)
      modifies this, activation
      ensures weights == old(weights) && biases == old(biases) && activation.kind == old(activation.kind)
      ensures s.Success? <==> LayerOutput(Current(), exp, input).Ok?
      ensures s.Success? ==> output == Some(LayerOutput(Current(), exp, input).value)
      ensures s.Failure? ==> s.error == LayerOutput(Current(), exp, input).error
      ensures input.cols != weights.rows ==> output == old(output) && activation.cache == old(activation.cache)
      ensures input.cols == weights.rows && s.Failure? ==>
                output == Some(Realloc(old(output), input.rows, biases.cols))
      ensures PreActivation(Current(), input).Err? ==> activation.cache == old(activation.cache)
      ensures PreActivation(Current(), input).Ok? ==>
                activation.cache == CacheAfter(old(activation.cache), activation.kind, exp, PreActivation(Current(), input).value)
      ensures Buffered() == AfterForward(Current(), exp, input, old(Buffered()))
    {
      if input.cols != weights.rows {
        return Failure(ShapeMismatch);
      }
      output := Some(Realloc(output, input.rows, biases.cols));
      var product := DotProduct(input, weights);
      var sum := Add(product.value, biases);
      if sum.Err? {
        return Failure(sum.error);
      }
      var activated := activation.Forward(exp, sum.value);
      if activated.Err? {
        return Failure(activated.error);
      }
      output := Some(activated.value);
      return Success;
    }

    /** setWeights: replaces the weights only with a matrix of exactly the
        same shape. */
    method SetWeights(w: Matrix) returns (s: Status)
      modifies this
      ensures s.Success? <==> w.rows == old(weights).rows && w.cols == old(weights).cols
      ensures s.Failure? ==> s.error == ShapeMismatch
      ensures weights == (if s.Success? then w else old(weights))
      ensures biases == old(biases) && output == old(output)
    {
      if w.rows != weights.rows || w.cols != weights.cols {
        return Failure(ShapeMismatch);
      }
      weights := w;
      return Success;
    }

    /** setBiases: replaces the biases only with a matrix of exactly the
        same shape. */
    method SetBiases(b: Matrix) returns (s: Status)
      modifies this
      ensures s.Success? <==> b.rows == old(biases).rows && b.cols == old(biases).cols
      ensures s.Failure? ==> s.error == ShapeMismatch
      ensures biases == (if s.Success? then b else old(biases))
      ensures weights == old(weights) && output == old(output)
    {
      if b.rows != biases.rows || b.cols != biases.cols {
        return Failure(ShapeMismatch);
      }
      biases := b;
      return Success;
    }

    /** setActivation: switches the activation kind, which drops its cache. */
    method SetActivation(a: Method)
      modifies activation
      ensures activation.kind == a && activation.cache == None
    {
      var _ := activation.SetActivationMethod(a);
    }

    /** save: the bytes written for this layer. The bias write copies
        b.rows doubles out of a buffer of b.rows * b.cols, which reads past
        it when b.cols == 0 and b.rows > 0. */
    method Save(codec: F64Codec) returns (r: Result<seq<byte>>)
      requires Persistable(Current())
      ensures r.Ok? <==> biases.rows <= |Data(biases)|
      ensures r.Err? ==> r.error == UndefinedRead
      ensures r.Ok? ==> r.value == Frame(codec, Current())
    {
      var kind := activation.GetActivationMethod();
      var bytes: seq<byte> := [0x10] + I32(Code(kind));
      var rows, cols := weights.rows, weights.cols;
      bytes := bytes + I32(rows) + I32(cols) + F64s(codec, Data(weights));
      if biases.rows > |Data(biases)| {
        return Err(UndefinedRead);
      }
      bytes := bytes + I32(biases.rows) + F64s(codec, Data(biases)[..biases.rows]);
      return Ok(bytes);
    }

    /** load: a wrong tag fails before anything changes; otherwise the
        activation kind is set (dropping its cache), then the weights,
        then the bias as a rows x 1 column. The output buffer is left as
        it was. The result is what follows the frame on the stream. */
    method Load(codec: F64Codec, s: seq<byte>) returns (r: Result<seq<byte>>)
      requires ParseLayer(codec, s) != Err(Malformed)
      modifies this, activation
      ensures r.Err? <==> ParseLayer(codec, s).Err?
      ensures r.Err? ==> r.error == CorruptFormat && unchanged(this) && unchanged(activation)
      ensures r.Ok? ==> ParseLayer(codec, s) == Ok(Parsed(Current(), r.value))
      ensures r.Ok? ==> activation.cache == None && output == old(output)
    {
      if s[0] != 0x10 {
        return Err(CorruptFormat);
      }
      var code := ReadI32(s[1..]);
      var _ := activation.SetActivationMethod(FromCode(code));
      var rows: int, cols: int := ReadI32(s[5..]), ReadI32(s[9..]);
      var n := Area(rows, cols);
      weights := FromData(rows, cols, ReadF64s(codec, s[13..], n));
      var rest := s[13 + 8 * n..];
      var biasRows: int := ReadI32(rest);
      biases := FromData(biasRows, 1, ReadF64s(codec, rest[4..], biasRows));
      return Ok(rest[4 + 8 * biasRows..]);
    }
  }
}
