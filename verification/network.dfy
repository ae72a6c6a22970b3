/** The Network: an ordered list of dense layers fed from a bound input
    matrix, the output pointer Forward sets, and the network frame Save and
    Load use (tag 0x00, batch size, layer count, the layer frames). */
module Networks {
  import opened Base
  import opened Matrices
  import opened Activations
  import opened Codec
  import opened Layers

  // ---------------------------------------------------------------------
  // Forward, as values
  // ---------------------------------------------------------------------

  /** What one layer does to its input, as a function value. */
  type Step = (Params, Matrix) -> Result<Matrix>

  /** f agrees with LayerOutput everywhere. The trigger lets a proof link
      f to LayerOutput only where LayerOutput itself is mentioned. */
  ghost predicate IsLayerStep(exp: ExpFn, f: Step)
  {
    forall p, x {:trigger LayerOutput(p, exp, x)} :: f(p, x) == LayerOutput(p, exp, x)
  }

  /** LayerOutput as a value, chosen through its defining property so that
      reasoning about a whole pass does not unfold every layer. */
  ghost function LayerStep(exp: ExpFn): (f: Step)
    ensures IsLayerStep(exp, f)
  {
    assert IsLayerStep(exp, (p: Params, x: Matrix) => LayerOutput(p, exp, x));
    var f :| IsLayerStep(exp, f); f
  }

  /** The input threaded through the first n layers: each layer's output is
      the next one's input, and the first failure ends the pass. */
  ghost function Run(exp: ExpFn, stages: seq<Params>, input: Matrix, n: nat): Result<Matrix>
    requires n <= |stages|
  {
    if n == 0 then Ok(input)
    else
      match Run(exp, stages, input, n - 1)
      case Err(e) => Err(e)
      case Ok(x) => LayerStep(exp)(stages[n - 1], x)
  }

  /** One more layer: the pass so far, then that layer's LayerOutput. */
  lemma RunStep(exp: ExpFn, stages: seq<Params>, input: Matrix, n: nat)
    requires n < |stages| && Run(exp, stages, input, n).Ok?
    ensures Run(exp, stages, input, n + 1) == LayerOutput(stages[n], exp, Run(exp, stages, input, n).value)
  {
    assert LayerStep(exp)(stages[n], Run(exp, stages, input, n).value) == LayerOutput(stages[n], exp, Run(exp, stages, input, n).value);
  }

  /** Once a layer fails, the pass reports that failure whatever follows. */
  lemma {:induction false} RunStopsAtFailure(exp: ExpFn, stages: seq<Params>, input: Matrix, n: nat, m: nat)
    requires n <= m <= |stages| && Run(exp, stages, input, n).Err?
    ensures Run(exp, stages, input, m) == Run(exp, stages, input, n)
    decreases m
  {
    if m > n {
      RunStopsAtFailure(exp, stages, input, n, m - 1);
    }
  }

  /** A successful pass through at least one layer has the input's row
      count and the last layer's width. */
  lemma {:induction false} RunShape(exp: ExpFn, stages: seq<Params>, input: Matrix, n: nat)
    requires 0 < n <= |stages| && Run(exp, stages, input, n).Ok?
    ensures Run(exp, stages, input, n).value.rows == input.rows
    ensures Run(exp, stages, input, n).value.cols == stages[n - 1].weights.cols
  {
    assert Run(exp, stages, input, n - 1).Ok?;
    RunStep(exp, stages, input, n - 1);
    if n > 1 {
      RunShape(exp, stages, input, n - 1);
    }
  }

  /** The persisted state of each layer of a list, in order. */
  function StagesOf(ls: seq<LayerDense>): (ps: seq<Params>)
    reads set l | l in ls, set l | l in ls :: l.activation
    ensures |ps| == |ls|
    ensures forall k :: 0 <= k < |ls| ==> ps[k] == ls[k].Current()
  {
    if |ls| == 0 then [] else StagesOf(ls[..|ls| - 1]) + [ls[|ls| - 1].Current()]
  }

  /** slot gives the position in ls of each layer and of each layer's
      Activation, and holds nothing else. So the layers are distinct
      objects, each with its own Activation. */
  ghost predicate Slots(ls: seq<LayerDense>, slot: map<object, nat>)
  {
    Covers(ls, slot) && slot.Keys == LayerObjects(ls)
  }

  /** The layers of a list and their Activation objects. */
  function LayerObjects(ls: seq<LayerDense>): set<object>
  {
    if |ls| == 0 then {} else LayerObjects(ls[..|ls| - 1]) + {ls[|ls| - 1], ls[|ls| - 1].activation}
  }

  /** A layer that is new to a list, with an Activation that is new to it,
      takes the next slot. */
  lemma SlotsAppend(ls: seq<LayerDense>, slot: map<object, nat>, layer: LayerDense)
    requires Slots(ls, slot)
    requires forall k :: 0 <= k < |ls| ==> ls[k] != layer && ls[k].activation != layer.activation
    ensures Slots(ls + [layer], slot[layer := |ls|][layer.activation := |ls|])
  {
    assert (ls + [layer])[..|ls|] == ls;
  }

  /** No Network is one of the layers or activations of a list. */
  lemma {:induction false} NetworkNotLayerObject(ls: seq<LayerDense>, n: Network)
    ensures n !in LayerObjects(ls)
  {
    if |ls| > 0 {
      NetworkNotLayerObject(ls[..|ls| - 1], n);
    }
  }

  /** slot gives the position in ls of each layer and of each layer's
      Activation (and may hold more). */
  ghost predicate Covers(ls: seq<LayerDense>, slot: map<object, nat>)
  {
    forall k :: 0 <= k < |ls| ==>
      ls[k] in slot && slot[ls[k]] == k && ls[k].activation in slot && slot[ls[k].activation] == k
  }

  /** One iteration of Network::forward: layer i runs on the output of
      the layers before it. No layer's weights, biases or activation kind
      change, and no other layer's output or cache. On success layer i's
      output extends the pass by one layer; a failure is the failure of
      the whole pass. */
  method ForwardLayer(ls: seq<LayerDense>, ghost slot: map<object, nat>, ghost stages: seq<Params>, ghost x: Matrix,
                      i: nat, exp: ExpFn, input: Matrix)
    returns (s: Status)
    requires Covers(ls, slot) && i < |ls| == |stages| && Run(exp, stages, x, i) == Ok(input)
    requires forall k :: 0 <= k < |ls| ==> ls[k].Current() == stages[k]
    modifies ls[i], ls[i].activation
    ensures forall k :: 0 <= k < |ls| ==> ls[k].Current() == stages[k]
    ensures forall k :: 0 <= k < |ls| && k != i ==> ls[k].Buffered() == old(ls[k].Buffered())
    ensures ls[i].Buffered() == BuffersAfter(exp, stages, x, i, old(ls[i].Buffered()))
    ensures s.Success? ==> ls[i].output.Some? && Run(exp, stages, x, i + 1) == Ok(ls[i].output.value)
    ensures s.Failure? ==> forall k :: i < k <= |stages| ==> Run(exp, stages, x, k) == Err(s.error)
  {
    var layer := ls[i];
    ghost var prev := layer.Buffered();
    s := layer.Forward(exp, input);
    assert layer.Current() == stages[i];
    assert AfterStep(exp)(stages[i], input, prev) == AfterForward(stages[i], exp, input, prev);
    RunStep(exp, stages, x, i);
    if s.Failure? {
      forall k | i < k <= |stages|
        ensures Run(exp, stages, x, k) == Err(s.error)
      {
        RunStopsAtFailure(exp, stages, x, i + 1, k);
      }
    }
  }

  /** What forward does to one layer's buffers, as a function value. */
  type BufferStep = (Params, Matrix, Buffers) -> Buffers

  /** f agrees with AfterForward everywhere, linked as IsLayerStep links
      LayerStep to LayerOutput. */
  ghost predicate IsBufferStep(exp: ExpFn, f: BufferStep)
  {
    forall p, x, b {:trigger AfterForward(p, exp, x, b)} :: f(p, x, b) == AfterForward(p, exp, x, b)
  }

  /** AfterForward as a value. */
  ghost function AfterStep(exp: ExpFn): (f: BufferStep)
    ensures IsBufferStep(exp, f)
  {
    assert IsBufferStep(exp, (p: Params, x: Matrix, b: Buffers) => AfterForward(p, exp, x, b));
    var f :| IsBufferStep(exp, f); f
  }

  /** Layer k's buffers after Network::forward on input, given what they
      held before: untouched when an earlier layer failed, otherwise as
      LayerDense::forward leaves them on the k-th intermediate result. */
  ghost function BuffersAfter(exp: ExpFn, stages: seq<Params>, input: Matrix, k: nat, prev: Buffers): Buffers
    requires k < |stages|
  {
    match Run(exp, stages, input, k)
    case Err(_) => prev
    case Ok(x) => AfterStep(exp)(stages[k], x, prev)
  }

  /** A layer the pass got through holds the pass's result so far. */
  lemma BuffersAfterSuccess(exp: ExpFn, stages: seq<Params>, input: Matrix, k: nat, prev: Buffers)
    requires k < |stages| && Run(exp, stages, input, k + 1).Ok?
    ensures BuffersAfter(exp, stages, input, k, prev).output == Some(Run(exp, stages, input, k + 1).value)
  {
    RunStep(exp, stages, input, k);
    var x := Run(exp, stages, input, k).value;
    assert AfterStep(exp)(stages[k], x, prev) == AfterForward(stages[k], exp, x, prev);
  }

  /** The loop of Network::forward over a list of layers whose persisted
      state is stages: each layer runs on the previous one's output and the
      first failure stops the loop. */
  method ForwardAll(ls: seq<LayerDense>, ghost slot: map<object, nat>, ghost stages: seq<Params>, exp: ExpFn, input: Matrix)
    returns (s: Status, out: Matrix)
    requires Covers(ls, slot) && |stages| == |ls|
    requires forall k :: 0 <= k < |ls| ==> ls[k].Current() == stages[k]
    modifies slot.Keys
    ensures forall k :: 0 <= k < |ls| ==> ls[k].Current() == stages[k]
    ensures s.Success? <==> Run(exp, stages, input, |ls|).Ok?
    ensures s.Success? ==> out == Run(exp, stages, input, |ls|).value
    ensures s.Failure? ==> s.error == Run(exp, stages, input, |ls|).error
    ensures forall k :: 0 <= k < |ls| ==> ls[k].Buffered() == BuffersAfter(exp, stages, input, k, old(ls[k].Buffered()))
  {
    out := input;
    s := Success;
    var i := 0;
    while i < |ls| && s.Success?
      invariant 0 <= i <= |ls|
      invariant forall k :: 0 <= k < |ls| ==> ls[k].Current() == stages[k]
      invariant s.Success? ==> Run(exp, stages, input, i) == Ok(out)
      invariant s.Failure? ==> 0 < i && forall k :: i <= k <= |ls| ==> Run(exp, stages, input, k) == Err(s.error)
      invariant forall k :: 0 <= k < |ls| ==>
                  ls[k].Buffered() == if k < i then BuffersAfter(exp, stages, input, k, old(ls[k].Buffered())) else old(ls[k].Buffered())
    {
      s := ForwardLayer(ls, slot, stages, input, i, exp, out);
      if s.Success? {
        out := ls[i].output.value;
      }
      i := i + 1;
    }
  }

  /** Layers as Network::Load leaves them: no output buffer and an empty
      activation cache. */
  predicate Pristine(ls: seq<LayerDense>)
    reads set l | l in ls, set l | l in ls :: l.activation
  {
    forall k :: 0 <= k < |ls| ==> ls[k].output == None && ls[k].activation.cache == None
  }

  lemma SameStages(ls: seq<LayerDense>, ps: seq<Params>)
    requires |ls| == |ps|
    requires forall k :: 0 <= k < |ls| ==>
               ls[k].weights == ps[k].weights && ls[k].biases == ps[k].biases && ls[k].activation.kind == ps[k].kind
    ensures StagesOf(ls) == ps
  {}

  // ---------------------------------------------------------------------
  // The network frame
  // ---------------------------------------------------------------------

  /** Every layer of the list can be written by LayerDense::save. */
  predicate Savable(p: Params)
  {
    Persistable(p) && p.biases.rows <= |Data(p.biases)|
  }

  /** The layer frames of a list, back to back. */
  function Frames(codec: F64Codec, ps: seq<Params>): (b: seq<byte>)
    requires forall k :: 0 <= k < |ps| ==> Savable(ps[k])
  {
    if |ps| == 0 then [] else assert Savable(ps[0]); Frame(codec, ps[0]) + Frames(codec, ps[1..])
  }

  lemma {:induction false} FramesAppend(codec: F64Codec, ps: seq<Params>, p: Params)
    requires forall k :: 0 <= k < |ps| ==> Savable(ps[k])
    requires Savable(p)
    ensures Frames(codec, ps + [p]) == Frames(codec, ps) + Frame(codec, p)
  {
    if |ps| > 0 {
      assert (ps + [p])[1..] == ps[1..] + [p];
      FramesAppend(codec, ps[1..], p);
    }
  }

  /** The frames of the first i + 1 layers: those of the first i, then
      layer i's. */
  lemma FramesStep(codec: F64Codec, ps: seq<Params>, i: nat)
    requires i < |ps| && forall k :: 0 <= k <= i ==> Savable(ps[k])
    ensures Frames(codec, ps[..i + 1]) == Frames(codec, ps[..i]) + Frame(codec, ps[i])
  {
    assert ps[..i + 1] == ps[..i] + [ps[i]];
    FramesAppend(codec, ps[..i], ps[i]);
  }

  lemma Assoc(a: seq<byte>, b: seq<byte>, c: seq<byte>)
    ensures a + b + c == a + (b + c)
  {}

  /** Tag 0x00, the batch size, the layer count, then the layer frames. */
  function NetworkFrame(codec: F64Codec, batch: int32, ps: seq<Params>): (b: seq<byte>)
    requires |ps| < 0x8000_0000
    requires forall k :: 0 <= k < |ps| ==> Savable(ps[k])
    ensures |b| >= 9 && b[0] == 0x00
  {
    [0x00] + I32(batch) + I32(|ps|) + Frames(codec, ps)
  }

  /** The outcome of reading count layer frames one after another: the
      layers read before the first failure, what follows them, and that
      failure if there was one. */
  datatype Loaded = Loaded(stages: seq<Params>, rest: seq<byte>, failure: Option<Error>)

  /** Reading one layer frame, as a function value. */
  type Reader = seq<byte> -> Result<Parsed<Params>>

  /** f agrees with ParseLayer everywhere; as with IsLayerStep, the
      trigger links the two only where ParseLayer itself is mentioned. */
  ghost predicate IsLayerReader(codec: F64Codec, f: Reader)
  {
    forall t {:trigger ParseLayer(codec, t)} :: f(t) == ParseLayer(codec, t)
  }

  /** ParseLayer as a value. */
  ghost function LayerReader(codec: F64Codec): (f: Reader)
    ensures IsLayerReader(codec, f)
  {
    assert IsLayerReader(codec, t => ParseLayer(codec, t));
    var f :| IsLayerReader(codec, f); f
  }

  ghost function ParseLayers(codec: F64Codec, s: seq<byte>, count: nat): (l: Loaded)
    ensures |l.stages| <= count
    ensures l.failure.None? ==> |l.stages| == count
    decreases count
  {
    if count == 0 then Loaded([], s, None)
    else
      match LayerReader(codec)(s)
      case Err(e) => Loaded([], s, Some(e))
      case Ok(Parsed(p, rest)) =>
        var tail := ParseLayers(codec, rest, count - 1);
        Loaded([p] + tail.stages, tail.rest, tail.failure)
  }

  /** The loop bound Network::Load uses: a negative count reads nothing. */
  function LayerCount(count: int32): nat
  {
    if count < 0 then 0 else count
  }

  /** The layers Network::Load reads from a stream that carries the tag. */
  ghost function ParseNetworkLayers(codec: F64Codec, s: seq<byte>): (l: Loaded)
    requires |s| >= 9
  {
    ParseLayers(codec, s[9..], LayerCount(ReadI32(s[5..])))
  }

  /** A stream Network::Load can read without running off its end: it has
      a first byte, and with the right tag a full header and no layer
      frame that is cut short or holds a negative dimension. */
  ghost predicate Loadable(codec: F64Codec, s: seq<byte>)
  {
    |s| > 0 && (s[0] == 0x00 ==> |s| >= 9 && ParseNetworkLayers(codec, s).failure != Some(Malformed))
  }

  /** A layer as the as-written layer frame brings it back. */
  function Reloaded(p: Params): (q: Params)
    requires p.biases.rows <= |Data(p.biases)|
    ensures q.kind == p.kind && q.weights == p.weights
    ensures q.biases.rows == p.biases.rows && q.biases.cols == 1
  {
    Params(p.kind, p.weights, FromData(p.biases.rows, 1, Data(p.biases)[..p.biases.rows]))
  }

  function ReloadedAll(ps: seq<Params>): (qs: seq<Params>)
    requires forall k :: 0 <= k < |ps| ==> ps[k].biases.rows <= |Data(ps[k].biases)|
    ensures |qs| == |ps|
    ensures forall k :: 0 <= k < |ps| ==> qs[k] == Reloaded(ps[k])
  {
    if |ps| == 0 then [] else [Reloaded(ps[0])] + ReloadedAll(ps[1..])
  }

  lemma {:induction false} FramesRoundTrip(codec: F64Codec, ps: seq<Params>, rest: seq<byte>)
    requires forall k :: 0 <= k < |ps| ==> Savable(ps[k]) && Representable(codec, ps[k])
    ensures ParseLayers(codec, Frames(codec, ps) + rest, |ps|) == Loaded(ReloadedAll(ps), rest, None)
  {
    if |ps| > 0 {
      var tail := Frames(codec, ps[1..]);
      var s := Frames(codec, ps) + rest;
      assert Frames(codec, ps) == Frame(codec, ps[0]) + tail;
      Assoc(Frame(codec, ps[0]), tail, rest);
      SaveLoadAsWritten(codec, ps[0], tail + rest);
      assert LayerReader(codec)(s) == Ok(Parsed(Reloaded(ps[0]), tail + rest));
      FramesRoundTrip(codec, ps[1..], rest);
      assert ReloadedAll(ps) == [Reloaded(ps[0])] + ReloadedAll(ps[1..]);
    }
  }

  /** Save followed by Load restores the batch size and the number and
      order of the layers; each layer comes back as the layer frame
      brings it back (activation and weights exact, bias truncated). */
  lemma NetworkRoundTrip(codec: F64Codec, batch: int32, ps: seq<Params>, rest: seq<byte>)
    requires |ps| < 0x8000_0000
    requires forall k :: 0 <= k < |ps| ==> Savable(ps[k]) && Representable(codec, ps[k])
    ensures var s := NetworkFrame(codec, batch, ps) + rest;
            Loadable(codec, s) && ReadI32(s[1..]) == batch
            && ParseNetworkLayers(codec, s) == Loaded(ReloadedAll(ps), rest, None)
  {
    var s := NetworkFrame(codec, batch, ps) + rest;
    var tail := Frames(codec, ps) + rest;
    var count := I32(|ps|) + tail;
    HeaderFields([0x00], I32(batch), I32(|ps|), Frames(codec, ps), rest);
    I32RoundTrip(batch, count);
    I32RoundTrip(|ps|, tail);
    FramesRoundTrip(codec, ps, rest);
  }

  /** Where the fields of a 9-byte header sit in header + body + rest. */
  lemma HeaderFields(tag: seq<byte>, batch: seq<byte>, count: seq<byte>, body: seq<byte>, rest: seq<byte>)
    requires |tag| == 1 && |batch| == 4 && |count| == 4
    ensures var s := tag + batch + count + body + rest;
            s[1..] == batch + (count + (body + rest)) && s[5..] == count + (body + rest) && s[9..] == body + rest
  {
    var s := tag + batch + count + body + rest;
    assert s == tag + (batch + (count + (body + rest)));
  }

  // ---------------------------------------------------------------------
  // The network frame with the corrected layer frame (FullFrame)
  // ---------------------------------------------------------------------

  /** A layer the corrected frame carries: persistable, with its bias row. */
  predicate FullSavable(p: Params)
  {
    Persistable(p) && p.biases.rows == 1
  }

  /** Corrected layer frames of a list, back to back. */
  function FullFrames(codec: F64Codec, ps: seq<Params>): (b: seq<byte>)
    requires forall k :: 0 <= k < |ps| ==> FullSavable(ps[k])
    ensures |b| >= 17 * |ps|
    ensures |ps| > 0 ==> b[0] == 0x10
  {
    if |ps| == 0 then [] else assert FullSavable(ps[0]); FullFrame(codec, ps[0]) + FullFrames(codec, ps[1..])
  }

  /** The network frame whose layer frames are the corrected ones. */
  function FullNetworkFrame(codec: F64Codec, batch: int32, ps: seq<Params>): (b: seq<byte>)
    requires |ps| < 0x8000_0000
    requires forall k :: 0 <= k < |ps| ==> FullSavable(ps[k])
    ensures |b| >= 9 + 17 * |ps| && b[0] == 0x00
  {
    [0x00] + I32(batch) + I32(|ps|) + FullFrames(codec, ps)
  }

  /** Reading count corrected layer frames one after another, stopping at
      the first failure. */
  function ParseFullLayers(codec: F64Codec, s: seq<byte>, count: nat): (l: Loaded)
    ensures |l.stages| <= count
    ensures l.failure.None? ==> |l.stages| == count
    ensures forall k :: 0 <= k < |l.stages| ==> l.stages[k].biases.rows == 1
    decreases count
  {
    if count == 0 then Loaded([], s, None)
    else
      match ParseFullLayer(codec, s)
      case Err(e) => Loaded([], s, Some(e))
      case Ok(Parsed(p, rest)) =>
        var tail := ParseFullLayers(codec, rest, count - 1);
        Loaded([p] + tail.stages, tail.rest, tail.failure)
  }

  lemma {:induction false} FullFramesRoundTrip(codec: F64Codec, ps: seq<Params>, rest: seq<byte>)
    requires forall k :: 0 <= k < |ps| ==>
               FullSavable(ps[k]) && AllExact(codec, Data(ps[k].weights)) && AllExact(codec, Data(ps[k].biases))
    ensures ParseFullLayers(codec, FullFrames(codec, ps) + rest, |ps|) == Loaded(ps, rest, None)
  {
    if |ps| > 0 {
      var tail := FullFrames(codec, ps[1..]);
      assert FullFrames(codec, ps) == FullFrame(codec, ps[0]) + tail;
      Assoc(FullFrame(codec, ps[0]), tail, rest);
      FullSaveLoad(codec, ps[0], tail + rest);
      FullFramesRoundTrip(codec, ps[1..], rest);
      assert ps == [ps[0]] + ps[1..];
    }
  }

  /** With the corrected layer frame, Save followed by Load restores the
      batch size and every layer exactly, in order, and leaves what
      followed the frame. */
  lemma FullNetworkRoundTrip(codec: F64Codec, batch: int32, ps: seq<Params>, rest: seq<byte>)
    requires |ps| < 0x8000_0000
    requires forall k :: 0 <= k < |ps| ==>
               FullSavable(ps[k]) && AllExact(codec, Data(ps[k].weights)) && AllExact(codec, Data(ps[k].biases))
    ensures var s := FullNetworkFrame(codec, batch, ps) + rest;
            s[0] == 0x00 && ReadI32(s[1..]) == batch && LayerCount(ReadI32(s[5..])) == |ps|
            && ParseFullLayers(codec, s[9..], LayerCount(ReadI32(s[5..]))) == Loaded(ps, rest, None)
  {
    var tail := FullFrames(codec, ps) + rest;
    var count := I32(|ps|) + tail;
    HeaderFields([0x00], I32(batch), I32(|ps|), FullFrames(codec, ps), rest);
    I32RoundTrip(batch, count);
    I32RoundTrip(|ps|, tail);
    FullFramesRoundTrip(codec, ps, rest);
  }

  // ---------------------------------------------------------------------
  // The Network object
  // ---------------------------------------------------------------------

  class Network {
    /** m_inputs: the bound input matrix, if any. */
    var inputs: Option<Matrix>
    var layers: seq<LayerDense>
    var batchSize: int32
    /** The outputs pointer: what the last successful Forward produced. */
    var outputs: Option<Matrix>

    /** The position of each layer object and of its Activation object;
        its keys are the objects the network's methods may change. */
    ghost var Slot: map<object, nat>

    /** The layers are distinct objects, each with its own Activation. */
    ghost predicate Valid()
      reads this
    {
      Slots(layers, Slot)
    }

    /** Network(inputs, batchSize): no layers and no outputs yet. */
    constructor(input: Option<Matrix>, batch: int32)
      ensures inputs == input && batchSize == batch
      ensures layers == [] && outputs == None
      ensures Valid()
    {
      inputs := input;
      batchSize := batch;
      layers := [];
      outputs := None;
      Slot := map[];
    }

    /** AddLayer: appends the layer at the end, changing nothing else. */
    method AddLayer(layer: LayerDense)
      requires Valid()
      requires forall k :: 0 <= k < |layers| ==> layers[k] != layer && layers[k].activation != layer.activation
      modifies this
      ensures layers == old(layers) + [layer]
      ensures inputs == old(inputs) && batchSize == old(batchSize) && outputs == old(outputs)
      ensures Valid()
    {
      SlotsAppend(layers, Slot, layer);
      Slot := Slot[layer := |layers|][layer.activation := |layers|];
      layers := layers + [layer];
    }

    /** SetInputs: rebinds the input and nothing else. */
    method SetInputs(input: Option<Matrix>)
      modifies this
      ensures inputs == input
      ensures layers == old(layers) && batchSize == old(batchSize) && outputs == old(outputs)
      ensures Slot == old(Slot) && (old(Valid()) ==> Valid())
    {
      inputs := input;
    }

    /** Forward: MissingInput when no input is bound. Otherwise the layers
        run in list order, each on the previous one's output. On success
        outputs is the last layer's output, or the input itself when there
        are no layers. When a layer fails, outputs keeps its old value.
        Either way every layer's buffers are as BuffersAfter says, and no
        layer's weights, biases or activation kind change. */
    method Forward(exp: ExpFn) returns (s: Status)
      requires Valid()
      modifies this, Slot.Keys
      ensures layers == old(layers) && inputs == old(inputs) && batchSize == old(batchSize) && Slot == old(Slot)
      ensures StagesOf(layers) == old(StagesOf(layers))
      ensures inputs.None? ==> s == Failure(MissingInput) && outputs == old(outputs)
      ensures inputs.None? ==> forall k :: 0 <= k < |layers| ==> layers[k].Buffered() == old(layers[k].Buffered())
      ensures inputs.Some? ==> (s.Success? <==> Run(exp, StagesOf(layers), inputs.value, |layers|).Ok?)
      ensures inputs.Some? && s.Success? ==> outputs == Some(Run(exp, StagesOf(layers), inputs.value, |layers|).value)
      ensures inputs.Some? && s.Failure? ==> s.error == Run(exp, StagesOf(layers), inputs.value, |layers|).error
      ensures s.Failure? ==> outputs == old(outputs)
      ensures inputs.Some? ==> forall k :: 0 <= k < |layers| ==>
                layers[k].Buffered() == BuffersAfter(exp, StagesOf(layers), inputs.value, k, old(layers[k].Buffered()))
    {
      if inputs.None? {
        return Failure(MissingInput);
      }
      ghost var stages := StagesOf(layers);
      var out;
      NetworkNotLayerObject(layers, this);
      s, out := ForwardAll(layers, Slot, stages, exp, inputs.value);
      SameStages(layers, stages);
      if s.Success? {
        outputs := Some(out);
      }
    }

    /** Save: the network frame, failing where a layer's save would read
        past its bias buffer. */
    method Save(codec: F64Codec) returns (r: Result<seq<byte>>)
      requires |layers| < 0x8000_0000
      requires forall k :: 0 <= k < |layers| ==> Persistable(layers[k].Current())
      ensures r.Ok? <==> forall k :: 0 <= k < |layers| ==> Savable(layers[k].Current())
      ensures r.Err? ==> r.error == UndefinedRead
      ensures r.Ok? ==> r.value == NetworkFrame(codec, batchSize, StagesOf(layers))
    {
      ghost var stages := StagesOf(layers);
      var bytes: seq<byte> := [0x00] + I32(batchSize) + I32(|layers|);
      ghost var header := bytes;
      ghost var body: seq<byte> := [];
      for i := 0 to |layers|
        invariant forall k :: 0 <= k < i ==> Savable(stages[k])
        invariant body == Frames(codec, stages[..i])
        invariant bytes == header + body
      {
        var frame := layers[i].Save(codec);
        if frame.Err? {
          return Err(frame.error);
        }
        FramesStep(codec, stages, i);
        Assoc(header, body, frame.value);
        bytes := bytes + frame.value;
        body := body + frame.value;
      }
      assert stages[..|layers|] == stages;
      return Ok(bytes);
    }

    /** Load: a wrong tag fails before anything changes. Otherwise the
        batch size is overwritten and the layer list is replaced by one
        fresh layer per frame read; a layer frame with a wrong tag stops
        the load with the layers read so far kept and the input still
        bound. On success the input is unbound. outputs is never touched.
        The result is what follows the last frame. */
    method Load(codec: F64Codec, s: seq<byte>) returns (r: Result<seq<byte>>)
      requires Loadable(codec, s)
      modifies this
      ensures s[0] != 0x00 ==> r == Err(CorruptFormat) && unchanged(this)
      ensures s[0] == 0x00 ==> batchSize == ReadI32(s[1..])
      ensures s[0] == 0x00 ==> StagesOf(layers) == ParseNetworkLayers(codec, s).stages
      ensures s[0] == 0x00 ==> (r.Ok? <==> ParseNetworkLayers(codec, s).failure.None?)
      ensures s[0] == 0x00 && r.Ok? ==> r.value == ParseNetworkLayers(codec, s).rest && inputs == None
      ensures s[0] == 0x00 && r.Err? ==> r.error == CorruptFormat && inputs == old(inputs)
      ensures s[0] == 0x00 ==> Valid() && Pristine(layers)
      ensures s[0] == 0x00 ==> forall k :: 0 <= k < |layers| ==> fresh(layers[k])
      ensures outputs == old(outputs)
    {
      if s[0] != 0x00 {
        return Err(CorruptFormat);
      }
      var batch, loaded;
      ghost var slot, ps;
      batch, loaded, slot, ps, r := LoadNetwork(codec, s);
      batchSize := batch;
      layers := loaded;
      Slot := slot;
      if r.Ok? {
        inputs := None;
      }
      RestoredStages(layers, ps);
    }
  }

  /** A layer as Network::Load leaves it: holding p, with no output
      buffer and an empty activation cache. */
  ghost predicate Restored(l: LayerDense, p: Params)
    reads l, l.activation
  {
    && l.weights == p.weights && l.biases == p.biases && l.activation.kind == p.kind
    && l.output == None && l.activation.cache == None
  }

  lemma RestoredStages(ls: seq<LayerDense>, ps: seq<Params>)
    requires |ls| == |ps| && forall k :: 0 <= k < |ls| ==> Restored(ls[k], ps[k])
    ensures StagesOf(ls) == ps && Pristine(ls)
  {
    SameStages(ls, ps);
  }

  /** The body of Network::Load after the tag: the batch size, the layer
      count, then the layer frames. */
  method LoadNetwork(codec: F64Codec, s: seq<byte>)
    returns (batch: int32, ls: seq<LayerDense>, ghost slot: map<object, nat>, ghost ps: seq<Params>, r: Result<seq<byte>>)
    requires Loadable(codec, s) && s[0] == 0x00
    ensures batch == ReadI32(s[1..])
    ensures ps == ParseNetworkLayers(codec, s).stages && |ls| == |ps|
    ensures forall k :: 0 <= k < |ls| ==> Restored(ls[k], ps[k]) && fresh(ls[k])
    ensures r.Ok? <==> ParseNetworkLayers(codec, s).failure.None?
    ensures r.Ok? ==> r.value == ParseNetworkLayers(codec, s).rest
    ensures r.Err? ==> r.error == CorruptFormat
    ensures Slots(ls, slot)
  {
    batch := ReadI32(s[1..]);
    var count := ReadI32(s[5..]);
    ls, slot, ps, r := LoadLayers(codec, s[9..], count);
  }

  /** The loop of Network::Load: count layer frames read one after
      another into fresh layers, stopping at the first frame with a
      wrong tag. */
  method LoadLayers(codec: F64Codec, s: seq<byte>, count: int32)
    returns (ls: seq<LayerDense>, ghost slot: map<object, nat>, ghost ps: seq<Params>, r: Result<seq<byte>>)
    requires ParseLayers(codec, s, LayerCount(count)).failure != Some(Malformed)
    ensures ps == ParseLayers(codec, s, LayerCount(count)).stages && |ls| == |ps|
    ensures forall k :: 0 <= k < |ls| ==> Restored(ls[k], ps[k]) && fresh(ls[k])
    ensures r.Ok? <==> ParseLayers(codec, s, LayerCount(count)).failure.None?
    ensures r.Ok? ==> r.value == ParseLayers(codec, s, LayerCount(count)).rest
    ensures r.Err? ==> r.error == CorruptFormat
    ensures Slots(ls, slot)
  {
    ghost var total := LayerCount(count);
    ps := [];
    var rest := s;
    ls := [];
    slot := map[];
    r := Ok(s);
    var i := 0;
    while i < count && r.Ok?
      invariant 0 <= i <= total && |ls| == i && |ps| == i
      invariant Slots(ls, slot)
      invariant forall k :: 0 <= k < i ==> Restored(ls[k], ps[k])
      invariant fresh(slot.Keys)
      invariant ReadSoFar(codec, s, total, ps, rest, r)
      decreases total - i, if r.Ok? then 1 else 0
    {
      ls, slot, ps, rest, r := LoadStep(codec, s, total, ls, slot, ps, rest);
      if r.Ok? {
        i := i + 1;
      }
    }
    ReadAll(codec, s, total, ps, rest, r);
  }

  /** When the loop of Network::Load ends, it has read what ParseLayers
      reads. */
  lemma ReadAll(codec: F64Codec, s: seq<byte>, total: nat, ps: seq<Params>, rest: seq<byte>, r: Result<seq<byte>>)
    requires ReadSoFar(codec, s, total, ps, rest, r) && (r.Err? || |ps| == total)
    ensures ps == ParseLayers(codec, s, total).stages
    ensures r.Ok? <==> ParseLayers(codec, s, total).failure.None?
    ensures r.Ok? ==> r.value == ParseLayers(codec, s, total).rest
    ensures r.Err? ==> r.error == CorruptFormat
  {
    assert ps + [] == ps;
  }

  /** Where the loop of Network::Load stands against ParseLayers: while
      no frame has failed, ps are the frames read and rest is what follows
      them; once one has, ps and rest are what ParseLayers stops with. */
  ghost predicate ReadSoFar(codec: F64Codec, s: seq<byte>, total: nat, ps: seq<Params>, rest: seq<byte>, r: Result<seq<byte>>)
  {
    && |ps| <= total
    && (r.Ok? ==> r.value == rest && var tail := ParseLayers(codec, rest, total - |ps|);
                  ParseLayers(codec, s, total) == Loaded(ps + tail.stages, tail.rest, tail.failure))
    && (r.Err? ==> r.error == CorruptFormat && ParseLayers(codec, s, total) == Loaded(ps, rest, Some(CorruptFormat)))
  }

  /** One iteration of the loop of Network::Load: the layers read so far
      extended by one fresh layer read from rest, or, on a bad frame, the
      layers and the stream as they were and the failure. */
  method LoadStep(codec: F64Codec, ghost s: seq<byte>, ghost total: nat, ls: seq<LayerDense>, ghost slot: map<object, nat>,
                  ghost ps: seq<Params>, rest: seq<byte>)
    returns (ls': seq<LayerDense>, ghost slot': map<object, nat>, ghost ps': seq<Params>, rest': seq<byte>, r: Result<seq<byte>>)
    requires |ls| == |ps| < total && Slots(ls, slot)
    requires forall k :: 0 <= k < |ls| ==> Restored(ls[k], ps[k])
    requires ParseLayers(codec, s, total).failure != Some(Malformed)
    requires ReadSoFar(codec, s, total, ps, rest, Ok(rest))
    ensures ReadSoFar(codec, s, total, ps', rest', r)
    ensures r.Err? ==> ls' == ls && ps' == ps && slot' == slot && rest' == rest
    ensures |ls'| == |ps'| && Slots(ls', slot')
    ensures |ls'| == if r.Ok? then |ls| + 1 else |ls|
    ensures forall k :: 0 <= k < |ls'| ==> Restored(ls'[k], ps'[k])
    ensures r.Ok? ==> slot'.Keys == slot.Keys + {ls'[|ls|], ls'[|ls|].activation}
    ensures r.Ok? ==> fresh(ls'[|ls|]) && fresh(ls'[|ls|].activation)
  {
    ReadStep(codec, s, total, ps, rest);
    var layer;
    layer, r := LoadLayer(codec, rest, ls);
    if r.Err? {
      return ls, slot, ps, rest, r;
    }
    ghost var p := Params(layer.activation.kind, layer.weights, layer.biases);
    SlotsAppend(ls, slot, layer);
    ls', slot', ps', rest' := ls + [layer], slot[layer := |ls|][layer.activation := |ls|], ps + [p], r.value;
  }

  /** One iteration of Network::Load: a fresh LayerDense(0, 0, NONE)
      loaded from the stream. */
  method LoadLayer(codec: F64Codec, s: seq<byte>, ghost ls: seq<LayerDense>) returns (layer: LayerDense, r: Result<seq<byte>>)
    requires LayerReader(codec)(s) != Err(Malformed)
    ensures fresh(layer) && fresh(layer.activation)
    ensures forall k :: 0 <= k < |ls| ==> ls[k] != layer && ls[k].activation != layer.activation
    ensures forall k :: 0 <= k < |ls| ==>
              ls[k].weights == old(ls[k].weights) && ls[k].biases == old(ls[k].biases) &&
              ls[k].activation.kind == old(ls[k].activation.kind) &&
              ls[k].output == old(ls[k].output) && ls[k].activation.cache == old(ls[k].activation.cache)
    ensures r.Err? <==> LayerReader(codec)(s).Err?
    ensures r.Err? ==> r.error == CorruptFormat && LayerReader(codec)(s) == Err(CorruptFormat)
    ensures r.Ok? ==> LayerReader(codec)(s) == Ok(Parsed(Params(layer.activation.kind, layer.weights, layer.biases), r.value))
    ensures layer.output == None && layer.activation.cache == None
  {
    assert LayerReader(codec)(s) == ParseLayer(codec, s);
    layer := new LayerDense(0, 0, NONE);
    r := layer.Load(codec, s);
  }

  /** ReadSoFar carried over one more layer frame: read, it extends the
      layers; refused, it ends the reading where it stands. */
  lemma ReadStep(codec: F64Codec, s: seq<byte>, total: nat, ps: seq<Params>, rest: seq<byte>)
    requires |ps| < total && ReadSoFar(codec, s, total, ps, rest, Ok(rest))
    requires ParseLayers(codec, s, total).failure != Some(Malformed)
    ensures LayerReader(codec)(rest) != Err(Malformed)
    ensures LayerReader(codec)(rest).Err? ==>
              LayerReader(codec)(rest) == Err(CorruptFormat) && ReadSoFar(codec, s, total, ps, rest, Err(CorruptFormat))
    ensures LayerReader(codec)(rest).Ok? ==>
              var next := LayerReader(codec)(rest).value;
              ReadSoFar(codec, s, total, ps + [next.value], next.rest, Ok(next.rest))
  {
    match LayerReader(codec)(rest)
    case Err(_) =>
      assert LayerReader(codec)(rest) == ParseLayer(codec, rest);
      assert ps + [] == ps;
    case Ok(Parsed(p, rest')) =>
      LoadedStep(codec, s, total, ps, rest, total - |ps|, p, rest');
  }

  /** The invariant of the loop of Network::Load carried over one layer
      frame read successfully. */
  lemma LoadedStep(codec: F64Codec, s: seq<byte>, total: nat, ps: seq<Params>, rest: seq<byte>, n: nat,
                   p: Params, rest': seq<byte>)
    requires n > 0 && LayerReader(codec)(rest) == Ok(Parsed(p, rest'))
    requires var tail := ParseLayers(codec, rest, n);
             ParseLayers(codec, s, total) == Loaded(ps + tail.stages, tail.rest, tail.failure)
    ensures var next := ParseLayers(codec, rest', n - 1);
            ParseLayers(codec, s, total) == Loaded(ps + [p] + next.stages, next.rest, next.failure)
  {
    var next := ParseLayers(codec, rest', n - 1);
    assert ps + [p] + next.stages == ps + ([p] + next.stages);
  }

  // ---------------------------------------------------------------------
  // A worked example
  // ---------------------------------------------------------------------

  const Identity2: Matrix := Mat(2, 2, [[1.0, 0.0], [0.0, 1.0]])
  const Column2: Matrix := Mat(2, 1, [[1.0], [1.0]])
  const Input2: Matrix := Mat(1, 2, [[3.0, -1.0]])
  const Three: Matrix := Mat(1, 1, [[3.0]])

  /** Two layers: a 2 x 2 identity with zero bias and ReLU, then the
      summing column [[1], [1]] with zero bias and the given kind. */
  function TwoLayers(second: Method): (ps: seq<Params>)
    ensures |ps| == 2
  {
    [Params(ReLU, Identity2, Zeros(1, 2)), Params(second, Column2, Zeros(1, 1))]
  }

  const Hidden: Matrix := Mat(1, 2, [[3.0, 0.0]])

  /** The identity-ReLU layer maps [3, -1] to [3, 0]. */
  lemma FirstLayerExample(exp: ExpFn)
    ensures LayerOutput(TwoLayers(ReLU)[0], exp, Input2) == Ok(Hidden)
  {
    var out := LayerOutput(TwoLayers(ReLU)[0], exp, Input2);
    assert Dot(Input2, Identity2, 0, 0, 2) == 3.0;
    assert Dot(Input2, Identity2, 0, 1, 2) == -1.0;
    LayerOutputEntries(TwoLayers(ReLU)[0], exp, Input2, 0, 0);
    LayerOutputEntries(TwoLayers(ReLU)[0], exp, Input2, 0, 1);
    assert At(out.value, 0, 0) == 3.0 && At(out.value, 0, 1) == 0.0;
    Extensionality(out.value, Hidden);
  }

  /** The summing layer maps [3, 0] to [3] under ReLU, and fails under NONE. */
  lemma SecondLayerExample(exp: ExpFn)
    ensures LayerOutput(TwoLayers(ReLU)[1], exp, Hidden) == Ok(Three)
    ensures LayerOutput(TwoLayers(NONE)[1], exp, Hidden) == Err(UnsupportedActivation)
  {
    var out := LayerOutput(TwoLayers(ReLU)[1], exp, Hidden);
    assert Dot(Hidden, Column2, 0, 0, 2) == 3.0;
    LayerOutputEntries(TwoLayers(ReLU)[1], exp, Hidden, 0, 0);
    assert At(out.value, 0, 0) == 3.0;
    Extensionality(out.value, Three);
  }

  /** Feeding [3, -1] through the identity-ReLU layer and then a summing
      layer with ReLU gives [[3.0]]; with NONE as the second layer's
      kind the pass fails, because NONE has no transform. */
  lemma TwoLayerExample(exp: ExpFn)
    ensures Run(exp, TwoLayers(ReLU), Input2, 2) == Ok(Three)
    ensures Run(exp, TwoLayers(NONE), Input2, 2) == Err(UnsupportedActivation)
  {
    FirstLayerExample(exp);
    SecondLayerExample(exp);
    RunStep(exp, TwoLayers(ReLU), Input2, 0);
    RunStep(exp, TwoLayers(NONE), Input2, 0);
    RunStep(exp, TwoLayers(ReLU), Input2, 1);
    RunStep(exp, TwoLayers(NONE), Input2, 1);
  }
}
