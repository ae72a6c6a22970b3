# CppNeuralNet core, modelled in Dafny

This project models the engine of CppNeuralNet, a small feed-forward neural
network library in C++, and proves properties of that model. It covers six
parts of the engine:

- **Base** (`base.dfy`). The failure kinds the engine throws, result
  wrappers, `int32` and `byte`.
- **Codec** (`codec.dfy`). The primitives of the binary save format:
  - 32-bit integers in little-endian two's complement;
  - doubles as 8-byte blobs, written by a codec the model takes as a
    parameter.
- **Matrices** (`matrix.dfy`). The dense `Matrix` value type with its
  row-major buffer, and its element access, matrix product, addition with
  row broadcast, and transpose. Product, sum and transpose are methods with
  the source's nested loops. Each is proved against a specification
  function (`Product`, `Sum`, `Transposed`).
- **Activations** (`activation.dfy`). ReLU, the logistic sigmoid and the
  row-wise numerically stabilised softmax, entry by entry and as the
  source's loops. It also has the `Activation` class, which keeps its last
  result in a cached buffer.
- **Layers** (`layer.dfy`). The `LayerDense` class: random initial weights,
  zero bias row, `forward`, the setters, and the byte frame that `save`
  writes and `load` reads.
- **Networks** (`network.dfy`). The `Network` class:
  - an ordered list of layers fed from a bound input;
  - `Forward`, which threads each layer's output into the next;
  - `Save` and `Load` of the network frame (tag 0x00, batch size, layer
    count, layer frames).

Two utilities complete the core:

- **Combinations** (`combinations.dfy`). An odometer that enumerates every
  length-k string over an alphabet, as a base-|alphabet| counter.
- **Hash** (`hash.dfy`). CCSH, a hash built from the ChaCha20 block
  function of section 2.3 of RFC 8439. Input is cut into chunks of at most
  8 bytes. Each chunk becomes one block input. The first block output
  becomes the state, and later outputs are XORed into it.

How the source is modelled:

- Classes whose fields the source updates in place are Dafny classes.
  These are `Activation`, `LayerDense`, `Network`, `CombinationsGenerator`
  and `CCSH`.
- `Matrix` is copied on assignment in the source, so it is a datatype
  value.
- Exceptions are `Err`/`Failure` results carrying a `Base.Error`.
- Streams are byte sequences. `save` returns the bytes it writes, and
  `load` consumes bytes from the front of a sequence and returns the rest.
- `std::exp` is a parameter `exp` of type `Activations.ExpFn`: any
  function that is positive everywhere.
- Doubles are reals.

Where the code and its documentation disagree, the model follows the code:

- `Matrix(vector<vector<double>>)` never checks that the rows have equal
  length.
- `Matrix::add` only skips the shape check when the right operand has
  exactly one row. That row is then broadcast to every row of the left
  operand without checking its width.
- `LayerDense::load` is not atomic: it sets the activation before it reads
  the weights.
- The NONE activation throws in `forward`, so a layer declared with "no
  activation" cannot run.

## Model

| member | source | states |
|---|---|---|
| Codec.Unsigned | src/LayerDense.cpp:88-90 | the bit pattern of an int32 written to the stream is x for x >= 0 and x + 2^32 for negative x, below 2^32 |
| Codec.Signed | src/LayerDense.cpp:112-113 | reading an int32 bit pattern back is the inverse of Unsigned |
| Codec.I32 | src/LayerDense.cpp:88-95 | an int32 occupies exactly four bytes on the stream |
| Codec.I32RoundTrip | src/LayerDense.cpp:119-121 | reading four bytes written from an int32 gives back that int32, whatever follows on the stream |
| Codec.F64s | src/LayerDense.cpp:96-97 | a run of n doubles occupies 8n bytes |
| Codec.ReadF64s | src/LayerDense.cpp:123-124 | reading n doubles yields exactly n values |
| Codec.ReadF64sPrefix | src/LayerDense.cpp:123-124 | reading n doubles depends only on the first 8n bytes of the stream |
| Codec.F64sRoundTrip | src/LayerDense.cpp:96-97 | doubles that the double codec reproduces exactly are read back unchanged, in order, whatever follows |
| Matrices.Set | src/Matrix.cpp:69-71 | writing through operator()(r, c) changes entry (r, c) and leaves every other entry and the shape as they were |
| Matrices.Row | src/Matrix.cpp:83-85 | row i holds cols entries, entry j being operator()(i, j) |
| Matrices.Extensionality | src/Matrix.cpp:83-85 | two matrices of the same shape that agree at every (row, col) are equal |
| Matrices.Data | src/Matrix.cpp:162-164 | data() is a row-major buffer of rows * cols entries |
| Matrices.DataAt | src/Matrix.cpp:69-71 | entry (i, j) is element i * cols + j of data() |
| Matrices.FromData | src/LayerDense.cpp:122-124 | filling data() of a fresh rows x cols matrix gives a matrix of that shape whose buffer is exactly what was read |
| Matrices.FromDataOfData | src/Matrix.cpp:162-164 | rebuilding a matrix from its own buffer and shape gives the same matrix |
| Matrices.FlattenAt | src/Matrix.cpp:10-15 | pushing the rows one after another puts entry (a, b) at position a * cols + b |
| Matrices.FlatIndexSplit | src/Matrix.cpp:69-71 | every row-major position below rows * cols splits into a row below rows and a column below cols |
| Matrices.Zeros | src/Matrix.cpp:7-8 | Matrix(rows, cols) has that shape and every entry 0.0 |
| Matrices.FromVector | src/Matrix.cpp:31-34 | Matrix(vector) is a 1 x N row whose entry j and whose buffer are the vector's |
| Matrices.FromRows | src/Matrix.cpp:10-15 | Matrix(vector of rows) has one row per inner vector, as many columns as the first one and entry (i, j) = values[i][j] |
| Matrices.Get | src/Matrix.cpp:87-95 | operator()(col) const throws exactly when the matrix has more than one row, and otherwise reads entry (0, col) |
| Matrices.Put | src/Matrix.cpp:73-81 | operator()(col) as an lvalue throws exactly when there is more than one row, and otherwise writes buffer position col only and keeps the shape |
| Matrices.Product | src/Matrix.cpp:97-122 | the product of an r x n and an n x c matrix is r x c |
| Matrices.DotProduct | src/Matrix.cpp:97-122 | throws ShapeMismatch exactly when lhs.cols != rhs.rows; otherwise result(i, j) is the sum over k of lhs(i, k) * rhs(k, j), accumulated left to right, and equals Product |
| Matrices.DotTransposed | src/Matrix.cpp:97-122 | each dot product of the transposed operands, in swapped order, equals the original one |
| Matrices.ProductTransposed | src/Matrix.cpp:150-160 | (A B)^T = B^T A^T for the product dotProduct computes |
| Matrices.Sum | src/Matrix.cpp:128-146 | add succeeds exactly for the shapes it neither rejects nor reads past (Addable), and then has lhs's shape |
| Matrices.Add | src/Matrix.cpp:128-146 | fails exactly when !Addable: ShapeMismatch if rhs has other than one row and the shapes differ, UndefinedRead if a one-row rhs is narrower than a non-empty lhs; otherwise result(i, j) = lhs(i, j) + rhs(rhs.rows > 1 ? i : 0, j) |
| Matrices.Transposed | src/Matrix.cpp:150-160 | the transpose of an r x c matrix is c x r |
| Matrices.TransposeInvolution | src/Matrix.cpp:150-160 | transposing twice gives back the original matrix |
| Matrices.Transpose | src/Matrix.cpp:150-160 | the result is cols x rows with result(j, i) = m(i, j), and equals Transposed |
| Activations.Code | include/Activation.h:5 | the four enumerators have the underlying values 0..3, and only they do |
| Activations.FromCode | src/LayerDense.cpp:116 | casting an int32 to ActivationMethod keeps its value |
| Activations.CodeRoundTrip | src/LayerDense.cpp:88 | casting to int32 and back gives the same activation method |
| Activations.Relu | src/Activation.cpp:24-31 | std::max(0.0, x) is non-negative, keeps x >= 0 and zeroes x <= 0 |
| Activations.Logistic | src/Activation.cpp:33-40 | 1 / (1 + exp(-x)) lies strictly between 0 and 1 |
| Activations.Larger | src/Activation.cpp:44-49 | std::max(a, b) is one of a and b and at least both |
| Activations.MaxPrefixBounds | src/Activation.cpp:44-49 | the running maximum is at least its start and every entry seen, and is the start or one of the entries |
| Activations.MaxIsMaximum | src/Activation.cpp:44-49 | the maximum the softmax subtracts is an entry of the row and no entry exceeds it |
| Activations.Shifted | src/Activation.cpp:51-54 | each shifted exponential is positive |
| Activations.ExpSum | src/Activation.cpp:51-54 | the sum of the shifted exponentials of a non-empty row is positive, so the division in the softmax is defined |
| Activations.Apply | src/Activation.cpp:15-67 | forward fails with UnsupportedActivation exactly for NONE and unknown codes, and otherwise keeps the input's shape |
| Activations.Realloc | src/Activation.cpp:17-21 | the buffer after the size check has the input's shape |
| Activations.CacheAfter | src/Activation.cpp:17-21 | after forward the cache exists with the input's shape, and holds the result when the method is supported |
| Activations.ReluOutput | src/Activation.cpp:24-31 | every ReLU output entry is non-negative, equal to a non-negative input and zero for a negative one |
| Activations.SigmoidOutput | src/Activation.cpp:33-40 | every sigmoid output entry lies strictly between 0 and 1 |
| Activations.Scaled | src/Activation.cpp:56-58 | dividing a row by d divides each entry by d |
| Activations.Exps | src/Activation.cpp:51-54 | entry j of the exponentials row is exp(x_j - shift) |
| Activations.SoftmaxVector | src/Activation.cpp:42-60 | entry j of a softmax row is its shifted exponential over the row's sum |
| Activations.ScaledTotal | src/Activation.cpp:56-58 | dividing every entry by d divides the sum by d |
| Activations.ExpSumIsTotal | src/Activation.cpp:51-54 | the running sum of the exponentials loop is the total of the exponentials row |
| Activations.SoftmaxIsDistribution | src/Activation.cpp:42-60 | the softmax of a non-empty row is a probability distribution: every entry in (0, 1], summing to 1 |
| Activations.SoftmaxEntryInUnitInterval | src/Activation.cpp:56-58 | each softmax entry lies in (0, 1] |
| Activations.SoftmaxSumsToOne | src/Activation.cpp:56-58 | the entries of a softmax row sum to 1 |
| Activations.SoftmaxRowIsDistribution | src/Activation.cpp:42-60 | every row of a forward softmax is a probability distribution |
| Activations.ExpSumCovers | src/Activation.cpp:51-54 | each exponential is at most the row's sum |
| Activations.SoftmaxShiftNonPositive | src/Activation.cpp:51-54 | the softmax exponentiates only x - max <= 0, the numerical-stability shift |
| Activations.ReluLoop | src/Activation.cpp:24-31 | the ReLU loop nest computes the ReLU of every entry |
| Activations.SigmoidLoop | src/Activation.cpp:33-40 | the sigmoid loop nest computes the logistic function of every entry |
| Activations.RowMaximum | src/Activation.cpp:44-49 | the first softmax loop finds the row's maximum, which bounds every entry |
| Activations.ShiftedExponentials | src/Activation.cpp:51-54 | the second loop writes exp(x - max) into row i only and returns their sum |
| Activations.DivideRow | src/Activation.cpp:56-58 | the third loop divides row i by the sum and leaves the other rows alone |
| Activations.SoftmaxRow | src/Activation.cpp:42-60 | one pass of the outer softmax loop sets row i to its softmax and leaves the other rows alone |
| Activations.SoftmaxLoop | src/Activation.cpp:42-60 | the softmax loop nest computes the row-wise softmax of the whole matrix |
| Activations.Activation.constructor | include/Activation.h:14-15 | a new Activation has the given method and no buffer |
| Activations.Activation.GetActivationMethod | include/Activation.h:24 | returns the current method |
| Activations.Activation.SetActivationMethod | src/Activation.cpp:69-76 | sets the method, drops the cached buffer and returns the new method |
| Activations.Activation.ToString | src/Activation.cpp:79-90 | the enumerator's name for the three transforms, and "Unknown" exactly for the others |
| Activations.Activation.Forward | src/Activation.cpp:15-67 | returns Apply(kind, exp, input) and leaves the cache as CacheAfter says: resized to the input, holding the result on success |
| Layers.PreActivation | src/LayerDense.cpp:37-54 | inputs * W + b fails with ShapeMismatch when the input width is not the weight height, and otherwise has input.rows rows and W.cols columns |
| Layers.LayerOutput | src/LayerDense.cpp:54 | act(inputs * W + b) succeeds exactly when the bias sum succeeds and the activation is supported, with shape input.rows x W.cols |
| Layers.LayerOutputEntries | src/LayerDense.cpp:54 | each output entry is the activation applied to sum_k x(i, k) W(k, j) + b(i or 0, j) |
| Layers.HeadFrame | src/LayerDense.cpp:81-97 | the layer frame starts with tag 0x10 and is at least 13 bytes long |
| Layers.Frame | src/LayerDense.cpp:81-103 | the whole layer frame starts with 0x10 and is at least 17 bytes long |
| Layers.ReadHead | src/LayerDense.cpp:105-124 | load fails with CorruptFormat exactly when the first byte is not 0x10, and consumes bytes when it succeeds |
| Layers.ReadBias | src/LayerDense.cpp:126-128 | load rebuilds the bias as a one-column matrix |
| Layers.ParseLayer | src/LayerDense.cpp:105-129 | a layer frame is refused as CorruptFormat exactly when its tag is wrong, and otherwise consumes bytes |
| Layers.HeadRoundTrip | src/LayerDense.cpp:81-124 | the tag, activation, weight shape and weights are read back exactly, whatever follows |
| Layers.BiasRoundTrip | src/LayerDense.cpp:99-102 | the bias count and the doubles written after it are read back as a count x 1 column |
| Layers.SaveLoadAsWritten | src/LayerDense.cpp:81-129 | save then load restores the activation and the weights exactly, but the bias comes back as a b.rows x 1 column of the first b.rows bias entries |
| Layers.BiasRowTruncated | src/LayerDense.cpp:99-102 | for the 1 x n bias row of every constructed layer, load gives a 1 x 1 bias holding b(0, 0) only |
| Layers.ReloadedLayerReadsPastBias | src/LayerDense.cpp:126-128 | after the round trip, a layer with two or more neurons fails forward with UndefinedRead on every non-empty input the original layer accepts |
| Layers.ReadFullBias | src/LayerDense.cpp:126-128 | the corrected bias read rebuilds a one-row bias |
| Layers.FullFrame | src/LayerDense.cpp:81-103 | the corrected frame starts with 0x10 and is at least 17 bytes long |
| Layers.ParseFullLayer | src/LayerDense.cpp:105-129 | the corrected load refuses exactly the frames with a wrong tag as CorruptFormat, and rebuilds a one-row bias |
| Layers.FullSaveLoad | src/LayerDense.cpp:81-129 | with the corrected bias frame, save then load restores the layer exactly, whatever follows |
| Layers.FullBiasRoundTrip | src/LayerDense.cpp:99-102 | the corrected bias frame reads back as the original 1 x n row |
| Layers.LayerDense.Current | src/LayerDense.cpp:81-103 | the state save and forward work from is the activation kind, the weights and the biases |
| Layers.LayerDense.constructor | src/LayerDense.cpp:7-28 | weights are nIn x nOut with every entry in [-1, 1], the bias is a zero 1 x nOut row, and there is no output buffer |
| Layers.LayerDense.Forward | src/LayerDense.cpp:37-55 | fails exactly when LayerOutput does, with the same error, before touching anything on a width mismatch; on success output holds act(inputs * W + b); a later failure leaves the reallocated buffer; weights, biases and kind never change |
| Layers.LayerDense.SetWeights | src/LayerDense.cpp:57-65 | replaces the weights exactly when the shape matches, and otherwise throws ShapeMismatch; nothing else changes |
| Layers.LayerDense.SetBiases | src/LayerDense.cpp:67-75 | replaces the biases exactly when the shape matches, and otherwise throws ShapeMismatch; nothing else changes |
| Layers.LayerDense.SetActivation | src/LayerDense.cpp:77-79 | sets the activation kind and drops its cache |
| Layers.LayerDense.Save | src/LayerDense.cpp:81-103 | writes exactly Frame of the layer, failing with UndefinedRead only where the bias write reads past the buffer |
| Layers.LayerDense.Load | src/LayerDense.cpp:105-129 | fails with CorruptFormat exactly on a wrong tag, with nothing changed; otherwise the layer holds what ParseLayer reads, the activation cache is dropped, the output is untouched, and the rest of the stream is returned |
| Networks.RunStep | src/Network.cpp:22-25 | each pass of the forward loop feeds the previous layer's output to the next layer |
| Networks.RunStopsAtFailure | src/Network.cpp:22-25 | once a layer throws, the pass reports that failure whatever follows |
| Networks.RunShape | src/Network.cpp:22-25 | a successful pass has the input's row count and the last layer's width |
| Networks.StagesOf | src/Network.cpp:22-25 | the persisted state of each layer of the list, in order |
| Networks.SlotsAppend | src/Network.cpp:11 | appending a new layer with a new Activation keeps each object's position unique |
| Networks.ForwardLayer | src/Network.cpp:23-24 | one pass of the loop: only layer i's buffers change, and no layer's parameters; success extends the pass by one layer, and failure is the failure of the whole pass |
| Networks.BuffersAfterSuccess | src/LayerDense.cpp:54 | a layer the pass got through holds the pass's result so far in its output |
| Networks.ForwardAll | src/Network.cpp:21-25 | the loop succeeds exactly when the layer-by-layer composition does and returns its value; each layer's buffers end as BuffersAfter says |
| Networks.FramesAppend | src/Network.cpp:40-43 | writing one more layer appends its frame |
| Networks.FramesStep | src/Network.cpp:40-43 | after i + 1 passes of the save loop, the bytes are the frames of the first i + 1 layers |
| Networks.NetworkFrame | src/Network.cpp:32-44 | the network frame starts with tag 0x00 and is at least 9 bytes long |
| Networks.ParseLayers | src/Network.cpp:58-64 | reading count frames yields at most count layers, and exactly count when none fails |
| Networks.Reloaded | src/LayerDense.cpp:105-129 | a reloaded layer keeps its kind and weights, and its bias becomes a b.rows x 1 column |
| Networks.ReloadedAll | src/Network.cpp:58-64 | each layer of a list comes back as Reloaded, in order |
| Networks.FramesRoundTrip | src/Network.cpp:40-43 | reading back as many layer frames as were written gives the reloaded layers in order and leaves exactly what followed |
| Networks.NetworkRoundTrip | src/Network.cpp:32-67 | Save then Load restores the batch size and the number and order of the layers, each as the layer frame brings it back |
| Networks.FullFrames | src/Network.cpp:40-43 | with the corrected layer frame, the layers' frames back to back, at least 17 bytes each and starting with the layer tag |
| Networks.FullNetworkFrame | src/Network.cpp:32-44 | tag 0x00, batch size, layer count, then the corrected layer frames |
| Networks.ParseFullLayers | src/Network.cpp:58-66 | reads at most count corrected frames, exactly count when none fails, each with a one-row bias |
| Networks.FullFramesRoundTrip | src/Network.cpp:40-43 | reading back the corrected frames gives every layer exactly, in order, and leaves exactly what followed |
| Networks.FullNetworkRoundTrip | src/Network.cpp:32-67 | with the corrected layer frame, Save then Load restores the batch size, the layer count and every layer exactly, in order |
| Networks.HeaderFields | src/Network.cpp:33-38 | the batch size sits at byte 1, the layer count at byte 5 and the first layer frame at byte 9 |
| Networks.RestoredStages | src/Network.cpp:58-64 | layers restored from the frames hold exactly the frames' parameters and have no buffers |
| Networks.Network.constructor | src/Network.cpp:6-9 | a new network has the given input and batch size, no layers and no outputs |
| Networks.Network.AddLayer | src/Network.cpp:11 | appends the layer at the end of the list and changes nothing else |
| Networks.Network.SetInputs | src/Network.cpp:30 | rebinds the input and changes nothing else: the layers, batch size, outputs and the layer ownership that Forward relies on stay as they were |
| Networks.Network.Forward | src/Network.cpp:13-28 | MissingInput with nothing changed when no input is bound; otherwise succeeds exactly when the layer-by-layer composition does, outputs is then its value, a failure keeps outputs and reports the first layer's error, and every layer's buffers are as BuffersAfter says |
| Networks.Network.Save | src/Network.cpp:32-44 | writes exactly NetworkFrame(batch size, layers), failing with UndefinedRead only when a layer's save does |
| Networks.Network.Load | src/Network.cpp:46-67 | a wrong tag fails with nothing changed; otherwise the batch size is read, the layers become fresh layers holding exactly the frames read, a bad layer tag stops with those kept and the input still bound, and success unbinds the input and returns the rest |
| Networks.LoadNetwork | src/Network.cpp:53-64 | reads the batch size and the count, then exactly the layers ParseNetworkLayers reads, into fresh distinct layers |
| Networks.LoadLayers | src/Network.cpp:58-64 | the load loop reads exactly the layers ParseLayers reads, into fresh distinct layers, failing with CorruptFormat exactly when ParseLayers stops on a bad tag |
| Networks.ReadAll | src/Network.cpp:58-64 | when the load loop stops, it has read exactly what ParseLayers reads |
| Networks.LoadStep | src/Network.cpp:59-64 | one pass of the load loop adds one fresh layer holding the next frame, or stops with the layers read so far |
| Networks.LoadLayer | src/Network.cpp:60-61 | a fresh LayerDense(0, 0, NONE) loaded from the stream holds the next frame and touches no earlier layer |
| Networks.ReadStep | src/Network.cpp:59-64 | reading one more frame either extends the layers read or ends the reading where it stands |
| Networks.LoadedStep | src/Network.cpp:59-64 | a frame read successfully moves the loop one frame along ParseLayers |
| Networks.FirstLayerExample | src/LayerDense.cpp:54 | an identity layer with ReLU maps [3, -1] to [3, 0] |
| Networks.SecondLayerExample | src/Activation.cpp:62-63 | a summing layer maps [3, 0] to [3] under ReLU and throws under NONE |
| Networks.TwoLayerExample | src/Network.cpp:21-27 | a two-layer pass gives [[3]], and fails when the second layer's activation is NONE |
| Combinations.Spell | include/combinations.h:23-25 | the string has one letter per index, letter idx[i] at position i |
| Combinations.Succ | include/combinations.h:28-39 | the increment keeps the tuple's length |
| Combinations.SuccCarry | include/combinations.h:28-39 | a run of maximal digits at the end turns into zeros and the carry moves to the part before it |
| Combinations.ValueBound | include/combinations.h:28-39 | a tuple of in-range digits spells a number below n^k |
| Combinations.WrapsAtTop | include/combinations.h:32-34 | the flag drops exactly when the tuple spells the largest number, n^k - 1 |
| Combinations.SuccValue | include/combinations.h:28-39 | one increment keeps the digits in range and adds one to the number, or wraps it to zero |
| Combinations.CarryValue | include/combinations.h:30-31 | when the last digit carries, the number is shifted one place up and gets a 0 digit |
| Combinations.SuccIncreases | include/combinations.h:28-39 | an increment that does not wrap moves strictly forward in lexicographic order |
| Combinations.ValueInjective | include/combinations.h:28-39 | tuples of the same width that spell the same number are equal |
| Combinations.CountStep | include/combinations.h:21-42 | each call adds one to the call count, and a wrap completes a full turn of n^k |
| Combinations.AfterCalls | include/combinations.h:15-42 | the tuple after c calls has k digits |
| Combinations.AfterCallsValue | include/combinations.h:15-42 | before the first wrap, the tuple after c calls spells c in base n |
| Combinations.ValueOrder | include/combinations.h:28-39 | of two tuples of the same width, the one spelling the smaller number comes first lexicographically |
| Combinations.CallsOrdered | include/combinations.h:21-42 | the tuples of two different calls before the wrap are distinct and come in lexicographic order |
| Combinations.CarryStep | include/combinations.h:29-35 | a carrying digit becomes 0, and at the leading digit that completes the increment with a wrap |
| Combinations.StopStep | include/combinations.h:36-37 | a non-carrying digit goes up by one and the increment is complete, without a wrap |
| Combinations.CombinationsGenerator.constructor | include/combinations.h:15-19 | starts from k zero indices with the flag up |
| Combinations.CombinationsGenerator.GetNextCombination | include/combinations.h:21-42 | with an empty alphabet and k > 0 throws OutOfRange with nothing changed; otherwise returns the string the indices spell, advances them by one odometer step, and drops the flag exactly at the wrap |
| Combinations.CombinationsGenerator.SpellCurrent | include/combinations.h:23-25 | fails exactly when an index is outside the alphabet, and otherwise spells the indices |
| Combinations.CombinationsGenerator.Advance | include/combinations.h:28-39 | the indices become their successor and the flag drops exactly at the wrap |
| Combinations.CombinationsGenerator.HasMoreCombinations | include/combinations.h:44 | true exactly while fewer than n^k strings (n letters) have been returned (always, when k = 0 or the alphabet is empty) |
| Combinations.ValueZeros | include/combinations.h:17-18 | the starting tuple of zeros spells 0 |
| Hash.RotateLeftIsRotation | include/hash.h:98-100 | for every amount 1..31, the shift-and-or is a 32-bit left rotation |
| Hash.QuarterRoundVector | include/hash.h:102-107 | the quarter round gives the test vector of section 2.1.1 of RFC 8439 |
| Hash.ApplyQuarter | include/hash.h:85-93 | a quarter round changes only its four words of the state |
| Hash.ApplyQuarterVector | include/hash.h:90-93 | a quarter round on words 2, 7, 8 and 13 gives the worked example of section 2.2.1 of RFC 8439 |
| Hash.RoundPrefix | include/hash.h:84-94 | each quarter round of a double round applies to the state the previous ones left |
| Hash.Block | include/hash.h:78-96 | the block function maps 16 words to 16 words |
| Hash.AddState | include/hash.h:95 | the final addition adds word by word, modulo 2^32 |
| Hash.QuarterRoundStep | include/hash.h:102-107 | the statement-by-statement quarter round computes QuarterRound |
| Hash.QuarterRoundAt | include/hash.h:85-93 | quarterRound(x[a], x[b], x[c], x[d]) updates exactly as ApplyQuarter says |
| Hash.DoubleRoundAt | include/hash.h:84-94 | one pass of the round loop is a column round then a diagonal round |
| Hash.ChachaBlock | include/hash.h:78-96 | chacha_block writes 10 double rounds of a copy of the input, plus the input, into out |
| Hash.AddInto | include/hash.h:95 | out[i] = x[i] + in[i] for every word |
| Hash.SigmaText | include/hash.h:38-41 | the four constant words spell "expand 32 byte k", most significant byte first |
| Hash.SumAppend | include/hash.h:44-48 | the byte sum of two runs is the sum of their sums |
| Hash.BlockInput | include/hash.h:36-52 | each block input is 16 words |
| Hash.BlockInputLayout | include/hash.h:36-52 | a block input holds the constants in words 0..3, one byte per word from word 4, the running sum in word 12, the nonce in word 14, and zero elsewhere |
| Hash.XorState | include/hash.h:60-62 | later blocks are XORed into the state word by word |
| Hash.Absorb | include/hash.h:36-63 | one chunk keeps the fields well formed |
| Hash.AbsorbCounts | include/hash.h:44-52 | one chunk adds its bytes to counter and one to nonce, modulo 2^64, and leaves the object initialized |
| Hash.Feed | include/hash.h:34-65 | update keeps the state at 16 words and the counters below 2^64 |
| Hash.FeedCounter | include/hash.h:44-48 | update adds every input byte to counter, modulo 2^64 |
| Hash.FeedNonce | include/hash.h:52 | update bumps nonce once per chunk of up to 8 bytes, modulo 2^64 |
| Hash.FeedInitialized | include/hash.h:56-63 | after update the object is initialized exactly when it was before or the input is not empty |
| Hash.FeedWholeChunks | include/hash.h:34-35 | updating with a multiple of 8 bytes and then more input equals one update with both |
| Hash.SplitMidChunk | include/hash.h:34-35 | splitting an update inside a chunk changes the result: one update of two bytes differs from two updates of one byte each |
| Hash.StartOneChunk | include/hash.h:56-58 | after start with at most 8 bytes, the state is that chunk's block |
| Hash.StartTwoChunks | include/hash.h:56-63 | after start with 8 bytes and a second chunk, the state is the first block XOR the second |
| Hash.HexDigits | include/hash.h:67-75 | each word is written as exactly n hex digits |
| Hash.DigitRoundTrip | include/hash.h:71 | each hex digit reads back as the value it was written from |
| Hash.HexRoundTrip | include/hash.h:71 | the digits of a value below 16^n read back to that value |
| Hash.HexWords | include/hash.h:67-75 | the hex text of w words is 8w characters long |
| Hash.HexWordsAt | include/hash.h:67-75 | digits 8i to 8i + 8 of the text spell word i |
| Hash.HexWordsSpell | include/hash.h:67-75 | every 8-digit group of the text spells its word |
| Hash.DigestLength | include/hash.h:14-15 | a digest of Size bits is Size / 4 hex digits |
| Hash.CCSH.constructor | include/hash.h:16 | a new hash object has a zero state, zero counter and nonce, and is not initialized |
| Hash.CCSH.Start | include/hash.h:22-28 | start resets every field and then updates, giving Feed(Reset, data) |
| Hash.CCSH.Update | include/hash.h:34-65 | update leaves the fields as Feed of the old fields and the data |
| Hash.CCSH.UpdateChunk | include/hash.h:35-64 | one pass of update's loop consumes the chunk at offset i |
| Hash.CCSH.AbsorbChunk | include/hash.h:36-64 | the loop body for one chunk leaves the fields as Absorb says |
| Hash.CCSH.LoadChunk | include/hash.h:36-52 | the block input is built with the constants, the bytes, the running sum and the nonce, and counter gains the chunk's bytes |
| Hash.CCSH.CopyIn | include/hash.h:56-58 | the first block becomes the state |
| Hash.CCSH.XorIn | include/hash.h:60-62 | every later block is XORed into the state |
| Hash.CCSH.Hexdump | include/hash.h:67-75 | the first Size / 32 state words, 8 hex digits each, Size / 4 characters in all, each group reading back as its word |

## Left out

- Networks.Network.AddLayer: requires a layer object that is not already in the list, with its own Activation. `src/Network.cpp:11` also accepts the same pointer twice. Then one object would be updated twice in one forward pass, and the model does not track that aliasing. The same restriction is part of `Valid()`, which `Networks.Network.Forward` requires.
- Networks.Network.Forward: `outputs` and the layers' `output` pointers alias each other in the source (`src/Network.cpp:21-27`), and `LayerDense::forward` may free the matrix one of them points to (`src/LayerDense.cpp:50-53`). The model keeps value snapshots instead, so later writes through a shared pointer and the dangling pointer are not seen.
- Networks.Network.SetInputs: `m_inputs` is a pointer to a caller-owned matrix (`src/Network.cpp:30`). The model stores the matrix's value at the time of the call, so later changes the caller makes are not seen.
- Layers.LayerDense.Load: requires a frame that is not cut short and has no negative dimension (`ParseLayer(codec, s) != Err(Malformed)`). The source checks neither. With a negative dimension it throws from `Matrix(rows, cols)` after it has already set the activation (`src/LayerDense.cpp:116-122`). With -1 x -1 the product is positive, so the read succeeds and the layer is broken.
- Networks.Network.Load: requires `Loadable`, which excludes the same truncated or negative-dimension layer frames, and an empty stream.
- Layers.Persistable: save casts sizes to int32 (`src/LayerDense.cpp:92-99`). The model requires every size and the weight count to fit, so it drops the wrap-around of those casts.
- Networks.Network.Save: requires fewer than 2^31 layers, which drops the wrap-around of the `int32_t` layer count (`src/Network.cpp:37`).
- Matrices.Add: reading past a one-row right operand that is narrower than the left one is undefined behaviour in the source. The model returns `Err(UndefinedRead)` instead.
- Layers.LayerDense.Save: the bias write copies `b.rows` doubles from a buffer of `b.rows * b.cols`. When `b.cols == 0`, that is undefined behaviour in the source. The model returns `Err(UndefinedRead)` instead.
- Matrices.Get: an index past the buffer is undefined behaviour in the source. It is a precondition here.
- Matrices.Put: an index past the buffer is undefined behaviour in the source. It is a precondition here.
- Matrices.FromRows: requires a non-empty list of rows of equal length. Reading `values[0]` of an empty list is undefined behaviour. Ragged input is well defined in the source: every value is pushed, so the buffer length differs from rows * cols. The model's `Matrix` always holds exactly rows * cols entries, so it cannot represent that buffer. A shorter later row causes undefined behaviour only on a later read past the buffer.
- Combinations.CombinationsGenerator.constructor: `k` is a `nat`. A negative `k` makes `reserve` throw `length_error` in the source (`include/combinations.h:15-19`), and the model does not have that case. The alphabet is held by reference in the source. The model copies it at construction, so later changes the caller makes to it are not seen.
- Activations.ExpFn: `std::exp` is modelled by any function that is positive everywhere. No other property of the exponential is used.
- Doubles are modelled as exact reals. Rounding, overflow, NaN and infinities are not modelled.
- Codec.F64Codec and Codec.Exact: the IEEE-754 layout of a double on the stream is left out. The model takes a codec that writes 8 bytes, and the round trips hold for values that codec reproduces exactly.
- Layers.LayerDense.constructor: `std::random_device` and `std::mt19937` are modelled as a nondeterministic choice in [-1, 1]. The distribution is not modelled.
- `print` (matrices, layers, and in `Network::Save` and `Network::Load`) is left out because it is console output only. So are the matrix `operator<<` and the accessors `numRows` and `numColumns`, which the model reads as fields.
- The `initializer_list` constructors of `Matrix` (`src/Matrix.cpp:17-29`) are left out. They fill the buffer the same way as the vector constructors that are modelled.
- The `std::string` overloads of `CCSH::start` and `CCSH::update` (`include/hash.h:18-20`, `30-32`) are left out. They pass the string's bytes to the byte overloads that are modelled.
- Destructors and `delete` are left out. Memory management is not modelled.
- Instrumentor and `main.cpp` are not part of this model. They are profiling and a demo driver.

## Findings

| source | as written | input that shows it | evidently intended | confidence | as-written member | corrected member |
|---|---|---|---|---|---|---|
| src/LayerDense.cpp:99-102 | save writes the bias row count, which is 1 for every constructed layer, followed by that many doubles; load (`src/LayerDense.cpp:126-128`) rebuilds a rows x 1 column | any layer with two or more neurons, e.g. nOut = 2 with bias [b0, b1]: after save and load the bias is [[b0]], and the next forward reads past it in `Matrix::add` | write the number of bias entries (b.cols) and all of them, and rebuild the 1 x cols row on load, so that save then load restores the layer | not executed | Layers.SaveLoadAsWritten, Layers.BiasRowTruncated, Layers.ReloadedLayerReadsPastBias | Layers.FullSaveLoad, Networks.FullNetworkRoundTrip |
