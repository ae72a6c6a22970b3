/** CCSH, the "Counter ChaCha Stream Hash" (include/hash.h): input is cut
    into chunks of at most 8 bytes, each chunk is laid into a 16-word
    ChaCha block input together with a running byte sum and a chunk
    counter, and the ChaCha20 block function of section 2.3 of RFC 8439
    compresses it; the first output becomes the state, later outputs are
    XORed into it. */
module Hash {
  import opened Base

  /** uint32_t: + and - wrap modulo 2^32. */
  type word = bv32

  /** uint32_t addition, wrapping modulo 2^32. */
  function Add(a: word, b: word): word
  {
    a + b
  }

  function Xor(a: word, b: word): word
  {
    a ^ b
  }

  /** static_cast<uint32_t>: the low 32 bits of a number. */
  function Low32(n: nat): word
  {
    (n % TWO32) as word
  }

  /** A byte widened to uint32_t. */
  function ByteWord(b: byte): word
  {
    b as int as word
  }

  function Min(a: nat, b: nat): nat
  {
    if a <= b then a else b
  }

  // ---------------------------------------------------------------------
  // The ChaCha quarter round and block function

  /** rotateLeft(a, b). Shifting by 32 is undefined in C++, so the shift
      amount is one of 1..31, as at every call in the source. */
  function RotateLeft(a: word, b: word): word
    requires 0 < b < 32
  {
    (a << b) | (a >> (32 - b))
  }

  /** The shift-and-or of rotateLeft is a 32-bit left rotation, for every
      amount it accepts. */
  lemma RotateLeftIsRotation(a: word)
    ensures RotateLeft(a, 1) == a.RotateLeft(1) && RotateLeft(a, 2) == a.RotateLeft(2)
    ensures RotateLeft(a, 3) == a.RotateLeft(3) && RotateLeft(a, 4) == a.RotateLeft(4)
    ensures RotateLeft(a, 5) == a.RotateLeft(5) && RotateLeft(a, 6) == a.RotateLeft(6)
    ensures RotateLeft(a, 7) == a.RotateLeft(7) && RotateLeft(a, 8) == a.RotateLeft(8)
    ensures RotateLeft(a, 9) == a.RotateLeft(9) && RotateLeft(a, 10) == a.RotateLeft(10)
    ensures RotateLeft(a, 11) == a.RotateLeft(11) && RotateLeft(a, 12) == a.RotateLeft(12)
    ensures RotateLeft(a, 13) == a.RotateLeft(13) && RotateLeft(a, 14) == a.RotateLeft(14)
    ensures RotateLeft(a, 15) == a.RotateLeft(15) && RotateLeft(a, 16) == a.RotateLeft(16)
    ensures RotateLeft(a, 17) == a.RotateLeft(17) && RotateLeft(a, 18) == a.RotateLeft(18)
    ensures RotateLeft(a, 19) == a.RotateLeft(19) && RotateLeft(a, 20) == a.RotateLeft(20)
    ensures RotateLeft(a, 21) == a.RotateLeft(21) && RotateLeft(a, 22) == a.RotateLeft(22)
    ensures RotateLeft(a, 23) == a.RotateLeft(23) && RotateLeft(a, 24) == a.RotateLeft(24)
    ensures RotateLeft(a, 25) == a.RotateLeft(25) && RotateLeft(a, 26) == a.RotateLeft(26)
    ensures RotateLeft(a, 27) == a.RotateLeft(27) && RotateLeft(a, 28) == a.RotateLeft(28)
    ensures RotateLeft(a, 29) == a.RotateLeft(29) && RotateLeft(a, 30) == a.RotateLeft(30)
    ensures RotateLeft(a, 31) == a.RotateLeft(31)
  {
  }

  /** The four words a quarter round works on. */
  datatype Quad = Quad(a: word, b: word, c: word, d: word)

  /** quarterRound: add, XOR and rotate by 16, 12, 8 and 7 bits, as in
      section 2.1 of RFC 8439. */
  function QuarterRound(q: Quad): Quad
  {
    var a1 := Add(q.a, q.b);  var d1 := RotateLeft(Xor(q.d, a1), 16);
    var c1 := Add(q.c, d1);   var b1 := RotateLeft(Xor(q.b, c1), 12);
    var a2 := Add(a1, b1);    var d2 := RotateLeft(Xor(d1, a2), 8);
    var c2 := Add(c1, d2);    var b2 := RotateLeft(Xor(b1, c2), 7);
    Quad(a2, b2, c2, d2)
  }

  /** The test vector of section 2.1.1 of RFC 8439. */
  lemma QuarterRoundVector()
    ensures QuarterRound(Quad(0x11111111, 0x01020304, 0x9b8d6f43, 0x01234567))
         == Quad(0xea2a92f4, 0xcb1cf8ce, 0x4581472e, 0x5881c4bb)
  {
  }

  /** The positions in the 16-word state of the four words one quarter
      round works on. */
  datatype Lanes = Lanes(a: nat, b: nat, c: nat, d: nat)

  predicate Distinct(p: Lanes)
  {
    p.a < 16 && p.b < 16 && p.c < 16 && p.d < 16 &&
    p.a != p.b && p.a != p.c && p.a != p.d && p.b != p.c && p.b != p.d && p.c != p.d
  }

  /** The 16-word state after a quarter round on the words at p. */
  function ApplyQuarter(s: seq<word>, p: Lanes): (r: seq<word>)
    requires |s| == 16 && Distinct(p)
    ensures |r| == 16
    ensures forall i :: 0 <= i < 16 && i != p.a && i != p.b && i != p.c && i != p.d ==> r[i] == s[i]
  {
    var q := QuarterRound(Quad(s[p.a], s[p.b], s[p.c], s[p.d]));
    s[p.a := q.a][p.b := q.b][p.c := q.c][p.d := q.d]
  }

  /** The worked example of section 2.2.1 of RFC 8439: a quarter round on
      words 2, 7, 8 and 13 of a whole state. */
  lemma ApplyQuarterVector()
    ensures ApplyQuarter(
      [0x879531e0, 0xc5ecf37d, 0x516461b1, 0xc9a62f8a,
       0x44c20ef3, 0x3390af7f, 0xd9fc690b, 0x2a5f714c,
       0x53372767, 0xb00a5631, 0x974c541a, 0x359e9963,
       0x5c971061, 0x3d631689, 0x2098d9d6, 0x91dbd320], Lanes(2, 7, 8, 13))
    == [0x879531e0, 0xc5ecf37d, 0xbdb886dc, 0xc9a62f8a,
        0x44c20ef3, 0x3390af7f, 0xd9fc690b, 0xcfacafd2,
        0xe46bea80, 0xb00a5631, 0x974c541a, 0x359e9963,
        0x5c971061, 0xccc07c79, 0x2098d9d6, 0x91dbd320]
  {
  }

  /** The quarter rounds of one pass of chacha_block's loop: the four
      columns, then the four diagonals. */
  const DOUBLE_ROUND: seq<Lanes> :=
    [Lanes(0, 4, 8, 12), Lanes(1, 5, 9, 13), Lanes(2, 6, 10, 14), Lanes(3, 7, 11, 15),
     Lanes(0, 5, 10, 15), Lanes(1, 6, 11, 12), Lanes(2, 7, 8, 13), Lanes(3, 4, 9, 14)]

  predicate AllDistinct(ps: seq<Lanes>)
  {
    forall i :: 0 <= i < |ps| ==> Distinct(ps[i])
  }

  /** Quarter rounds at each of ps in turn. */
  function QuarterRounds(s: seq<word>, ps: seq<Lanes>): (r: seq<word>)
    requires |s| == 16 && AllDistinct(ps)
    ensures |r| == 16
  {
    if |ps| == 0 then s else ApplyQuarter(QuarterRounds(s, ps[..|ps| - 1]), ps[|ps| - 1])
  }

  /** One more quarter round of the table extends the prefix applied. */
  lemma RoundPrefix(s: seq<word>, k: nat)
    requires |s| == 16 && k < |DOUBLE_ROUND|
    ensures AllDistinct(DOUBLE_ROUND[..k]) && AllDistinct(DOUBLE_ROUND[..k + 1])
    ensures QuarterRounds(s, DOUBLE_ROUND[..k + 1])
         == ApplyQuarter(QuarterRounds(s, DOUBLE_ROUND[..k]), DOUBLE_ROUND[k])
  {
    var ps := DOUBLE_ROUND[..k + 1];
    assert ps[..k] == DOUBLE_ROUND[..k] && ps[k] == DOUBLE_ROUND[k];
    QuarterRoundsSnoc(s, ps, k);
  }

  lemma QuarterRoundsSnoc(s: seq<word>, ps: seq<Lanes>, k: nat)
    requires |s| == 16 && AllDistinct(ps) && |ps| == k + 1
    ensures AllDistinct(ps[..k])
    ensures QuarterRounds(s, ps) == ApplyQuarter(QuarterRounds(s, ps[..k]), ps[k])
  {
  }

  function DoubleRound(s: seq<word>): (r: seq<word>)
    requires |s| == 16
    ensures |r| == 16
  {
    QuarterRounds(s, DOUBLE_ROUND)
  }

  /** n double rounds. */
  function Rounds(s: seq<word>, n: nat): (r: seq<word>)
    requires |s| == 16
    ensures |r| == 16
  {
    if n == 0 then s else DoubleRound(Rounds(s, n - 1))
  }

  /** chacha_block: 20 rounds, then the input added back word by word. */
  function Block(input: seq<word>): (r: seq<word>)
    requires |input| == 16
    ensures |r| == 16
  {
    AddState(Rounds(input, 10), input)
  }

  /** Word-by-word wrapping sum of two states. */
  function AddState(s: seq<word>, t: seq<word>): (r: seq<word>)
    requires |s| == |t|
    ensures |r| == |s| && forall i :: 0 <= i < |s| ==> r[i] == Add(s[i], t[i])
  {
    seq(|s|, i requires 0 <= i < |s| => Add(s[i], t[i]))
  }

  /** quarterRound(a, b, c, d): the four reference parameters are in-out
      parameters here, updated in the statement order of the source. */
  method QuarterRoundStep(a0: word, b0: word, c0: word, d0: word) returns (a: word, b: word, c: word, d: word)
    ensures Quad(a, b, c, d) == QuarterRound(Quad(a0, b0, c0, d0))
  {
    a, b, c, d := a0, b0, c0, d0;
    a := Add(a, b);  d := Xor(d, a);  d := RotateLeft(d, 16);
    c := Add(c, d);  b := Xor(b, c);  b := RotateLeft(b, 12);
    a := Add(a, b);  d := Xor(d, a);  d := RotateLeft(d, 8);
    c := Add(c, d);  b := Xor(b, c);  b := RotateLeft(b, 7);
  }

  /** quarterRound(x[a], x[b], x[c], x[d]) on the working state. */
  method QuarterRoundAt(x: array<word>, a: nat, b: nat, c: nat, d: nat)
    requires x.Length == 16 && Distinct(Lanes(a, b, c, d))
    modifies x
    ensures x[..] == ApplyQuarter(old(x[..]), Lanes(a, b, c, d))
  {
    x[a], x[b], x[c], x[d] := QuarterRoundStep(x[a], x[b], x[c], x[d]);
  }

  /** The column round and the diagonal round of one pass of chacha_block's loop. */
  method DoubleRoundAt(x: array<word>)
    requires x.Length == 16
    modifies x
    ensures x[..] == DoubleRound(old(x[..]))
  {
    ghost var s := x[..];
    assert DOUBLE_ROUND[..0] == [];
    QuarterRoundAt(x, 0, 4, 8, 12);
    RoundPrefix(s, 0);
    QuarterRoundAt(x, 1, 5, 9, 13);
    RoundPrefix(s, 1);
    QuarterRoundAt(x, 2, 6, 10, 14);
    RoundPrefix(s, 2);
    QuarterRoundAt(x, 3, 7, 11, 15);
    RoundPrefix(s, 3);
    QuarterRoundAt(x, 0, 5, 10, 15);
    RoundPrefix(s, 4);
    QuarterRoundAt(x, 1, 6, 11, 12);
    RoundPrefix(s, 5);
    QuarterRoundAt(x, 2, 7, 8, 13);
    RoundPrefix(s, 6);
    QuarterRoundAt(x, 3, 4, 9, 14);
    RoundPrefix(s, 7);
    assert DOUBLE_ROUND[..8] == DOUBLE_ROUND;
  }

  /** chacha_block(out, in): a working copy of the input goes through ten
      double rounds and is added to the input into out. */
  method ChachaBlock(output: array<word>, input: array<word>)
    requires output.Length == 16 && input.Length == 16 && output != input
    modifies output
    ensures output[..] == Block(old(input[..]))
  {
    var x := new word[16];
    var i := 0;
    while i < 16
      invariant 0 <= i <= 16 && x[..i] == input[..i]
    {
      x[i] := input[i];
      i := i + 1;
    }
    assert x[..] == input[..];
    i := 0;
    while i < 10
      invariant 0 <= i <= 10 && x[..] == Rounds(input[..], i)
    {
      DoubleRoundAt(x);
      i := i + 1;
    }
    AddInto(output, x, input);
  }

  /** The final loop of chacha_block: out[i] = x[i] + in[i]. */
  method AddInto(output: array<word>, x: array<word>, input: array<word>)
    requires output.Length == x.Length == input.Length
    requires output != x && output != input
    modifies output
    ensures output[..] == AddState(x[..], input[..])
  {
    var i := 0;
    while i < output.Length
      invariant 0 <= i <= output.Length
      invariant forall j :: 0 <= j < i ==> output[j] == Add(x[j], input[j])
    {
      output[i] := Add(x[i], input[i]);
      i := i + 1;
    }
  }

  // ---------------------------------------------------------------------
  // Chunks and the hash state

  /** The words written into block words 0..3. Read most significant byte
      first they spell "expand 32 byte k"; section 2.3 of RFC 8439 uses the
      little-endian reading of "expand 32-byte k" instead. */
  const SIGMA: seq<word> := [0x65787061, 0x6E642033, 0x32206279, 0x7465206B]

  /** The four characters of a word, most significant byte first. */
  function Text(w: word): string
  {
    [(w >> 24) as int as char, ((w >> 16) & 0xFF) as int as char,
     ((w >> 8) & 0xFF) as int as char, (w & 0xFF) as int as char]
  }

  lemma SigmaText()
    ensures Text(SIGMA[0]) + Text(SIGMA[1]) + Text(SIGMA[2]) + Text(SIGMA[3]) == "expand 32 byte k"
  {
  }

  /** The sum of a run of bytes, as an unbounded number. */
  function Sum(data: seq<byte>): nat
  {
    if |data| == 0 then 0 else Sum(data[..|data| - 1]) + data[|data| - 1] as nat
  }

  lemma {:induction false} SumAppend(a: seq<byte>, b: seq<byte>)
    ensures Sum(a + b) == Sum(a) + Sum(b)
    decreases |b|
  {
    if |b| > 0 {
      assert (a + b)[..|a + b| - 1] == a + b[..|b| - 1];
      assert (a + b)[|a + b| - 1] == b[|b| - 1];
      SumAppend(a, b[..|b| - 1]);
    } else {
      assert a + b == a;
    }
  }

  lemma SumSplit(data: seq<byte>, m: nat)
    requires m <= |data|
    ensures Sum(data) == Sum(data[..m]) + Sum(data[m..])
  {
    assert data == data[..m] + data[m..];
    SumAppend(data[..m], data[m..]);
  }

  /** The block input of one chunk. */
  function BlockInput(chunk: seq<byte>, counter: nat, nonce: nat): (r: seq<word>)
    requires |chunk| <= 8
    ensures |r| == 16
  {
    seq(16, w requires 0 <= w < 16 =>
      if w < 4 then SIGMA[w]
      else if w < 4 + |chunk| then ByteWord(chunk[w - 4])
      else if w == 12 then Low32(counter)
      else if w == 14 then Low32(nonce)
      else 0)
  }

  /** The layout of a block input: the constants in words 0..3, one byte
      per word from word 4, the low 32 bits of the running byte sum in
      word 12 and of the chunk counter in word 14, and zero elsewhere. */
  lemma BlockInputLayout(chunk: seq<byte>, counter: nat, nonce: nat)
    requires |chunk| <= 8
    ensures BlockInput(chunk, counter, nonce)[..4] == SIGMA
    ensures forall j :: 0 <= j < |chunk| ==> BlockInput(chunk, counter, nonce)[4 + j] == ByteWord(chunk[j])
    ensures forall w :: 4 + |chunk| <= w < 16 && w != 12 && w != 14 ==> BlockInput(chunk, counter, nonce)[w] == 0
    ensures BlockInput(chunk, counter, nonce)[12] == Low32(counter)
    ensures BlockInput(chunk, counter, nonce)[14] == Low32(nonce)
  {
  }

  /** The steps by which update's loop body lays out a block input. */
  lemma BlockInputEmpty(chunk: seq<byte>)
    ensures BlockInput(chunk[..0], 0, 0) == SIGMA + seq(12, i => 0)
  {
    assert Low32(0) == 0;
  }

  lemma BlockInputGrow(chunk: seq<byte>, j: nat)
    requires j < |chunk| <= 8
    ensures BlockInput(chunk[..j], 0, 0)[4 + j := ByteWord(chunk[j])] == BlockInput(chunk[..j + 1], 0, 0)
  {
  }

  lemma BlockInputCounts(chunk: seq<byte>, counter: nat, nonce: nat)
    requires |chunk| <= 8
    ensures BlockInput(chunk, 0, 0)[12 := Low32(counter)][14 := Low32(nonce)] == BlockInput(chunk, counter, nonce)
  {
    assert Low32(0) == 0;
  }

  /** The hash object's fields as a value. counter and nonce are uint64_t. */
  datatype Digest = Digest(state: seq<word>, counter: nat, nonce: nat, initialized: bool)

  predicate WellFormed(h: Digest)
  {
    |h.state| == 16 && h.counter < TWO64 && h.nonce < TWO64
  }

  /** What start resets the fields to. */
  const Reset: Digest := Digest(seq(16, i => 0), 0, 0, false)

  /** The state XORed word by word with a block. */
  function XorState(s: seq<word>, t: seq<word>): (r: seq<word>)
    requires |s| == |t|
    ensures |r| == |s| && forall i :: 0 <= i < |s| ==> r[i] == Xor(s[i], t[i])
  {
    seq(|s|, i requires 0 <= i < |s| => Xor(s[i], t[i]))
  }

  /** uint64_t addition, wrapping modulo 2^64. */
  function Add64(a: nat, b: nat): nat
  {
    (a + b) % TWO64
  }

  lemma Add64Assoc(a: nat, b: nat, c: nat, sum: nat)
    requires sum == b + c
    ensures Add64(Add64(a, b), c) == Add64(a, sum)
  {
  }

  /** One pass of update's loop: the chunk's bytes go into the sum, the
      block is compressed with the nonce before it is incremented, and
      the output replaces the state the first time and is XORed in later. */
  function Absorb(h: Digest, chunk: seq<byte>): (r: Digest)
    requires WellFormed(h) && |chunk| <= 8
    ensures WellFormed(r)
  {
    var counter := Add64(h.counter, Sum(chunk));
    var out := Block(BlockInput(chunk, counter, h.nonce));
    Digest(if h.initialized then XorState(h.state, out) else out, counter, Add64(h.nonce, 1), true)
  }

  lemma AbsorbCounts(h: Digest, chunk: seq<byte>)
    requires WellFormed(h) && |chunk| <= 8
    ensures Absorb(h, chunk).counter == Add64(h.counter, Sum(chunk))
    ensures Absorb(h, chunk).nonce == Add64(h.nonce, 1)
    ensures Absorb(h, chunk).initialized
  {
  }

  /** update(data, n): the input in chunks of 8 bytes, the last one shorter. */
  function Feed(h: Digest, data: seq<byte>): (r: Digest)
    requires WellFormed(h)
    ensures WellFormed(r)
    decreases |data|
  {
    if |data| == 0 then h
    else
      var m := Min(8, |data|);
      Feed(Absorb(h, data[..m]), data[m..])
  }

  lemma FeedStep(h: Digest, data: seq<byte>, m: nat)
    requires WellFormed(h) && |data| > 0 && m == Min(8, |data|)
    ensures Feed(h, data) == Feed(Absorb(h, data[..m]), data[m..])
  {
  }

  lemma SliceOfSlice<T>(s: seq<T>, i: nat, m: nat)
    requires i + m <= |s|
    ensures s[i..][..m] == s[i..i + m] && s[i..][m..] == s[i + m..]
  {
  }

  lemma FeedEmpty(h: Digest, data: seq<byte>)
    requires WellFormed(h) && |data| == 0
    ensures Feed(h, data) == h && Sum(data) == 0
    ensures Add64(h.counter, 0) == h.counter && Add64(h.nonce, 0) == h.nonce
  {
  }

  /** How many chunks update cuts n bytes into. */
  function Chunks(n: nat): nat
  {
    (n + 7) / 8
  }

  /** update adds every byte to counter, modulo 2^64. */
  lemma {:induction false} FeedCounter(h: Digest, data: seq<byte>)
    requires WellFormed(h)
    ensures Feed(h, data).counter == Add64(h.counter, Sum(data))
    decreases |data|
  {
    if |data| > 0 {
      var m := Min(8, |data|);
      var front, back := data[..m], data[m..];
      FeedStep(h, data, m);
      AbsorbCounts(h, front);
      FeedCounter(Absorb(h, front), back);
      SumSplit(data, m);
      Add64Assoc(h.counter, Sum(front), Sum(back), Sum(data));
    } else {
      FeedEmpty(h, data);
    }
  }

  /** update bumps nonce once per chunk of up to 8 bytes, modulo 2^64. */
  lemma {:induction false} FeedNonce(h: Digest, data: seq<byte>)
    requires WellFormed(h)
    ensures Feed(h, data).nonce == Add64(h.nonce, Chunks(|data|))
    decreases |data|
  {
    if |data| > 0 {
      var m := Min(8, |data|);
      var front, back := data[..m], data[m..];
      FeedStep(h, data, m);
      AbsorbCounts(h, front);
      FeedNonce(Absorb(h, front), back);
      assert Chunks(|data|) == 1 + Chunks(|back|);
      Add64Assoc(h.nonce, 1, Chunks(|back|), Chunks(|data|));
    }
  }

  /** update leaves the object initialized exactly when it was already or
      the input is not empty. */
  lemma {:induction false} FeedInitialized(h: Digest, data: seq<byte>)
    requires WellFormed(h)
    ensures Feed(h, data).initialized == (h.initialized || |data| > 0)
    decreases |data|
  {
    if |data| > 0 {
      var m := Min(8, |data|);
      FeedStep(h, data, m);
      AbsorbCounts(h, data[..m]);
      FeedInitialized(Absorb(h, data[..m]), data[m..]);
    }
  }

  lemma ConcatSplit<T>(a: seq<T>, b: seq<T>, k: nat)
    requires k <= |a|
    ensures (a + b)[..k] == a[..k] && (a + b)[k..] == a[k..] + b
  {
  }

  /** Updating with a whole number of chunks and then with more input is
      the same as one update with both. */
  lemma {:induction false} FeedWholeChunks(h: Digest, a: seq<byte>, b: seq<byte>)
    requires WellFormed(h) && |a| % 8 == 0
    ensures Feed(h, a + b) == Feed(Feed(h, a), b)
    decreases |a|
  {
    if |a| == 0 {
      FeedEmpty(h, a);
      assert a + b == b;
    } else {
      assert |a| >= 8 && |a[8..]| % 8 == 0;
      var h' := Absorb(h, a[..8]);
      ConcatSplit(a, b, 8);
      FeedStep(h, a + b, 8);
      assert Feed(h, a + b) == Feed(h', a[8..] + b);
      FeedStep(h, a, 8);
      FeedWholeChunks(h', a[8..], b);
    }
  }

  /** ... and splitting elsewhere changes the result: one update with two
      bytes uses one chunk, two updates with a byte each use two. */
  lemma SplitMidChunk(h: Digest, x: byte, y: byte)
    requires WellFormed(h)
    ensures Feed(h, [x, y]) != Feed(Feed(h, [x]), [y])
  {
    FeedNonce(h, [x, y]);
    FeedNonce(h, [x]);
    FeedNonce(Feed(h, [x]), [y]);
    assert Chunks(|[x, y]|) == 1 && Chunks(|[x]|) == 1 && Chunks(|[y]|) == 1;
    Add64Assoc(h.nonce, 1, 1, 2);
    NextDiffers(h.nonce);
  }

  lemma NextDiffers(n: nat)
    requires n < TWO64
    ensures Add64(n, 1) != Add64(n, 2)
  {
  }

  /** After start with at most one chunk, the state is that chunk's block. */
  lemma StartOneChunk(data: seq<byte>)
    requires 0 < |data| <= 8
    ensures Feed(Reset, data).state == Block(BlockInput(data, Add64(0, Sum(data)), 0))
  {
    FeedStep(Reset, data, |data|);
    assert data[..|data|] == data && data[|data|..] == [];
  }

  /** After start with one full chunk and a second one, the second block
      is XORed into the first. */
  lemma StartTwoChunks(a: seq<byte>, b: seq<byte>)
    requires |a| == 8 && 0 < |b| <= 8
    ensures Feed(Reset, a + b).state ==
      XorState(Block(BlockInput(a, Add64(0, Sum(a)), 0)),
               Block(BlockInput(b, Add64(Add64(0, Sum(a)), Sum(b)), 1)))
  {
    var h := Absorb(Reset, a);
    FeedStep(Reset, a + b, 8);
    assert (a + b)[..8] == a && (a + b)[8..] == b;
    assert h.nonce == 1 && h.initialized;
    FeedStep(h, b, |b|);
    assert b[..|b|] == b && b[|b|..] == [];
  }

  // ---------------------------------------------------------------------
  // hexdump

  /** The lower-case hex digit of a value below 16. */
  function HexDigit(v: nat): char
    requires v < 16
  {
    "0123456789abcdef"[v]
  }

  function DigitValue(c: char): nat
  {
    if '0' <= c <= '9' then c as nat - '0' as nat
    else if 'a' <= c <= 'f' then c as nat - 'a' as nat + 10
    else 0
  }

  function Pow16(n: nat): (p: nat)
    ensures p > 0
  {
    if n == 0 then 1 else 16 * Pow16(n - 1)
  }

  /** The last n hex digits of v, most significant first: what
      std::hex << std::setw(n) << std::setfill('0') writes for v < 16^n. */
  function HexDigits(v: nat, n: nat): (s: string)
    ensures |s| == n
  {
    if n == 0 then [] else HexDigits(v / 16, n - 1) + [HexDigit(v % 16)]
  }

  /** The number a string of hex digits spells. */
  function HexValue(s: string): nat
  {
    if |s| == 0 then 0 else HexValue(s[..|s| - 1]) * 16 + DigitValue(s[|s| - 1])
  }

  /** Each digit reads back as the value it was written from. */
  lemma DigitRoundTrip(v: nat)
    requires v < 16
    ensures DigitValue(HexDigit(v)) == v
  {
  }

  lemma HexValueAppend(a: string, x: char)
    ensures HexValue(a + [x]) == HexValue(a) * 16 + DigitValue(x)
  {
    assert (a + [x])[..|a|] == a;
  }

  /** The digits read back to the number they were written from. */
  lemma {:induction false} HexRoundTrip(v: nat, n: nat)
    requires v < Pow16(n)
    ensures HexValue(HexDigits(v, n)) == v
  {
    if n > 0 {
      var q, r := HexDigitsSplit(v, n);
      HexRoundTrip(q, n - 1);
      DigitRoundTrip(r);
      HexValueAppend(HexDigits(q, n - 1), HexDigit(r));
    }
  }

  /** The last digit and the digits before it. */
  lemma HexDigitsSplit(v: nat, n: nat) returns (q: nat, r: nat)
    requires n > 0 && v < Pow16(n)
    ensures q < Pow16(n - 1) && r < 16 && q * 16 + r == v
    ensures HexDigits(v, n) == HexDigits(q, n - 1) + [HexDigit(r)]
  {
    q, r := v / 16, v % 16;
  }

  /** The hex text of a run of words, 8 digits each. */
  function HexWords(ws: seq<word>): (s: string)
    ensures |s| == 8 * |ws|
  {
    if |ws| == 0 then [] else HexWords(ws[..|ws| - 1]) + HexDigits(ws[|ws| - 1] as nat, 8)
  }

  lemma SliceLeft<T>(a: seq<T>, b: seq<T>, lo: nat, hi: nat)
    requires lo <= hi <= |a|
    ensures (a + b)[lo..hi] == a[lo..hi]
  {
  }

  lemma SliceRight<T>(a: seq<T>, b: seq<T>)
    ensures (a + b)[|a|..|a| + |b|] == b
  {
  }

  /** Digits 8i..8i+8 of the text spell word i. */
  lemma {:induction false} HexWordsAt(ws: seq<word>, i: nat)
    requires i < |ws|
    ensures HexValue(HexWords(ws)[8 * i..8 * i + 8]) == ws[i] as nat
  {
    var last := |ws| - 1;
    var a, b := HexWords(ws[..last]), HexDigits(ws[last] as nat, 8);
    assert HexWords(ws) == a + b;
    if i == last {
      assert |a| == 8 * i && |b| == 8;
      SliceRight(a, b);
      HexRoundTrip(ws[i] as nat, 8);
    } else {
      assert 8 * i + 8 <= 8 * last == |a|;
      SliceLeft(a, b, 8 * i, 8 * i + 8);
      HexWordsAt(ws[..last], i);
      assert ws[..last][i] == ws[i];
    }
  }

  /** Every 8-digit group of the text spells its word. */
  lemma HexWordsSpell(ws: seq<word>)
    ensures forall i :: 0 <= i < |ws| ==> HexValue(HexWords(ws)[8 * i..8 * i + 8]) == ws[i] as nat
  {
    forall i | 0 <= i < |ws|
      ensures HexValue(HexWords(ws)[8 * i..8 * i + 8]) == ws[i] as nat
    {
      HexWordsAt(ws, i);
    }
  }

  /** A digest of Size bits is Size / 32 words, 8 hex digits each. */
  lemma DigestLength(size: nat)
    requires size == 64 || size == 128 || size == 256 || size == 512
    ensures 8 * (size / 32) == size / 4
  {
  }

  /** CCSH<Size>. Size is the digest length in bits. */
  class CCSH {
    const size: nat
    const state: array<word>
    var counter: nat
    var nonce: nat
    var initialized: bool

    ghost predicate Valid()
      reads this
    {
      state.Length == 16 && counter < TWO64 && nonce < TWO64 &&
      (size == 64 || size == 128 || size == 256 || size == 512)
    }

    /** The fields as a value. */
    function Current(): Digest
      reads this, state
    {
      Digest(state[..], counter, nonce, initialized)
    }

    /** The zero-initialising constructor (misspelled BHF in the source). */
    constructor (size: nat)
      requires size == 64 || size == 128 || size == 256 || size == 512
      ensures Valid() && this.size == size && fresh(state)
      ensures Current() == Reset
    {
      this.size := size;
      state := new word[16](i => 0);
      counter, nonce, initialized := 0, 0, false;
    }

    /** start(data, length): reset every field, then update. */
    method Start(data: seq<byte>)
      requires Valid()
      modifies this, state
      ensures Valid()
      ensures Current() == Feed(Reset, data)
    {
      var i := 0;
      while i < 16
        invariant 0 <= i <= 16 && forall j :: 0 <= j < i ==> state[j] == 0
      {
        state[i] := 0;
        i := i + 1;
      }
      assert state[..] == Reset.state;
      counter, nonce, initialized := 0, 0, false;
      Update(data);
    }

    /** update(data, length): one block per chunk of up to 8 bytes. */
    method Update(data: seq<byte>)
      requires Valid()
      modifies this, state
      ensures Valid()
      ensures Current() == Feed(old(Current()), data)
    {
      ghost var h0 := Current();
      var i := 0;
      while i < |data|
        invariant Valid()
        invariant Feed(Current(), data[Min(i, |data|)..]) == Feed(h0, data)
      {
        UpdateChunk(data, i);
        i := i + 8;
      }
      FeedEmpty(Current(), data[Min(i, |data|)..]);
    }

    /** One pass of update's loop: the chunk at offset i. */
    method UpdateChunk(data: seq<byte>, i: nat)
      requires Valid() && i < |data|
      modifies this, state
      ensures Valid()
      ensures Feed(Current(), data[Min(i + 8, |data|)..]) == Feed(old(Current()), data[i..])
    {
      var m := Min(8, |data| - i);
      SliceOfSlice(data, i, m);
      assert i + m == Min(i + 8, |data|);
      FeedStep(Current(), data[i..], m);
      AbsorbChunk(data[i..i + m]);
    }

    /** The body of update's loop for one chunk. */
    method AbsorbChunk(chunk: seq<byte>)
      requires Valid() && 0 < |chunk| <= 8
      modifies this, state
      ensures Valid()
      ensures Current() == Absorb(old(Current()), chunk)
    {
      var currState := LoadChunk(chunk);
      nonce := Add64(nonce, 1);
      var outputBlock := new word[16];
      ChachaBlock(outputBlock, currState);
      if !initialized {
        CopyIn(outputBlock);
        initialized := true;
      } else {
        XorIn(outputBlock);
      }
    }

    /** The block input of a chunk: the constants, the bytes, each also
        added to counter, then the low halves of counter and nonce. */
    method LoadChunk(chunk: seq<byte>) returns (currState: array<word>)
      requires Valid() && |chunk| <= 8
      modifies this`counter
      ensures Valid() && fresh(currState)
      ensures counter == Add64(old(counter), Sum(chunk))
      ensures currState[..] == BlockInput(chunk, counter, nonce)
    {
      currState := new word[16](i => 0);
      currState[0], currState[1], currState[2], currState[3] := SIGMA[0], SIGMA[1], SIGMA[2], SIGMA[3];
      BlockInputEmpty(chunk);
      assert currState[..] == BlockInput(chunk[..0], 0, 0);
      var j := 0;
      while j < |chunk|
        invariant 0 <= j <= |chunk| && counter == Add64(old(counter), Sum(chunk[..j]))
        invariant currState[..] == BlockInput(chunk[..j], 0, 0)
      {
        assert chunk[..j + 1][..j] == chunk[..j];
        Add64Assoc(old(counter), Sum(chunk[..j]), chunk[j] as nat, Sum(chunk[..j + 1]));
        counter := Add64(counter, chunk[j] as nat);
        BlockInputGrow(chunk, j);
        currState[4 + j] := ByteWord(chunk[j]);
        j := j + 1;
      }
      assert chunk[..|chunk|] == chunk;
      BlockInputCounts(chunk, counter, nonce);
      currState[12] := Low32(counter);
      currState[14] := Low32(nonce);
    }

    /** The first block after start becomes the state. */
    method CopyIn(out: array<word>)
      requires Valid() && out.Length == 16 && out != state
      modifies state
      ensures state[..] == out[..]
    {
      var j := 0;
      while j < 16
        invariant 0 <= j <= 16 && forall t :: 0 <= t < j ==> state[t] == out[t]
      {
        state[j] := out[j];
        j := j + 1;
      }
      assert state[..] == out[..];
    }

    /** Every later block is XORed into the state. */
    method XorIn(out: array<word>)
      requires Valid() && out.Length == 16 && out != state
      modifies state
      ensures state[..] == XorState(old(state[..]), out[..])
    {
      var j := 0;
      while j < 16
        invariant 0 <= j <= 16
        invariant forall t :: 0 <= t < j ==> state[t] == Xor(old(state[t]), out[t])
        invariant forall t :: j <= t < 16 ==> state[t] == old(state[t])
      {
        state[j] := Xor(state[j], out[j]);
        j := j + 1;
      }
      assert state[..] == XorState(old(state[..]), out[..]);
    }

    /** hexdump: the first Size/32 words of the state, 8 hex digits each. */
    method Hexdump() returns (s: string)
      requires Valid()
      ensures s == HexWords(state[..size / 32]) && |s| == size / 4
      ensures forall i :: 0 <= i < size / 32 ==> HexValue(s[8 * i..8 * i + 8]) == state[i] as nat
    {
      s := "";
      var i := 0;
      while i < size / 32
        invariant 0 <= i <= size / 32 && s == HexWords(state[..i])
      {
        assert state[..i + 1][..i] == state[..i];
        s := s + HexDigits(state[i] as nat, 8);
        i := i + 1;
      }
      ghost var ws := state[..size / 32];
      DigestLength(size);
      HexWordsSpell(ws);
      assert forall i :: 0 <= i < |ws| ==> ws[i] == state[i];
    }
  }
}
