/** The odometer that enumerates every length-k string over an alphabet
    (include/combinations.h). The index tuple is read as a base-|letters|
    number, most significant digit first; each call returns the string the
    current tuple spells and then adds one to the number, with carry. */
module Combinations {
  import opened Base

  /** n to the power e. */
  function Pow(n: nat, e: nat): (p: nat)
    ensures n > 0 ==> p > 0
  {
    if e == 0 then 1 else n * Pow(n, e - 1)
  }

  /** k zero digits: the tuple a new generator starts from. */
  function Zeros(k: nat): seq<nat>
  {
    seq(k, i => 0)
  }

  /** Every digit is a valid position in an alphabet of n letters. */
  predicate InRange(idx: seq<nat>, n: nat)
  {
    forall i :: 0 <= i < |idx| ==> idx[i] < n
  }

  /** Every digit is the largest one, n - 1. */
  predicate AllMax(idx: seq<nat>, n: nat)
  {
    forall i :: 0 <= i < |idx| ==> idx[i] + 1 == n
  }

  /** Adding one to idx makes the leading digit carry out: the generator's
      flag drops. A zero-length tuple has no leading digit and never wraps. */
  predicate Wraps(idx: seq<nat>, n: nat)
  {
    |idx| > 0 && AllMax(idx, n)
  }

  /** The number the digits spell in base n, most significant first. */
  function Value(idx: seq<nat>, n: nat): nat
  {
    if |idx| == 0 then 0 else Value(idx[..|idx| - 1], n) * n + idx[|idx| - 1]
  }

  /** The string the tuple spells: letter idx[i] at position i. */
  function Spell(letters: seq<char>, idx: seq<nat>): (s: string)
    requires InRange(idx, |letters|)
    ensures |s| == |idx| && forall i :: 0 <= i < |idx| ==> s[i] == letters[idx[i]]
  {
    if |idx| == 0 then [] else Spell(letters, idx[..|idx| - 1]) + [letters[idx[|idx| - 1]]]
  }

  /** The tuple after one odometer step: the last digit goes up by one, a
      digit that reaches n becomes 0 and carries into the digit before it. */
  function Succ(idx: seq<nat>, n: nat): (r: seq<nat>)
    ensures |r| == |idx|
  {
    if |idx| == 0 then []
    else if idx[|idx| - 1] + 1 == n then Succ(idx[..|idx| - 1], n) + [0]
    else idx[..|idx| - 1] + [idx[|idx| - 1] + 1]
  }

  /** idx comes strictly before jdx in lexicographic order. */
  predicate LexLess(idx: seq<nat>, jdx: seq<nat>)
  {
    exists i :: 0 <= i < |idx| == |jdx| && idx[..i] == jdx[..i] && idx[i] < jdx[i]
  }

  /** A run of largest digits at the end turns into zeros and the carry
      moves to the part before it. */
  lemma {:induction false} SuccCarry(front: seq<nat>, back: seq<nat>, n: nat)
    requires AllMax(back, n)
    ensures Succ(front + back, n) == Succ(front, n) + Zeros(|back|)
    decreases |back|
  {
    if |back| == 0 {
      assert front + back == front;
    } else {
      var b := back[..|back| - 1];
      assert (front + back)[..|front + back| - 1] == front + b;
      SuccCarry(front, b, n);
    }
  }

  /** A tuple of in-range digits spells a number below n^k. */
  lemma {:induction false} ValueBound(idx: seq<nat>, n: nat)
    requires InRange(idx, n)
    ensures Value(idx, n) < Pow(n, |idx|)
  {
    if |idx| > 0 {
      var front := idx[..|idx| - 1];
      ValueBound(front, n);
      var v, p := Value(front, n), Pow(n, |front|);
      MulLe(v + 1, p, n);
      assert Value(idx, n) < (v + 1) * n;
    }
  }

  /** The digits are all the largest one exactly when the front ones are
      and so is the last. */
  lemma AllMaxSplit(idx: seq<nat>, n: nat)
    requires |idx| > 0
    ensures AllMax(idx, n) <==> AllMax(idx[..|idx| - 1], n) && idx[|idx| - 1] + 1 == n
  {
    if AllMax(idx[..|idx| - 1], n) && idx[|idx| - 1] + 1 == n {
      forall i | 0 <= i < |idx| ensures idx[i] + 1 == n {
        if i < |idx| - 1 {
          assert idx[i] == idx[..|idx| - 1][i];
        }
      }
    }
  }

  /** v * n + d, with d a digit below n and v below p, stays below p * n
      and reaches p * n - 1 only when both v and d are the largest. */
  lemma Digits(v: nat, d: nat, p: nat, n: nat)
    requires v < p && d < n
    ensures v * n + d < p * n
    ensures v * n + d + 1 == p * n <==> v + 1 == p && d + 1 == n
  {
    assert (v + 1) * n == v * n + n;
    MulLe(v + 1, p, n);
    if v + 1 < p {
      assert (v + 2) * n == (v + 1) * n + n;
      MulLe(v + 2, p, n);
    }
  }

  /** The odometer wraps exactly from the largest number, n^k - 1. */
  lemma {:induction false} WrapsAtTop(idx: seq<nat>, n: nat)
    requires InRange(idx, n)
    ensures Wraps(idx, n) <==> |idx| > 0 && Value(idx, n) + 1 == Pow(n, |idx|)
  {
    if |idx| > 0 {
      var front := idx[..|idx| - 1];
      ValueBound(front, n);
      Digits(Value(front, n), idx[|idx| - 1], Pow(n, |front|), n);
      AllMaxSplit(idx, n);
      if |front| > 0 {
        WrapsAtTop(front, n);
      }
    }
  }

  /** One step keeps every digit in range and adds one to the number, or
      wraps it to zero. */
  lemma {:induction false} SuccValue(idx: seq<nat>, n: nat)
    requires InRange(idx, n)
    ensures InRange(Succ(idx, n), n)
    ensures Value(Succ(idx, n), n) == if Wraps(idx, n) || |idx| == 0 then 0 else Value(idx, n) + 1
  {
    if |idx| > 0 {
      var front, d := idx[..|idx| - 1], idx[|idx| - 1];
      var next := Succ(idx, n);
      AllMaxSplit(idx, n);
      if d + 1 == n {
        SuccValue(front, n);
        CarryValue(idx, n);
      } else {
        assert next[..|idx| - 1] == front;
      }
    }
  }

  /** The last digit carries: the number spelled by the front, advanced,
      is shifted one place up and gets a 0 digit. */
  lemma CarryValue(idx: seq<nat>, n: nat)
    requires |idx| > 0 && idx[|idx| - 1] + 1 == n
    requires InRange(Succ(idx[..|idx| - 1], n), n)
    requires Value(Succ(idx[..|idx| - 1], n), n) ==
      if AllMax(idx[..|idx| - 1], n) then 0 else Value(idx[..|idx| - 1], n) + 1
    ensures InRange(Succ(idx, n), n)
    ensures Value(Succ(idx, n), n) == if AllMax(idx[..|idx| - 1], n) then 0 else Value(idx, n) + 1
  {
    SuccLastCarry(idx, n);
    InRangeSnoc(Succ(idx[..|idx| - 1], n), 0, n);
    CarryValueArith(idx, Succ(idx[..|idx| - 1], n), n, AllMax(idx[..|idx| - 1], n));
  }

  lemma SuccLastCarry(idx: seq<nat>, n: nat)
    requires |idx| > 0 && idx[|idx| - 1] + 1 == n
    ensures Succ(idx, n) == Succ(idx[..|idx| - 1], n) + [0]
  {
  }

  /** The value of the carried tuple sf + [0], for the front's two cases. */
  lemma CarryValueArith(idx: seq<nat>, sf: seq<nat>, n: nat, top: bool)
    requires |idx| > 0 && idx[|idx| - 1] + 1 == n
    requires Value(sf, n) == if top then 0 else Value(idx[..|idx| - 1], n) + 1
    ensures Value(sf + [0], n) == if top then 0 else Value(idx, n) + 1
  {
    ValueSnoc(sf, 0, n);
    Scale(Value(sf, n), Value(idx[..|idx| - 1], n), n);
  }

  lemma ValueSnoc(a: seq<nat>, x: nat, n: nat)
    ensures Value(a + [x], n) == Value(a, n) * n + x
  {
    assert (a + [x])[..|a|] == a;
  }

  lemma InRangeSnoc(a: seq<nat>, x: nat, n: nat)
    requires InRange(a, n) && x < n
    ensures InRange(a + [x], n)
  {
  }

  /** w * n for the two values a carried front can take. */
  lemma Scale(w: nat, v: nat, n: nat)
    ensures w == 0 ==> w * n == 0
    ensures w == v + 1 ==> w * n == v * n + n
  {
  }

  /** A step that does not wrap moves strictly forward in lexicographic order. */
  lemma {:induction false} SuccIncreases(idx: seq<nat>, n: nat)
    requires InRange(idx, n) && |idx| > 0 && !Wraps(idx, n)
    ensures LexLess(idx, Succ(idx, n))
  {
    var last := |idx| - 1;
    var front := idx[..last];
    var next := Succ(idx, n);
    if idx[last] + 1 == n {
      assert !AllMax(front, n);
      assert |front| > 0;
      SuccIncreases(front, n);
      var i :| 0 <= i < |front| && front[..i] == Succ(front, n)[..i] && front[i] < Succ(front, n)[i];
      assert next[..last] == Succ(front, n);
      assert idx[..i] == front[..i] && next[..i] == Succ(front, n)[..i];
      assert idx[i] < next[i];
    } else {
      assert idx[..last] == next[..last];
    }
  }

  /** Equal numbers of the same width have the same digits, so tuples met
      before the wrap, whose numbers are the distinct call counts, are
      pairwise distinct. */
  lemma {:induction false} ValueInjective(idx: seq<nat>, jdx: seq<nat>, n: nat)
    requires |idx| == |jdx| && InRange(idx, n) && InRange(jdx, n)
    requires Value(idx, n) == Value(jdx, n)
    ensures idx == jdx
  {
    if |idx| > 0 {
      var last := |idx| - 1;
      var a, b := Value(idx[..last], n), Value(jdx[..last], n);
      LastDigit(a, idx[last], b, jdx[last], n);
      ValueInjective(idx[..last], jdx[..last], n);
      assert idx == idx[..last] + [idx[last]];
      assert jdx == jdx[..last] + [jdx[last]];
    }
  }

  /** The quotient and the last digit of a base-n number are unique. */
  lemma LastDigit(a: nat, d: nat, b: nat, e: nat, n: nat)
    requires d < n && e < n && a * n + d == b * n + e
    ensures a == b && d == e
  {
    if a < b {
      assert (a + 1) * n == a * n + n;
      MulLe(a + 1, b, n);
    } else if b < a {
      assert (b + 1) * n == b * n + n;
      MulLe(b + 1, a, n);
    }
  }

  lemma MulLe(x: nat, y: nat, n: nat)
    requires x <= y
    ensures x * n <= y * n
  {
    assert y * n == x * n + (y - x) * n;
  }

  /** With calls == laps * p + v and v a digit value below p, no lap has
      been completed exactly while fewer than p calls have been made. */
  lemma BeforeWrap(calls: nat, laps: nat, v: nat, p: nat)
    requires v < p && calls == laps * p + v
    ensures laps == 0 <==> calls < p
  {
    if laps > 0 {
      MulLe(1, laps, p);
    }
  }

  /** One successful call keeps the count equation of the generator: the
      call count grows by one, and a wrap completes one more full turn. */
  lemma CountStep(idx: seq<nat>, n: nat, calls: nat, laps: nat)
    requires n > 0 && |idx| > 0 && InRange(idx, n)
    requires calls == laps * Pow(n, |idx|) + Value(idx, n)
    ensures InRange(Succ(idx, n), n)
    ensures calls + 1 == (if Wraps(idx, n) then laps + 1 else laps) * Pow(n, |idx|) + Value(Succ(idx, n), n)
  {
    SuccValue(idx, n);
    WrapsAtTop(idx, n);
    if Wraps(idx, n) {
      assert (laps + 1) * Pow(n, |idx|) == laps * Pow(n, |idx|) + Pow(n, |idx|);
    }
  }

  /** The tuple after c successful calls of a generator over n letters
      and k digits: c odometer steps from k zeros. */
  function AfterCalls(c: nat, n: nat, k: nat): (r: seq<nat>)
    ensures |r| == k
  {
    if c == 0 then Zeros(k) else Succ(AfterCalls(c - 1, n, k), n)
  }

  /** Before the first wrap, the tuple after c calls spells c in base n. */
  lemma {:induction false} AfterCallsValue(c: nat, n: nat, k: nat)
    requires n > 0 && c < Pow(n, k)
    ensures InRange(AfterCalls(c, n, k), n) && Value(AfterCalls(c, n, k), n) == c
  {
    if c == 0 {
      ValueZeros(k, n);
    } else {
      var prev := AfterCalls(c - 1, n, k);
      AfterCallsValue(c - 1, n, k);
      WrapsAtTop(prev, n);
      SuccValue(prev, n);
    }
  }

  /** Of two tuples of the same width, the one spelling the smaller number
      comes first in lexicographic order. */
  lemma {:induction false} ValueOrder(idx: seq<nat>, jdx: seq<nat>, n: nat)
    requires |idx| == |jdx| && InRange(idx, n) && InRange(jdx, n)
    requires Value(idx, n) < Value(jdx, n)
    ensures LexLess(idx, jdx)
  {
    var last := |idx| - 1;
    var front, back := idx[..last], jdx[..last];
    var a, b := Value(front, n), Value(back, n);
    FrontNoGreater(a, idx[last], b, jdx[last], n);
    if a == b {
      ValueInjective(front, back, n);
      assert idx[..last] == jdx[..last] && idx[last] < jdx[last];
    } else {
      ValueOrder(front, back, n);
      var i :| 0 <= i < |front| && front[..i] == back[..i] && front[i] < back[i];
      assert idx[..i] == front[..i] && jdx[..i] == back[..i];
    }
  }

  /** A smaller base-n number has a quotient no larger. */
  lemma FrontNoGreater(a: nat, d: nat, b: nat, e: nat, n: nat)
    requires d < n && e < n && a * n + d < b * n + e
    ensures a <= b
  {
    if b < a {
      assert (b + 1) * n == b * n + n;
      MulLe(b + 1, a, n);
    }
  }

  /** The tuples of calls c < c' made before the first wrap are distinct,
      and the earlier one comes first in lexicographic order. */
  lemma CallsOrdered(c: nat, c': nat, n: nat, k: nat)
    requires n > 0 && c < c' < Pow(n, k)
    ensures LexLess(AfterCalls(c, n, k), AfterCalls(c', n, k))
    ensures AfterCalls(c, n, k) != AfterCalls(c', n, k)
  {
    AfterCallsValue(c, n, k);
    AfterCallsValue(c', n, k);
    ValueOrder(AfterCalls(c, n, k), AfterCalls(c', n, k), n);
  }

  /** Setting the digit at position |front| leaves the rest alone. */
  lemma SetDigit(front: seq<nat>, y: nat, back: seq<nat>, x: nat)
    ensures (front + [y] + back)[|front| := x] == front + [x] + back
  {
  }

  /** Digit j of the odometer is reached with every later digit carried
      to 0; being the largest digit, it carries too, and at the leading
      digit that completes the wrap. */
  lemma CarryAt(start: seq<nat>, j: nat, n: nat)
    requires j < |start| && start[j] + 1 == n && AllMax(start[j + 1..], n)
    ensures (start[..j + 1] + Zeros(|start| - 1 - j))[j := 0] == start[..j] + Zeros(|start| - j)
    ensures AllMax(start[j..], n)
    ensures j == 0 ==> Succ(start, n) == Zeros(|start|) && Wraps(start, n)
  {
    assert start[..j + 1] == start[..j] + [start[j]];
    SetDigit(start[..j], start[j], Zeros(|start| - 1 - j), 0);
    assert [0] + Zeros(|start| - 1 - j) == Zeros(|start| - j);
    assert start[j..] == [start[j]] + start[j + 1..];
    if j == 0 {
      assert start[..0] == [] && [] + start == start;
      SuccCarry([], start, n);
    }
  }

  /** Digit j is reached with every later digit carried to 0; it is below
      the largest digit, so it goes up by one and the step ends there. */
  lemma StopAt(start: seq<nat>, j: nat, n: nat)
    requires j < |start| && start[j] + 1 != n && AllMax(start[j + 1..], n)
    ensures (start[..j + 1] + Zeros(|start| - 1 - j))[j := start[j] + 1] == Succ(start, n)
    ensures !Wraps(start, n)
  {
    var front, zeros := start[..j + 1], Zeros(|start| - 1 - j);
    assert front == start[..j] + [start[j]];
    assert front[..j] == start[..j];
    assert Succ(front, n) == start[..j] + [start[j] + 1];
    SuccCarry(front, start[j + 1..], n);
    assert front + start[j + 1..] == start;
    assert Succ(start, n) == start[..j] + [start[j] + 1] + zeros;
    SetDigit(start[..j], start[j], zeros, start[j] + 1);
  }
  /** The state of the carry loop of getNextCombination at position j:
      digits after j have wrapped to zero and were all at the maximum. */
  ghost predicate Carrying(start: seq<nat>, cur: seq<nat>, j: int, n: nat)
  {
    -1 <= j < |start| && cur == start[..j + 1] + Zeros(|start| - 1 - j) && AllMax(start[j + 1..], n)
  }

  lemma CarryStep(start: seq<nat>, cur: seq<nat>, j: nat, n: nat)
    requires Carrying(start, cur, j, n) && cur[j] + 1 == n
    ensures Carrying(start, cur[j := 0], j - 1, n)
    ensures j == 0 ==> cur[j := 0] == Succ(start, n) && Wraps(start, n)
  {
    assert cur[j] == start[j];
    CarryAt(start, j, n);
  }

  lemma StopStep(start: seq<nat>, cur: seq<nat>, j: nat, n: nat)
    requires Carrying(start, cur, j, n) && cur[j] + 1 != n
    ensures cur[j := cur[j] + 1] == Succ(start, n) && !Wraps(start, n)
  {
    assert cur[j] == start[j];
    StopAt(start, j, n);
  }


  /** CombinationsGenerator. The alphabet is held by reference in C++;
      the model keeps the value it has for the generator's whole life. */
  class CombinationsGenerator {
    const letters: seq<char>
    const k: nat
    var indices: seq<nat>
    var hasNextCombination: bool
    /** How many calls of GetNextCombination have returned a string. */
    ghost var Calls: nat
    /** How many times the leading digit has carried out. */
    ghost var Laps: nat

    /** The tuple is k digits long. With a non-empty alphabet and k > 0 the
        call count is Laps full turns of |letters|^k plus the number the
        tuple spells in base |letters|, and the flag is up exactly until the
        first turn completes; with k = 0 it never drops. */
    ghost predicate Valid()
      reads this
    {
      |indices| == k && indices == AfterCalls(Calls, |letters|, k) &&
      (k == 0 || |letters| == 0 ==> hasNextCombination) &&
      (|letters| > 0 ==> InRange(indices, |letters|)) &&
      (|letters| > 0 && k > 0 ==>
        Calls == Laps * Pow(|letters|, k) + Value(indices, |letters|) &&
        (hasNextCombination <==> Laps == 0))
    }

    constructor (letters: seq<char>, k: nat)
      ensures Valid()
      ensures this.letters == letters && this.k == k
      ensures indices == Zeros(k) && hasNextCombination && Calls == 0
    {
      this.letters := letters;
      this.k := k;
      var zeros: seq<nat> := [];
      var i := 0;
      while i < k
        invariant 0 <= i <= k && zeros == Zeros(i)
      {
        zeros := zeros + [0];
        i := i + 1;
      }
      indices := zeros;
      hasNextCombination := true;
      Calls := 0;
      Laps := 0;
      ValueZeros(k, |letters|);
    }

    /** getNextCombination: spell the current tuple, then advance it. With
        an empty alphabet and k > 0 the first letters.at throws before
        anything changes. */
    method GetNextCombination() returns (r: Result<string>)
      requires Valid()
      modifies this
      ensures Valid()
      ensures r.Err? <==> k > 0 && |letters| == 0
      ensures r.Err? ==> (r.error == OutOfRange && indices == old(indices) &&
        hasNextCombination == old(hasNextCombination) && Calls == old(Calls))
      ensures r.Ok? ==> InRange(old(indices), |letters|) && r.value == Spell(letters, old(indices))
      ensures r.Ok? ==> indices == Succ(old(indices), |letters|) && Calls == old(Calls) + 1
      ensures r.Ok? ==> hasNextCombination == (old(hasNextCombination) && !Wraps(old(indices), |letters|))
    {
      r := SpellCurrent();
      if r.Err? {
        return;
      }
      ghost var start := indices;
      if |letters| > 0 && k > 0 {
        CountStep(start, |letters|, Calls, Laps);
        if Wraps(start, |letters|) {
          Laps := Laps + 1;
        }
      }
      Calls := Calls + 1;
      assert AfterCalls(Calls, |letters|, k) == Succ(start, |letters|);
      Advance();
    }

    /** The first loop of getNextCombination: one letter per index, each
        looked up with a bounds check. */
    method SpellCurrent() returns (r: Result<string>)
      requires |indices| == k
      ensures r.Err? <==> !InRange(indices, |letters|)
      ensures r.Err? ==> r.error == OutOfRange
      ensures r.Ok? ==> InRange(indices, |letters|) && r.value == Spell(letters, indices)
    {
      var n := |letters|;
      var combination: string := "";
      var i := 0;
      while i < k
        invariant 0 <= i <= k && InRange(indices[..i], n)
        invariant combination == Spell(letters, indices[..i])
      {
        if indices[i] >= n {
          return Err(OutOfRange);
        }
        assert indices[..i + 1] == indices[..i] + [indices[i]];
        combination := combination + [letters[indices[i]]];
        i := i + 1;
      }
      assert indices[..k] == indices;
      return Ok(combination);
    }

    /** The carry loop of getNextCombination, from the last index down. */
    method Advance()
      requires |indices| == k
      modifies this`indices, this`hasNextCombination
      ensures indices == Succ(old(indices), |letters|)
      ensures hasNextCombination == (old(hasNextCombination) && !Wraps(old(indices), |letters|))
    {
      var n := |letters|;
      ghost var start := indices;
      var j := k - 1;
      assert start[..k] == start;
      while j >= 0
        invariant Carrying(start, indices, j, n) && (k > 0 ==> j >= 0)
        invariant hasNextCombination == old(hasNextCombination)
      {
        if indices[j] + 1 == n {
          CarryStep(start, indices, j, n);
          indices := indices[j := 0];
          if j == 0 {
            hasNextCombination := false;
            return;
          }
        } else {
          StopStep(start, indices, j, n);
          indices := indices[j := indices[j] + 1];
          return;
        }
        j := j - 1;
      }
    }

    /** hasMoreCombinations: whether the enumeration has not yet wrapped. */
    function HasMoreCombinations(): (b: bool)
      requires Valid()
      reads this
      ensures b <==> k == 0 || |letters| == 0 || Calls < Pow(|letters|, k)
    {
      if k > 0 && |letters| > 0 then
        ValueBound(indices, |letters|);
        BeforeWrap(Calls, Laps, Value(indices, |letters|), Pow(|letters|, k));
        hasNextCombination
      else
        hasNextCombination
    }
  }

  lemma {:induction false} ValueZeros(k: nat, n: nat)
    ensures Value(Zeros(k), n) == 0
  {
    if k > 0 {
      assert Zeros(k)[..k - 1] == Zeros(k - 1);
      ValueZeros(k - 1, n);
    }
  }
}
