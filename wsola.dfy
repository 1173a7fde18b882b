/**
 * The WSOLA (waveform-similarity overlap-add) time stretcher of
 * `rust/src/timestretch.rs`: the AMDF first-minimum search `find_best_match`
 * and the two-pointer overlap-add loop of `process`.
 *
 * Samples are reals; the Hann window is given as a sequence of `windowSize`
 * coefficients. The methods `FindBestMatch` and `Process` follow the Rust
 * loops; the functions `BestMatch`, `Step`, `Run` and `ProcessSpec` say what
 * they compute, and the lemmas say what that computation guarantees. A slice
 * whose end lies past the vector's length panics in Rust; here it is the
 * `Err` of a `Result`.
 */
module Wsola {
  import opened Wrappers

  datatype Wsola = Wsola(speedRatio: real, windowSize: nat, searchRange: nat)

  /** Rust's panic on a slice `[start..end]` with `end` past the length `len`. */
  datatype Panic = SliceEndOutOfRange(end: nat, len: nat)

  /** The position of both pointers and the output buffer between iterations of the main loop. */
  datatype Cursor = Cursor(inPtr: nat, outPtr: nat, output: seq<real>)

  function Min(a: nat, b: nat): nat {
    if a <= b then a else b
  }

  function Abs(x: real): real {
    if x < 0.0 then -x else x
  }

  /** `x as usize` for a float: rounds toward zero and saturates at 0. */
  function ToUsize(x: real): nat {
    if x <= 0.0 then 0 else x.Floor
  }

  /** `Wsola::new`: a 20 ms window and a 10 ms search range; the output hop is then the search range. */
  function New(sampleRate: real, speedRatio: real): (w: Wsola)
    ensures w.speedRatio == speedRatio
    ensures sampleRate >= 0.0 ==> w.windowSize as real <= 0.02 * sampleRate < w.windowSize as real + 1.0
    ensures sampleRate >= 0.0 ==> w.searchRange as real <= 0.01 * sampleRate < w.searchRange as real + 1.0
    ensures sampleRate >= 0.0 ==> HopOut(w) == w.searchRange
  {
    var w := Wsola(speedRatio, ToUsize(0.02 * sampleRate), ToUsize(0.01 * sampleRate));
    assert 0.02 * sampleRate == 2.0 * (0.01 * sampleRate);
    w
  }

  /** The fixed output hop: half a window (50% overlap). */
  function HopOut(w: Wsola): (h: nat)
    ensures 2 * h <= w.windowSize < 2 * h + 2
  {
    w.windowSize / 2
  }

  /** The input hop: the output hop scaled by the speed ratio, rounded toward zero. */
  function HopIn(w: Wsola): (h: nat)
    ensures HopOut(w) as real * w.speedRatio >= 0.0 ==>
      h as real <= HopOut(w) as real * w.speedRatio < h as real + 1.0
  {
    ToUsize(HopOut(w) as real * w.speedRatio)
  }

  /** The configurations `process` terminates on: a positive speed ratio and a nonzero input hop. */
  predicate Runnable(w: Wsola) {
    w.speedRatio > 0.0 && HopIn(w) >= 1
  }

  /** `expected_size`: the input length over the speed ratio, rounded toward zero, plus a window. */
  function ExpectedSize(w: Wsola, n: nat): (size: nat)
    requires w.speedRatio > 0.0
    ensures w.windowSize <= size
  {
    ToUsize(n as real / w.speedRatio) + w.windowSize
  }

  // ----- find_best_match -----

  /** The AMDF score of the first `k` template samples against the search area at `offset`. */
  function AmdfPrefix(template: seq<real>, searchArea: seq<real>, offset: nat, k: nat): (d: real)
    requires k <= |template| && offset + |template| <= |searchArea|
    ensures d >= 0.0
  {
    if k == 0 then 0.0
    else AmdfPrefix(template, searchArea, offset, k - 1) + Abs(template[k - 1] - searchArea[offset + k - 1])
  }

  /** The absolute magnitude difference between the template and the search area at `offset`. */
  function Amdf(template: seq<real>, searchArea: seq<real>, offset: nat): real
    requires offset + |template| <= |searchArea|
  {
    AmdfPrefix(template, searchArea, offset, |template|)
  }

  /** The first offset below `k` with the least AMDF score. */
  function Scan(template: seq<real>, searchArea: seq<real>, k: nat): (best: nat)
    requires |template| <= |searchArea| && 1 <= k <= |searchArea| - |template|
    ensures best < k
    ensures forall o: nat :: o < k ==> Amdf(template, searchArea, best) <= Amdf(template, searchArea, o)
    ensures forall o: nat :: o < best ==> Amdf(template, searchArea, best) < Amdf(template, searchArea, o)
  {
    if k == 1 then 0
    else
      var b := Scan(template, searchArea, k - 1);
      if Amdf(template, searchArea, k - 1) < Amdf(template, searchArea, b) then k - 1 else b
  }

  /**
   * What `find_best_match` returns: over the offsets `0..|searchArea| - |template|`,
   * the first one with the least AMDF score, and 0 when there are none.
   */
  function BestMatch(template: seq<real>, searchArea: seq<real>): (best: nat)
    requires |template| <= |searchArea|
    ensures |searchArea| == |template| ==> best == 0
    ensures |searchArea| > |template| ==> best < |searchArea| - |template|
    ensures forall o: nat :: o < |searchArea| - |template| ==>
      Amdf(template, searchArea, best) <= Amdf(template, searchArea, o)
    ensures forall o: nat :: o < best ==> Amdf(template, searchArea, best) < Amdf(template, searchArea, o)
  {
    if |searchArea| == |template| then 0 else Scan(template, searchArea, |searchArea| - |template|)
  }

  /** `find_best_match`; the running minimum starts above every score (`f32::MAX`), here `None`. */
  method FindBestMatch(template: seq<real>, searchArea: seq<real>) returns (bestOffset: nat)
    requires |template| <= |searchArea|
    ensures bestOffset == BestMatch(template, searchArea)
  {
    bestOffset := 0;
    var minDiff: Option<real> := None;
    var offset := 0;
    while offset < |searchArea| - |template|
      invariant 0 <= offset <= |searchArea| - |template|
      invariant offset == 0 ==> minDiff == None && bestOffset == 0
      invariant offset > 0 ==> bestOffset == Scan(template, searchArea, offset)
      invariant offset > 0 ==> minDiff == Some(Amdf(template, searchArea, bestOffset))
    {
      var diff := 0.0;
      var i := 0;
      while i < |template|
        invariant 0 <= i <= |template|
        invariant diff == AmdfPrefix(template, searchArea, offset, i)
      {
        diff := diff + Abs(template[i] - searchArea[offset + i]);
        i := i + 1;
      }
      if minDiff.None? || diff < minDiff.value {
        minDiff := Some(diff);
        bestOffset := offset;
      }
      offset := offset + 1;
    }
  }

  // ----- process -----

  /** The loop guard of the main loop. */
  predicate Continues(w: Wsola, n: nat, inPtr: nat) {
    inPtr + HopIn(w) + w.windowSize + w.searchRange < n
  }

  /** The output after step 1: the first window of input, windowed; zeros after it. */
  function InitialOutput(input: seq<real>, window: seq<real>, size: nat): seq<real>
    requires |window| <= |input| && |window| <= size
  {
    seq(size, j requires 0 <= j < size => if j < |window| then input[j] * window[j] else 0.0)
  }

  /** Overlap-add: `window`-weighted input from `inStart` added onto the output from `outStart`, within its length. */
  function OverlapAdd(output: seq<real>, input: seq<real>, window: seq<real>, outStart: nat, inStart: nat): (r: seq<real>)
    requires inStart + |window| <= |input|
    ensures |r| == |output|
    ensures forall j :: 0 <= j < |output| && !(outStart <= j < outStart + |window|) ==> r[j] == output[j]
  {
    seq(|output|, j requires 0 <= j < |output| =>
      if outStart <= j < outStart + |window| then output[j] + input[inStart + (j - outStart)] * window[j - outStart]
      else output[j])
  }

  /** The template: the second half of the last window written to the output. */
  function Template(w: Wsola, c: Cursor): seq<real>
    requires c.outPtr + HopOut(w) + HopOut(w) <= |c.output|
  {
    c.output[c.outPtr + HopOut(w)..c.outPtr + HopOut(w) + HopOut(w)]
  }

  /** The search area: an output hop plus the search range of input, one input hop past `inPtr`. */
  function SearchArea(w: Wsola, input: seq<real>, c: Cursor): seq<real>
    requires Continues(w, |input|, c.inPtr)
  {
    input[c.inPtr + HopIn(w)..c.inPtr + HopIn(w) + HopOut(w) + w.searchRange]
  }

  /** Overlap-add of the input segment at the best offset and the advance of both pointers. */
  function Blend(w: Wsola, input: seq<real>, window: seq<real>, c: Cursor, best: nat): Cursor
    requires c.inPtr + HopIn(w) + best + |window| <= |input|
  {
    Cursor(c.inPtr + HopIn(w) + best, c.outPtr + HopOut(w),
           OverlapAdd(c.output, input, window, c.outPtr + HopOut(w), c.inPtr + HopIn(w) + best))
  }

  lemma BlendUnfolds(w: Wsola, input: seq<real>, window: seq<real>, c: Cursor, best: nat)
    requires c.inPtr + HopIn(w) + best + |window| <= |input|
    ensures Blend(w, input, window, c, best)
         == Cursor(c.inPtr + HopIn(w) + best, c.outPtr + HopOut(w),
                   OverlapAdd(c.output, input, window, c.outPtr + HopOut(w), c.inPtr + HopIn(w) + best))
  {
  }

  /** One iteration whose template slice is in bounds: find the best match, blend, advance. */
  function Advance(w: Wsola, input: seq<real>, window: seq<real>, c: Cursor): (next: Cursor)
    requires Runnable(w) && |window| == w.windowSize && Continues(w, |input|, c.inPtr)
    requires c.outPtr + HopOut(w) + HopOut(w) <= |c.output|
    ensures next.outPtr == c.outPtr + HopOut(w)
    ensures c.inPtr + HopIn(w) <= next.inPtr
    ensures w.searchRange == 0 ==> next.inPtr == c.inPtr + HopIn(w)
    ensures w.searchRange > 0 ==> next.inPtr < c.inPtr + HopIn(w) + w.searchRange
    ensures next.inPtr + w.windowSize < |input|
    ensures |next.output| == |c.output|
  {
    Blend(w, input, window, c, BestMatch(Template(w, c), SearchArea(w, input, c)))
  }

  /** One iteration of the main loop as written: it panics when the template slice ends past the output. */
  function Step(w: Wsola, input: seq<real>, window: seq<real>, c: Cursor): (r: Result<Cursor, Panic>)
    requires Runnable(w) && |window| == w.windowSize && Continues(w, |input|, c.inPtr)
    ensures r.Err? <==> c.outPtr + HopOut(w) + HopOut(w) > |c.output|
    ensures r.Err? ==> r.error == SliceEndOutOfRange(c.outPtr + HopOut(w) + HopOut(w), |c.output|)
  {
    if c.outPtr + HopOut(w) + HopOut(w) > |c.output| then Err(SliceEndOutOfRange(c.outPtr + HopOut(w) + HopOut(w), |c.output|))
    else Ok(Advance(w, input, window, c))
  }

  /** The best offset keeps the blended input segment inside the input. */
  lemma BestMatchInBounds(w: Wsola, input: seq<real>, c: Cursor, best: nat)
    requires Runnable(w) && Continues(w, |input|, c.inPtr)
    requires c.outPtr + HopOut(w) + HopOut(w) <= |c.output|
    requires best == BestMatch(Template(w, c), SearchArea(w, input, c))
    ensures c.inPtr + HopIn(w) + best + w.windowSize <= |input|
  {
  }

  /** A step whose template slice is in bounds, spelled out for a caller that computed the best match and the blend itself. */
  lemma StepAdvances(w: Wsola, input: seq<real>, window: seq<real>, c: Cursor, best: nat, outStart: nat, inStart: nat, output: seq<real>)
    requires Runnable(w) && |window| == w.windowSize && Continues(w, |input|, c.inPtr)
    requires c.outPtr + HopOut(w) + HopOut(w) <= |c.output|
    requires best == BestMatch(Template(w, c), SearchArea(w, input, c))
    requires outStart == c.outPtr + HopOut(w) && inStart == c.inPtr + HopIn(w) + best
    requires inStart + w.windowSize <= |input|
    requires output == OverlapAdd(c.output, input, window, outStart, inStart)
    ensures Step(w, input, window, c) == Ok(Cursor(inStart, outStart, output))
  {
    BlendUnfolds(w, input, window, c, best);
  }

  /** The main loop as written, from cursor `c` until the guard fails or a step panics. */
  function Run(w: Wsola, input: seq<real>, window: seq<real>, c: Cursor): (r: Result<Cursor, Panic>)
    requires Runnable(w) && |window| == w.windowSize
    ensures r.Ok? ==> !Continues(w, |input|, r.value.inPtr)
    ensures r.Ok? ==> |r.value.output| == |c.output|
    ensures r.Ok? ==> r.value.inPtr >= c.inPtr && r.value.outPtr >= c.outPtr
    decreases |input| - c.inPtr
  {
    if !Continues(w, |input|, c.inPtr) then Ok(c)
    else
      match Step(w, input, window, c)
      case Err(e) => Err(e)
      case Ok(next) => Run(w, input, window, next)
  }

  /** A step that passes the guard and does not panic hands the rest of the loop to the next cursor. */
  lemma RunUnfolds(w: Wsola, input: seq<real>, window: seq<real>, c: Cursor, next: Cursor)
    requires Runnable(w) && |window| == w.windowSize && Continues(w, |input|, c.inPtr)
    requires Step(w, input, window, c) == Ok(next)
    ensures Run(w, input, window, c) == Run(w, input, window, next)
  {
  }

  /** A step that passes the guard with its template slice past the output ends the loop in a panic. */
  lemma RunPanicsAt(w: Wsola, input: seq<real>, window: seq<real>, c: Cursor)
    requires Runnable(w) && |window| == w.windowSize && Continues(w, |input|, c.inPtr)
    requires c.outPtr + HopOut(w) + HopOut(w) > |c.output|
    ensures Run(w, input, window, c) == Err(SliceEndOutOfRange(c.outPtr + HopOut(w) + HopOut(w), |c.output|))
  {
  }

  /** The number of completed iterations of the main loop from cursor `c`. */
  function Iterations(w: Wsola, input: seq<real>, window: seq<real>, c: Cursor): nat
    requires Runnable(w) && |window| == w.windowSize
    decreases |input| - c.inPtr
  {
    if !Continues(w, |input|, c.inPtr) then 0
    else
      match Step(w, input, window, c)
      case Err(_) => 0
      case Ok(next) => 1 + Iterations(w, input, window, next)
  }

  function InitialCursor(w: Wsola, input: seq<real>, window: seq<real>): Cursor
    requires w.speedRatio > 0.0 && |window| == w.windowSize && |input| >= w.windowSize
  {
    Cursor(0, 0, InitialOutput(input, window, ExpectedSize(w, |input|)))
  }

  /** What `process` returns, or the panic it stops with. */
  function ProcessSpec(w: Wsola, input: seq<real>, window: seq<real>): (r: Result<seq<real>, Panic>)
    requires Runnable(w) && |window| == w.windowSize
    ensures |input| < w.windowSize + w.searchRange ==> r == Ok(input)
  {
    if |input| < w.windowSize + w.searchRange then Ok(input)
    else Finish(w, ExpectedSize(w, |input|), Run(w, input, window, InitialCursor(w, input, window)))
  }

  lemma FinishCases(w: Wsola, size: nat, res: Result<Cursor, Panic>)
    requires res.Ok? ==> |res.value.output| == size
    ensures res.Ok? ==> Finish(w, size, res) == Ok(res.value.output[..Min(size, res.value.outPtr + w.windowSize)])
    ensures res.Err? ==> Finish(w, size, res) == Err(res.error)
  {
  }

  /** Step 3 of `process`: the panic of the main loop, or its output truncated to `min(size, out_ptr + window_size)`. */
  function Finish(w: Wsola, size: nat, res: Result<Cursor, Panic>): Result<seq<real>, Panic>
    requires res.Ok? ==> |res.value.output| == size
  {
    if res.Err? then Err(res.error) else Ok(res.value.output[..Min(size, res.value.outPtr + w.windowSize)])
  }

  /** Step 4 of the main loop: blend the windowed input segment into the output, skipping indices past its end. */
  method OverlapAddInto(output: array<real>, input: seq<real>, window: seq<real>, outStart: nat, inStart: nat)
    requires inStart + |window| <= |input|
    modifies output
    ensures output[..] == OverlapAdd(old(output[..]), input, window, outStart, inStart)
  {
    ghost var before := output[..];
    for i := 0 to |window|
      invariant forall j :: 0 <= j < output.Length ==>
        output[j] == if outStart <= j < outStart + i then before[j] + input[inStart + (j - outStart)] * window[j - outStart]
                     else before[j]
    {
      var outIdx := outStart + i;
      if outIdx < output.Length {
        output[outIdx] := output[outIdx] + input[inStart + i] * window[i];
      }
    }
    assert forall j :: 0 <= j < output.Length ==> output[..][j] == OverlapAdd(before, input, window, outStart, inStart)[j];
  }

  /**
   * One iteration of the main loop on the output array: slice the template
   * (or panic), search, overlap-add in place, and return the advanced pointers.
   */
  method Iteration(w: Wsola, input: seq<real>, window: seq<real>, output: array<real>, inPtr: nat, outPtr: nat)
    returns (r: Result<(nat, nat), Panic>)
    requires Runnable(w) && |window| == w.windowSize && Continues(w, |input|, inPtr)
    modifies output
    ensures r.Err? ==> Step(w, input, window, Cursor(inPtr, outPtr, old(output[..]))) == Err(r.error)
    ensures r.Ok? ==> Step(w, input, window, Cursor(inPtr, outPtr, old(output[..]))) == Ok(Cursor(r.value.0, r.value.1, output[..]))
  {
    var hopOut := HopOut(w);
    var targetInPtr := inPtr + HopIn(w);
    var templateStart := outPtr + hopOut;
    if templateStart + hopOut > output.Length {
      return Err(SliceEndOutOfRange(templateStart + hopOut, output.Length));
    }
    var template := output[templateStart..templateStart + hopOut];
    var searchStart := targetInPtr;
    var searchArea := input[searchStart..searchStart + hopOut + w.searchRange];
    var bestOffset := FindBestMatch(template, searchArea);
    var adjustedInPtr := searchStart + bestOffset;
    ghost var before := Cursor(inPtr, outPtr, output[..]);
    assert before.output == old(output[..]);
    assert template == Template(w, before);
    assert searchArea == SearchArea(w, input, before);
    BestMatchInBounds(w, input, before, bestOffset);
    OverlapAddInto(output, input, window, templateStart, adjustedInPtr);
    StepAdvances(w, input, window, before, bestOffset, templateStart, adjustedInPtr, output[..]);
    return Ok((adjustedInPtr, templateStart));
  }

  /** Steps 1 of `process`: a zeroed output of `size` samples holding the first window of input, windowed. */
  method InitializeOutput(input: seq<real>, window: seq<real>, size: nat) returns (output: array<real>)
    requires |window| <= |input| && |window| <= size
    ensures fresh(output)
    ensures output[..] == InitialOutput(input, window, size)
  {
    output := new real[size](_ => 0.0);
    ghost var initial := InitialOutput(input, window, size);
    var i := 0;
    while i < |window|
      invariant 0 <= i <= |window|
      invariant forall j :: 0 <= j < size ==> output[j] == if j < i then initial[j] else 0.0
    {
      assert initial[i] == input[i] * window[i];
      output[i] := input[i] * window[i];
      i := i + 1;
    }
    assert output[..] == initial;
  }

  /**
   * Step 2 of `process`: the main loop over the output array, from both
   * pointers at zero until the input is used up or a template slice panics.
   */
  method MainLoop(w: Wsola, input: seq<real>, window: seq<real>, output: array<real>) returns (r: Result<(nat, nat), Panic>)
    requires Runnable(w) && |window| == w.windowSize
    modifies output
    ensures r.Err? ==> Run(w, input, window, Cursor(0, 0, old(output[..]))) == Err(r.error)
    ensures r.Ok? ==> Run(w, input, window, Cursor(0, 0, old(output[..]))) == Ok(Cursor(r.value.0, r.value.1, output[..]))
  {
    var inPtr: nat := 0;
    var outPtr: nat := 0;
    ghost var start := Cursor(0, 0, output[..]);
    while inPtr + HopIn(w) + w.windowSize + w.searchRange < |input|
      invariant Run(w, input, window, Cursor(inPtr, outPtr, output[..])) == Run(w, input, window, start)
      decreases |input| - inPtr
    {
      var step := Iteration(w, input, window, output, inPtr, outPtr);
      if step.Err? {
        return Err(step.error);
      }
      inPtr, outPtr := step.value.0, step.value.1;
    }
    return Ok((inPtr, outPtr));
  }

  /** `Wsola::process`, with the output vector as an array and the panic returned as an error. */
  method Process(w: Wsola, input: seq<real>, window: seq<real>) returns (r: Result<seq<real>, Panic>)
    requires Runnable(w) && |window| == w.windowSize
    ensures r == ProcessSpec(w, input, window)
  {
    if |input| < w.windowSize + w.searchRange {
      return Ok(input);
    }
    var size := ExpectedSize(w, |input|);
    var output := InitializeOutput(input, window, size);
    ghost var start := InitialCursor(w, input, window);
    assert start == Cursor(0, 0, output[..]);
    var pointers := MainLoop(w, input, window, output);
    ghost var res := Run(w, input, window, start);
    FinishCases(w, size, res);
    assert ProcessSpec(w, input, window) == Finish(w, size, res);
    if pointers.Err? {
      return Err(pointers.error);
    }
    var outPtr := pointers.value.1;
    return Ok(output[..Min(size, outPtr + w.windowSize)]);
  }

  // ----- What the main loop guarantees -----

  /** The AMDF score is zero where the template matches the search area sample for sample. */
  lemma {:induction false} AmdfOfMatch(template: seq<real>, searchArea: seq<real>, offset: nat, k: nat)
    requires k <= |template| && offset + |template| <= |searchArea|
    requires forall i :: 0 <= i < k ==> template[i] == searchArea[offset + i]
    ensures AmdfPrefix(template, searchArea, offset, k) == 0.0
  {
    if k > 0 {
      AmdfOfMatch(template, searchArea, offset, k - 1);
    }
  }

  /** An iteration never changes the output before its own template. */
  lemma AdvanceKeepsPrefix(w: Wsola, input: seq<real>, window: seq<real>, c: Cursor)
    requires Runnable(w) && |window| == w.windowSize && Continues(w, |input|, c.inPtr)
    requires c.outPtr + HopOut(w) + HopOut(w) <= |c.output|
    ensures forall j :: 0 <= j < c.outPtr + HopOut(w) ==> Advance(w, input, window, c).output[j] == c.output[j]
  {
    BlendUnfolds(w, input, window, c, BestMatch(Template(w, c), SearchArea(w, input, c)));
  }

  lemma MultiplySucc(a: nat, k: nat)
    ensures (a + 1) * k == a * k + k
  {
  }

  lemma MultiplyCancel(a: nat, b: nat, k: nat)
    requires a * k < b * k
    ensures a < b
  {
    assert (b - a) * k == b * k - a * k;
  }

  lemma MultiplyMonotonic(a: nat, b: nat, k: nat)
    requires a <= b
    ensures a * k <= b * k
  {
    assert b * k == a * k + (b - a) * k;
  }

  /**
   * When the main loop ends without a panic, the output pointer has moved by
   * one output hop per iteration and the input pointer by at least one input
   * hop per iteration, the guard no longer holds, and the output has kept its
   * length and everything before the first template.
   */
  lemma {:induction false} RunProgress(w: Wsola, input: seq<real>, window: seq<real>, c: Cursor)
    requires Runnable(w) && |window| == w.windowSize
    requires Run(w, input, window, c).Ok?
    ensures var d := Run(w, input, window, c).value;
      var m := Iterations(w, input, window, c);
      && d.outPtr == c.outPtr + m * HopOut(w)
      && d.inPtr >= c.inPtr + m * HopIn(w)
      && |d.output| == |c.output|
      && !Continues(w, |input|, d.inPtr)
      && forall j :: 0 <= j < c.outPtr + HopOut(w) && j < |c.output| ==> d.output[j] == c.output[j]
    decreases |input| - c.inPtr
  {
    if Continues(w, |input|, c.inPtr) {
      var next := Advance(w, input, window, c);
      assert Step(w, input, window, c) == Ok(next);
      AdvanceKeepsPrefix(w, input, window, c);
      RunProgress(w, input, window, next);
      var m := Iterations(w, input, window, next);
      assert Iterations(w, input, window, c) == m + 1;
      assert Run(w, input, window, c) == Run(w, input, window, next);
      MultiplySucc(m, HopOut(w));
      MultiplySucc(m, HopIn(w));
    }
  }

  /**
   * What `process` returns on an input long enough to work on is at least one
   * window and at most `expected_size` samples long.
   */
  lemma ProcessLength(w: Wsola, input: seq<real>, window: seq<real>)
    requires Runnable(w) && |window| == w.windowSize
    requires |input| >= w.windowSize + w.searchRange
    requires ProcessSpec(w, input, window).Ok?
    ensures w.windowSize <= |ProcessSpec(w, input, window).value| <= ExpectedSize(w, |input|)
  {
    var start := InitialCursor(w, input, window);
    var size := ExpectedSize(w, |input|);
    assert |start.output| == size;
    assert ProcessSpec(w, input, window) == Finish(w, size, Run(w, input, window, start));
    FinishLength(w, size, Run(w, input, window, start));
  }


  /** The truncated output of a loop that ended without a panic: `min(size, out_ptr + window_size)` samples. */
  lemma FinishLength(w: Wsola, size: nat, res: Result<Cursor, Panic>)
    requires res.Ok? && |res.value.output| == size && w.windowSize <= size
    ensures var r := Finish(w, size, res).value;
      && |r| == Min(size, res.value.outPtr + w.windowSize)
      && w.windowSize <= |r| <= size
  {
  }

  /**
   * On an input long enough to work on, `process` returns the output of the
   * main loop truncated to `min(expected_size, out_ptr + window_size)`, or
   * panics exactly when the main loop does.
   */
  lemma ProcessOutput(w: Wsola, input: seq<real>, window: seq<real>)
    requires Runnable(w) && |window| == w.windowSize
    requires |input| >= w.windowSize + w.searchRange
    ensures var res := Run(w, input, window, InitialCursor(w, input, window));
      && (res.Ok? ==> ProcessSpec(w, input, window) == Ok(res.value.output[..Min(ExpectedSize(w, |input|), res.value.outPtr + w.windowSize)]))
      && (res.Err? ==> ProcessSpec(w, input, window) == Err(res.error))
  {
    var start := InitialCursor(w, input, window);
    var res := Run(w, input, window, start);
    assert |start.output| == ExpectedSize(w, |input|);
    assert ProcessSpec(w, input, window) == Finish(w, ExpectedSize(w, |input|), res);
    FinishCases(w, ExpectedSize(w, |input|), res);
  }

  /** The main loop never changes the first output hop, nor anything when it runs no iteration. */
  lemma RunKeepsFirstWindow(w: Wsola, input: seq<real>, window: seq<real>)
    requires Runnable(w) && |window| == w.windowSize && |input| >= w.windowSize
    requires Run(w, input, window, InitialCursor(w, input, window)).Ok?
    ensures var d := Run(w, input, window, InitialCursor(w, input, window)).value;
      && |d.output| == ExpectedSize(w, |input|)
      && (forall j :: 0 <= j < HopOut(w) ==> d.output[j] == input[j] * window[j])
      && (Iterations(w, input, window, InitialCursor(w, input, window)) == 0 ==>
            forall j :: 0 <= j < w.windowSize ==> d.output[j] == input[j] * window[j])
  {
    var start := InitialCursor(w, input, window);
    RunProgress(w, input, window, start);
    var d := Run(w, input, window, start).value;
    ghost var initial := InitialOutput(input, window, ExpectedSize(w, |input|));
    assert start.output == initial;
    forall j | 0 <= j < HopOut(w)
      ensures d.output[j] == input[j] * window[j]
    {
      assert d.output[j] == initial[j];
    }
    if Iterations(w, input, window, start) == 0 {
      RunWithoutIterations(w, input, window, start);
    }
  }

  /**
   * The first output hop of what `process` returns is the windowed input, and
   * so is the whole first window when the main loop ran no iteration.
   */
  lemma ProcessKeepsFirstWindow(w: Wsola, input: seq<real>, window: seq<real>)
    requires Runnable(w) && |window| == w.windowSize
    requires |input| >= w.windowSize + w.searchRange
    requires ProcessSpec(w, input, window).Ok?
    ensures var r := ProcessSpec(w, input, window).value;
      && (forall j :: 0 <= j < HopOut(w) ==> r[j] == input[j] * window[j])
      && (Iterations(w, input, window, InitialCursor(w, input, window)) == 0 ==>
            forall j :: 0 <= j < w.windowSize ==> r[j] == input[j] * window[j])
  {
    ProcessOutput(w, input, window);
    ProcessLength(w, input, window);
    RunKeepsFirstWindow(w, input, window);
  }

  /** A loop that ends without a panic and without an iteration leaves its cursor as it was. */
  lemma RunWithoutIterations(w: Wsola, input: seq<real>, window: seq<real>, c: Cursor)
    requires Runnable(w) && |window| == w.windowSize
    requires Run(w, input, window, c).Ok? && Iterations(w, input, window, c) == 0
    ensures Run(w, input, window, c).value == c
  {
    assert !Continues(w, |input|, c.inPtr);
  }

  // ----- Silence, and the template slice past the output -----

  function Zeros(n: nat): (z: seq<real>)
    ensures |z| == n && forall i :: 0 <= i < n ==> z[i] == 0.0
  {
    seq(n, _ => 0.0)
  }

  /** On silence every offset scores zero, so the first one wins. */
  lemma SilentBestMatch(w: Wsola, n: nat, c: Cursor)
    requires Runnable(w) && Continues(w, n, c.inPtr)
    requires c.output == Zeros(|c.output|)
    requires c.outPtr + HopOut(w) + HopOut(w) <= |c.output|
    ensures BestMatch(Template(w, c), SearchArea(w, Zeros(n), c)) == 0
  {
    var t := Template(w, c);
    var s := SearchArea(w, Zeros(n), c);
    AmdfOfMatch(t, s, 0, |t|);
    var best := BestMatch(t, s);
    assert 0 < best ==> Amdf(t, s, best) < Amdf(t, s, 0);
  }

  /** Overlap-adding silence changes nothing. */
  lemma OverlapAddSilence(output: seq<real>, n: nat, window: seq<real>, outStart: nat, inStart: nat)
    requires inStart + |window| <= n
    ensures OverlapAdd(output, Zeros(n), window, outStart, inStart) == output
  {
    var blended := OverlapAdd(output, Zeros(n), window, outStart, inStart);
    assert forall j :: 0 <= j < |blended| ==> blended[j] == output[j];
  }

  /** On silence a step in bounds advances both pointers by exactly one hop and leaves the output as it was. */
  lemma SilentStep(w: Wsola, n: nat, window: seq<real>, c: Cursor)
    requires Runnable(w) && |window| == w.windowSize && Continues(w, n, c.inPtr)
    requires c.output == Zeros(|c.output|)
    requires c.outPtr + HopOut(w) + HopOut(w) <= |c.output|
    ensures Step(w, Zeros(n), window, c) == Ok(Cursor(c.inPtr + HopIn(w), c.outPtr + HopOut(w), c.output))
  {
    SilentBestMatch(w, n, c);
    BestMatchInBounds(w, Zeros(n), c, 0);
    OverlapAddSilence(c.output, n, window, c.outPtr + HopOut(w), c.inPtr + HopIn(w));
    StepAdvances(w, Zeros(n), window, c, 0, c.outPtr + HopOut(w), c.inPtr + HopIn(w), c.output);
  }

  /** `k` hops of length `h`, as a sum, so the proofs about the main loop stay linear. */
  function Hops(k: nat, h: nat): nat {
    if k == 0 then 0 else Hops(k - 1, h) + h
  }

  lemma {:induction false} HopsIsProduct(k: nat, h: nat)
    ensures Hops(k, h) == k * h
  {
    if k > 0 {
      HopsIsProduct(k - 1, h);
    }
  }

  lemma {:induction false} HopsMonotonic(a: nat, b: nat, h: nat)
    requires a <= b
    ensures Hops(a, h) <= Hops(b, h)
    decreases b
  {
    if a < b {
      HopsMonotonic(a, b - 1, h);
    }
  }

  lemma HopsCancel(a: nat, b: nat, h: nat)
    requires Hops(a, h) < Hops(b, h)
    ensures a < b
  {
    HopsIsProduct(a, h);
    HopsIsProduct(b, h);
    MultiplyCancel(a, b, h);
  }

  /** On silence, an iteration `k` that passes the guard and fits in the output leads to iteration `k + 1`. */
  lemma SilentRunUnfolds(w: Wsola, n: nat, window: seq<real>, size: nat, k: nat)
    requires Runnable(w) && |window| == w.windowSize && Continues(w, n, Hops(k, HopIn(w)))
    requires Hops(k, HopOut(w)) + HopOut(w) + HopOut(w) <= size
    ensures Run(w, Zeros(n), window, Cursor(Hops(k, HopIn(w)), Hops(k, HopOut(w)), Zeros(size)))
         == Run(w, Zeros(n), window, Cursor(Hops(k + 1, HopIn(w)), Hops(k + 1, HopOut(w)), Zeros(size)))
  {
    var c := Cursor(Hops(k, HopIn(w)), Hops(k, HopOut(w)), Zeros(size));
    var next := Cursor(Hops(k + 1, HopIn(w)), Hops(k + 1, HopOut(w)), Zeros(size));
    SilentStep(w, n, window, c);
    RunUnfolds(w, Zeros(n), window, c, next);
  }

  /**
   * On silence the pointers advance by exactly one hop each; if some iteration
   * `last` still passes the guard but its template would end past the output,
   * the loop panics.
   */
  lemma {:induction false} SilenceRunPanics(w: Wsola, n: nat, window: seq<real>, size: nat, k: nat, last: nat)
    requires Runnable(w) && |window| == w.windowSize
    requires k <= last && Continues(w, n, Hops(last, HopIn(w)))
    requires Hops(last + 2, HopOut(w)) > size
    ensures Run(w, Zeros(n), window, Cursor(Hops(k, HopIn(w)), Hops(k, HopOut(w)), Zeros(size))).Err?
    decreases last - k
  {
    var c := Cursor(Hops(k, HopIn(w)), Hops(k, HopOut(w)), Zeros(size));
    HopsMonotonic(k, last, HopIn(w));
    assert Continues(w, n, c.inPtr);
    if c.outPtr + HopOut(w) + HopOut(w) <= size {
      assert Hops(k + 2, HopOut(w)) == c.outPtr + HopOut(w) + HopOut(w);
      HopsCancel(k + 2, last + 2, HopOut(w));
      SilentRunUnfolds(w, n, window, size, k);
      SilenceRunPanics(w, n, window, size, k + 1, last);
    } else {
      RunPanicsAt(w, Zeros(n), window, c);
    }
  }

  /**
   * As written, `process` panics on silence whenever an iteration `last` passes
   * the loop guard while its template would end past the `expected_size`
   * samples of output. Because `hop_in` is rounded down, the input pointer
   * falls behind `out_ptr * speed_ratio`, so the output runs out first.
   */
  lemma SilencePanics(w: Wsola, n: nat, window: seq<real>, last: nat)
    requires Runnable(w) && |window| == w.windowSize
    requires n >= w.windowSize + w.searchRange
    requires Continues(w, n, last * HopIn(w)) && (last + 2) * HopOut(w) > ExpectedSize(w, n)
    ensures ProcessSpec(w, Zeros(n), window).Err?
  {
    var size := ExpectedSize(w, n);
    assert InitialOutput(Zeros(n), window, size) == Zeros(size);
    HopsIsProduct(last, HopIn(w));
    HopsIsProduct(last + 2, HopOut(w));
    SilenceRunPanics(w, n, window, size, 0, last);
    assert Cursor(Hops(0, HopIn(w)), Hops(0, HopOut(w)), Zeros(size)) == InitialCursor(w, Zeros(n), window);
  }

  /** 25 samples of silence with a 4-sample window, a 2-sample search range and speed 0.75. */
  lemma SmallSilencePanics(window: seq<real>)
    requires |window| == 4
    ensures HopIn(Wsola(0.75, 4, 2)) == 1 && ExpectedSize(Wsola(0.75, 4, 2), 25) == 37
    ensures ProcessSpec(Wsola(0.75, 4, 2), Zeros(25), window).Err?
  {
    SilencePanics(Wsola(0.75, 4, 2), 25, window, 17);
  }

  /** 100 seconds of silence at 44.1 kHz, stretched to half speed. */
  lemma HalfSpeedSilencePanics(window: seq<real>)
    requires |window| == 882
    ensures New(44100.0, 0.5) == Wsola(0.5, 882, 441)
    ensures ProcessSpec(New(44100.0, 0.5), Zeros(4410000), window).Err?
  {
    SilencePanics(Wsola(0.5, 882, 441), 4410000, window, 20001);
  }

  // ----- The main loop as evidently intended -----

  /** The guard as evidently intended: another window of input and room for another template in the output. */
  predicate ContinuesBounded(w: Wsola, n: nat, c: Cursor) {
    Continues(w, n, c.inPtr) && c.outPtr + HopOut(w) + HopOut(w) <= |c.output|
  }

  /** The main loop with the intended guard: it never slices past the output. */
  function RunBounded(w: Wsola, input: seq<real>, window: seq<real>, c: Cursor): (d: Cursor)
    requires Runnable(w) && |window| == w.windowSize
    ensures |d.output| == |c.output| && d.outPtr >= c.outPtr
    ensures !ContinuesBounded(w, |input|, d)
    decreases |input| - c.inPtr
  {
    if !ContinuesBounded(w, |input|, c) then c
    else RunBounded(w, input, window, Advance(w, input, window, c))
  }

  /** `process` with the intended guard: it always returns, with between one window and `expected_size` samples. */
  function ProcessBounded(w: Wsola, input: seq<real>, window: seq<real>): (r: seq<real>)
    requires Runnable(w) && |window| == w.windowSize
    ensures |input| < w.windowSize + w.searchRange ==> r == input
    ensures |input| >= w.windowSize + w.searchRange ==> w.windowSize <= |r| <= ExpectedSize(w, |input|)
  {
    if |input| < w.windowSize + w.searchRange then input
    else
      var size := ExpectedSize(w, |input|);
      var c := RunBounded(w, input, window, InitialCursor(w, input, window));
      c.output[..Min(size, c.outPtr + w.windowSize)]
  }

  /** Where the loop as written does not panic, the intended loop runs the same iterations. */
  lemma {:induction false} RunBoundedAgrees(w: Wsola, input: seq<real>, window: seq<real>, c: Cursor)
    requires Runnable(w) && |window| == w.windowSize
    requires Run(w, input, window, c).Ok?
    ensures RunBounded(w, input, window, c) == Run(w, input, window, c).value
    decreases |input| - c.inPtr
  {
    if Continues(w, |input|, c.inPtr) {
      assert Step(w, input, window, c) == Ok(Advance(w, input, window, c));
      RunBoundedAgrees(w, input, window, Advance(w, input, window, c));
    }
  }

  /** The intended `process` returns what the written one returns whenever that one does not panic. */
  lemma ProcessBoundedAgrees(w: Wsola, input: seq<real>, window: seq<real>)
    requires Runnable(w) && |window| == w.windowSize
    requires ProcessSpec(w, input, window).Ok?
    ensures ProcessBounded(w, input, window) == ProcessSpec(w, input, window).value
  {
    if |input| >= w.windowSize + w.searchRange {
      RunBoundedAgrees(w, input, window, InitialCursor(w, input, window));
    }
  }
}
