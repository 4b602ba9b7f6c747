/**
 PNG row filters (RFC 2083 section 6) and the in-place loop that undoes them
 (scripts/e2e-mini-train.py, `decode_png`).
 */
module PngFilter {
  import opened Wrappers

  type Byte = b: int | 0 <= b < 256

  datatype Error = NotPng | Truncated | NotGrey8 | NotZlib | OutOfRange | UnknownFilter | TooLong

  function Abs(x: int): nat { if x < 0 then -x else x }

  /** The predictor of RFC 2083 section 6.6: nearest of left, above and upper left, ties in that order. */
  function Paeth(a: Byte, b: Byte, c: Byte): Byte {
    var p := a + b - c;
    var pa, pb, pc := Abs(p - a), Abs(p - b), Abs(p - c);
    if pa <= pb && pa <= pc then a else if pb <= pc then b else c
  }

  predicate KeyLess(estimate: int, p: (nat, Byte), q: (nat, Byte)) {
    var dp, dq := Abs(estimate - p.1), Abs(estimate - q.1);
    dp < dq || (dp == dq && p.0 < q.0)
  }

  /** Python's `min` with that key over a list: the first of the least. */
  function MinByKey(estimate: int, pairs: seq<(nat, Byte)>): (m: (nat, Byte))
    requires pairs != []
    ensures m in pairs && forall p :: p in pairs ==> !KeyLess(estimate, p, m)
  {
    var n := |pairs| - 1;
    if n == 0 then pairs[0]
    else
      var best := MinByKey(estimate, pairs[..n]);
      assert forall p :: p in pairs ==> p in pairs[..n] || p == pairs[n];
      if KeyLess(estimate, pairs[n], best) then pairs[n] else best
  }

  function Nearest(left: Byte, up: Byte, upLeft: Byte): Byte {
    MinByKey(left + up - upLeft, [(0, left), (1, up), (2, upLeft)]).1
  }

  lemma LeastOfThree(estimate: int, p: (nat, Byte), q: (nat, Byte), r: (nat, Byte))
    ensures var m := MinByKey(estimate, [p, q, r]);
      && (m == p || m == q || m == r)
      && !KeyLess(estimate, p, m) && !KeyLess(estimate, q, m) && !KeyLess(estimate, r, m)
  {
    var pairs := [p, q, r];
    assert pairs[0] in pairs && pairs[1] in pairs && pairs[2] in pairs;
  }

  lemma NearestOfThree(left: Byte, up: Byte, upLeft: Byte, m: (nat, Byte))
    requires m == (0, left) || m == (1, up) || m == (2, upLeft)
    requires var estimate := left + up - upLeft;
      !KeyLess(estimate, (0, left), m) && !KeyLess(estimate, (1, up), m) && !KeyLess(estimate, (2, upLeft), m)
    ensures m.1 == Paeth(left, up, upLeft)
  {
  }

  /** The code's choice is the standard's, ties included. */
  lemma NearestIsPaeth(left: Byte, up: Byte, upLeft: Byte)
    ensures Nearest(left, up, upLeft) == Paeth(left, up, upLeft)
  {
    var estimate := left + up - upLeft;
    LeastOfThree(estimate, (0, left), (1, up), (2, upLeft));
    NearestOfThree(left, up, upLeft, MinByKey(estimate, [(0, left), (1, up), (2, upLeft)]));
  }

  /** What a filter type predicts of a byte from its three decoded neighbours. */
  function Predict(filter: nat, left: Byte, up: Byte, upLeft: Byte): Byte
    requires filter <= 4
  {
    match filter
    case 0 => 0
    case 1 => left
    case 2 => up
    case 3 => (left + up) / 2
    case _ => Paeth(left, up, upLeft)
  }

  function Before(row: seq<Byte>, i: nat): Byte
    requires i <= |row|
  {
    if i == 0 then 0 else row[i - 1]
  }

  /** Filtering as the RFC states it: each byte less what is predicted of it, modulo 256. */
  function Filtered(filter: nat, row: seq<Byte>, above: seq<Byte>): (raw: seq<Byte>)
    requires filter <= 4 && |above| == |row|
    ensures |raw| == |row|
  {
    seq(|row|, i requires 0 <= i < |row| =>
      Minus(row[i], Predict(filter, Before(row, i), above[i], Before(above, i))))
  }

  /** The first `n` bytes of a row decoded from its filtered form. */
  function Decoded(filter: nat, raw: seq<Byte>, above: seq<Byte>, n: nat): (row: seq<Byte>)
    requires filter <= 4 && |above| == |raw| && n <= |raw|
    ensures |row| == n
  {
    if n == 0 then []
    else
      var done := Decoded(filter, raw, above, n - 1);
      done + [Plus(raw[n - 1], Predict(filter, Before(done, n - 1), above[n - 1], Before(above, n - 1)))]
  }

  function Plus(a: Byte, b: Byte): Byte { (a + b) % 256 }

  function Minus(a: Byte, b: Byte): Byte { (a - b) % 256 }

  lemma AddBack(value: Byte, p: Byte)
    ensures Plus(Minus(value, p), p) == value
    ensures Minus(Plus(value, p), p) == value
  {
    assert Minus(value, p) == if value >= p then value - p else value - p + 256;
    assert Plus(value, p) == if value + p < 256 then value + p else value + p - 256;
  }

  /** Decoding undoes filtering, whichever of the five types was chosen. */
  lemma {:induction false} DecodeUndoesFilter(filter: nat, row: seq<Byte>, above: seq<Byte>, n: nat)
    requires filter <= 4 && |above| == |row| && n <= |row|
    ensures Decoded(filter, Filtered(filter, row, above), above, n) == row[..n]
  {
    if n > 0 {
      DecodeUndoesFilter(filter, row, above, n - 1);
      var i := n - 1;
      assert Before(row[..i], i) == Before(row, i);
      AddBack(row[i], Predict(filter, Before(row, i), above[i], Before(above, i)));
      assert row[..n] == row[..i] + [row[i]];
    }
  }

  /** A longer decoding extends a shorter one. */
  lemma {:induction false} DecodedPrefix(filter: nat, raw: seq<Byte>, above: seq<Byte>, m: nat, n: nat)
    requires filter <= 4 && |above| == |raw| && m <= n <= |raw|
    ensures Decoded(filter, raw, above, n)[..m] == Decoded(filter, raw, above, m)
    decreases n
  {
    if m < n {
      DecodedPrefix(filter, raw, above, m, n - 1);
      assert Decoded(filter, raw, above, n)[..m] == Decoded(filter, raw, above, n - 1)[..m];
    }
  }

  lemma DecodedAt(filter: nat, raw: seq<Byte>, above: seq<Byte>, i: nat)
    requires filter <= 4 && |above| == |raw| && i < |raw|
    ensures var row := Decoded(filter, raw, above, |raw|);
      row[i] == Plus(raw[i], Predict(filter, Before(row, i), above[i], Before(above, i)))
  {
    DecodedPrefix(filter, raw, above, i, |raw|);
    DecodedPrefix(filter, raw, above, i + 1, |raw|);
    var row := Decoded(filter, raw, above, |raw|);
    assert row[i] == row[..i + 1][i];
    assert Before(row[..i], i) == Before(row, i);
  }

  /** The one of three whose distance from the estimate is least; of equals the first. */
  predicate FirstNearest(p: int, a: int, b: int, c: int) {
    var pa, pb, pc := Abs(a + b - c - a), Abs(a + b - c - b), Abs(a + b - c - c);
    if pa <= pb && pa <= pc then p == a else if pb < pa && pb <= pc then p == b else p == c
  }

  /** What a type adds: nothing, the byte to the left, the one above, half their sum, or the nearest. */
  predicate Adds(p: int, filter: nat, left: int, up: int, upLeft: int) {
    match filter
    case 0 => p == 0
    case 1 => p == left
    case 2 => p == up
    case 3 => 2 * p <= left + up <= 2 * p + 1
    case _ => FirstNearest(p, left, up, upLeft)
  }

  /** What each of the five types adds to a raw byte to decode it. */
  lemma EachTypeAdds(filter: nat, raw: seq<Byte>, above: seq<Byte>, i: nat)
    requires filter <= 4 && |above| == |raw| && i < |raw|
    ensures var row := Decoded(filter, raw, above, |raw|);
      var left: int := if i == 0 then 0 else row[i - 1];
      var upLeft: int := if i == 0 then 0 else above[i - 1];
      exists p: int :: Adds(p, filter, left, above[i], upLeft) && row[i] == (raw[i] + p) % 256
  {
    var row := Decoded(filter, raw, above, |raw|);
    DecodedAt(filter, raw, above, i);
    var p: int := Predict(filter, Before(row, i), above[i], Before(above, i));
    var left, up, upLeft := Before(row, i), above[i], Before(above, i);
    assert Adds(p, filter, left, up, upLeft) && row[i] == (raw[i] + p) % 256;
  }

  /** And filtering undoes decoding, so each filter type is a bijection on rows. */
  lemma FilterUndoesDecode(filter: nat, raw: seq<Byte>, above: seq<Byte>)
    requires filter <= 4 && |above| == |raw|
    ensures Filtered(filter, Decoded(filter, raw, above, |raw|), above) == raw
  {
    var row := Decoded(filter, raw, above, |raw|);
    forall i | 0 <= i < |raw|
      ensures Filtered(filter, row, above)[i] == raw[i]
    {
      DecodedAt(filter, raw, above, i);
      AddBack(raw[i], Predict(filter, Before(row, i), above[i], Before(above, i)));
    }
  }

  /** A Python slice: out of range is cut off, not refused. */
  function Clip<T>(s: seq<T>, low: nat, high: nat): (part: seq<T>)
    requires low <= high
    ensures high <= |s| ==> part == s[low..high]
    ensures |part| <= high - low
  {
    if low >= |s| then [] else if high >= |s| then s[low..] else s[low..high]
  }

  /**
   What a line of raw bytes decodes to under a filter byte. A row the data ends inside of is an
   error, except that filter 0 never reads the last byte of it: such a row comes out one byte short.
   */
  function LineOf(filter: Byte, line: seq<Byte>, width: nat, above: seq<Byte>): Result<seq<Byte>, Error>
    requires |line| <= width && (|line| == width > 0 ==> |above| == width)
  {
    if width > 0 && filter > 4 then Err(UnknownFilter)
    else if filter == 0 && |line| + 1 >= width then Ok(line)
    else if |line| < width then Err(OutOfRange)
    else if width == 0 then Ok([])
    else Ok(Decoded(filter, line, above, width))
  }

  function RowOf(raw: seq<Byte>, at: nat, width: nat, above: seq<Byte>): (r: Result<seq<Byte>, Error>)
    requires |above| == width || at >= |raw|
    ensures r.Ok? ==> |r.value| == width || (|r.value| + 1 == width && at + 1 + width > |raw|)
  {
    if at >= |raw| then Err(OutOfRange)
    else
      LineOf(raw[at], Clip(raw, at + 1, at + 1 + width), width, above)
  }

  lemma {:induction false} UnfilteredDecodes(raw: seq<Byte>, above: seq<Byte>, n: nat)
    requires |above| == |raw| && n <= |raw|
    ensures Decoded(0, raw, above, n) == raw[..n]
  {
    if n > 0 {
      UnfilteredDecodes(raw, above, n - 1);
    }
  }

  /** The estimate as the loop of `decode_png` computes it. */
  function Estimate(filter: nat, left: Byte, up: Byte, upLeft: Byte): (p: Byte)
    requires 1 <= filter <= 4
    ensures p == Predict(filter, left, up, upLeft)
  {
    NearestIsPaeth(left, up, upLeft);
    if filter == 1 then left
    else if filter == 2 then up
    else if filter == 3 then (left + up) / 2
    else Nearest(left, up, upLeft)
  }

  /** `line` as the loop leaves it after `index` bytes: decoded so far, and untouched from there on. */
  ghost predicate Partly(filter: nat, line: seq<Byte>, source: seq<Byte>, above: seq<Byte>, index: nat) {
    && 1 <= filter <= 4 && index <= |line| == |source| <= |above|
    && line[..index] == Decoded(filter, source, above[..|source|], index)
    && line[index..] == source[index..]
  }

  lemma OneMore(filter: nat, line: seq<Byte>, source: seq<Byte>, above: seq<Byte>, index: nat)
    requires Partly(filter, line, source, above, index) && index < |line|
    ensures var p := Predict(filter, Before(line, index), above[index], Before(above, index));
      Partly(filter, line[index := Plus(line[index], p)], source, above, index + 1)
  {
    var p := Predict(filter, Before(line, index), above[index], Before(above, index));
    var next := line[index := Plus(line[index], p)];
    assert line[index] == line[index..][0] == source[index];
    assert Before(line[..index], index) == Before(line, index);
    assert Before(above[..|source|], index) == Before(above, index);
    assert next[..index + 1] == line[..index] + [next[index]];
    assert next[index + 1..] == line[index..][1..] == source[index + 1..];
  }

  /** The loop of `decode_png` over one row, decoding `line` in place from the left. */
  method DecodeRow(raw: seq<Byte>, at: nat, width: nat, above: seq<Byte>) returns (r: Result<seq<Byte>, Error>)
    requires |above| == width || at >= |raw|
    ensures r == RowOf(raw, at, width, above)
  {
    if at >= |raw| {
      return Err(OutOfRange);
    }
    var filter := raw[at];
    ghost var source := Clip(raw, at + 1, at + 1 + width);
    var line := ArrayOf(Clip(raw, at + 1, at + 1 + width));
    for index := 0 to width
      invariant line.Length == |source| <= width
      invariant filter > 4 ==> index == 0 && line[..] == source
      invariant filter == 0 ==> index <= line.Length + 1 && line[..] == source
      invariant 1 <= filter <= 4 ==> Partly(filter, line[..], source, above, index)
    {
      if index > 0 && index - 1 >= line.Length {
        return Err(OutOfRange);
      }
      var left: Byte := if index > 0 then line[index - 1] else 0;
      var upLeft: Byte := if index > 0 then above[index - 1] else 0;
      if 1 <= filter <= 4 {
        if index >= line.Length {
          return Err(OutOfRange);
        }
        OneMore(filter, line[..], source, above, index);
        ghost var was := line[..];
        line[index] := Plus(line[index], Estimate(filter, left, above[index], upLeft));
        assert line[..] == was[index := line[index]];
      } else if filter != 0 {
        return Err(UnknownFilter);
      }
    }
    assert line.Length == width ==> above[..|source|] == above && line[..width] == line[..];
    return Ok(line[..]);
  }

  method ArrayOf(s: seq<Byte>) returns (a: array<Byte>)
    ensures fresh(a) && a[..] == s
  {
    a := new Byte[|s|](i requires 0 <= i < |s| => s[i]);
  }
}
