/** The hourly-rate optimizer (pgart_calc_hourly_rate_adj_func.py): it enumerates every
    decrease/pause pattern built from the blocks `[1,1,0]` and `[1,0]` over a window of hours
    `[start, stop)`, prices each distinct pattern and keeps the most expensive one, which is the
    largest saving that a temperature decrease can capture. */
module RateSchedule {
  import opened Text
  import opened PyNum

  const NrBlocks: nat := 12
  const NrCandidates: nat := 4096

  /** An hour mask: 1 marks a decrease hour, 0 a pause hour. */
  type Mask = seq<int>

  predicate IsMask(m: Mask) { forall i :: 0 <= i < |m| ==> m[i] == 0 || m[i] == 1 }

  /** One block of `add_schedule`: a length of 3 gives `[1,1,0]`, a length of 2 gives `[1,0]`. */
  function Block(n: int): Mask {
    if n == 3 then [1, 1, 0] else if n == 2 then [1, 0] else []
  }

  function Blocks(lengths: seq<int>): Mask {
    if |lengths| == 0 then [] else Blocks(lengths[..|lengths| - 1]) + Block(lengths[|lengths| - 1])
  }

  function Sum(lengths: seq<int>): int {
    if |lengths| == 0 then 0 else Sum(lengths[..|lengths| - 1]) + lengths[|lengths| - 1]
  }

  /** The pattern before truncation: an optional leading 0, then the blocks. */
  function Untruncated(lengths: seq<int>, firstHour: int): Mask {
    (if firstHour == 0 then [0] else []) + Blocks(lengths)
  }

  /** Python's `s[:n]` for `n >= 0`. */
  function Truncate(s: Mask, n: nat): Mask {
    if n <= |s| then s[..n] else s
  }

  predicate ValidLengths(lengths: seq<int>) {
    forall i :: 0 <= i < |lengths| ==> lengths[i] == 2 || lengths[i] == 3
  }

  /** Bit `k` of `c`, counting from the least significant. */
  function Bit(c: nat, k: nat): (b: nat)
    ensures b < 2
  {
    if k == 0 then c % 2 else Bit(c / 2, k - 1)
  }

  /** The block lengths of the `c`-th call of the twelve nested loops: the outermost loop
      variable is the most significant bit of `c`, and a 0 bit stands for the first value, 2. */
  function CandidateLengths(c: nat): (l: seq<int>)
    ensures |l| == NrBlocks && ValidLengths(l)
  {
    seq(NrBlocks, i requires 0 <= i < NrBlocks => if Bit(c, NrBlocks - 1 - i) == 1 then 3 else 2)
  }

  /** The mask that the `c`-th call adds: the leading-0 flag is 0 on even calls and 1 on odd ones. */
  function Candidate(c: nat, startHr: int, stopHr: int): (m: Mask)
    requires 0 <= startHr <= stopHr <= 24
    ensures |m| == stopHr - startHr
  {
    var lengths := CandidateLengths(c);
    BlocksLength(lengths);
    Truncate(Untruncated(lengths, c % 2), stopHr - startHr)
  }

  // ---------------------------------------------------------------------------
  // Shape of the candidate masks

  predicate ThreeOnesAt(m: Mask, i: int)
    requires 0 <= i && i + 2 < |m|
  {
    m[i] == 1 && m[i + 1] == 1 && m[i + 2] == 1
  }

  predicate TwoZerosAt(m: Mask, i: int)
    requires 0 <= i && i + 1 < |m|
  {
    m[i] == 0 && m[i + 1] == 0
  }

  /** No run of three decrease hours and no two pause hours in a row. */
  predicate WellShaped(m: Mask) {
    IsMask(m)
    && (forall i :: 0 <= i && i + 2 < |m| ==> !ThreeOnesAt(m, i))
    && (forall i :: 0 <= i && i + 1 < |m| ==> !TwoZerosAt(m, i))
  }

  lemma AppendBlockShape(s: Mask, n: int)
    requires WellShaped(s) && (|s| == 0 || s[|s| - 1] == 0)
    requires n == 2 || n == 3
    ensures WellShaped(s + Block(n)) && (s + Block(n))[|s + Block(n)| - 1] == 0
  {
    var t := s + Block(n);
    forall i | 0 <= i && i + 2 < |t| ensures !ThreeOnesAt(t, i) {
      if i + 2 < |s| { assert !ThreeOnesAt(s, i); }
    }
    forall i | 0 <= i && i + 1 < |t| ensures !TwoZerosAt(t, i) {
      if i + 1 < |s| { assert !TwoZerosAt(s, i); }
    }
  }

  lemma {:induction false} PrefixBlocksShape(prefix: Mask, lengths: seq<int>)
    requires WellShaped(prefix) && (|prefix| == 0 || prefix[|prefix| - 1] == 0)
    requires ValidLengths(lengths)
    ensures WellShaped(prefix + Blocks(lengths))
    ensures |prefix + Blocks(lengths)| == 0 || (prefix + Blocks(lengths))[|prefix + Blocks(lengths)| - 1] == 0
  {
    if |lengths| == 0 {
      assert prefix + Blocks(lengths) == prefix;
    } else {
      var init := lengths[..|lengths| - 1];
      var b, blk := Blocks(init), Block(lengths[|lengths| - 1]);
      PrefixBlocksShape(prefix, init);
      assert Blocks(lengths) == b + blk;
      AppendAssoc(prefix, b, blk);
      AppendBlockShape(prefix + b, lengths[|lengths| - 1]);
    }
  }

  lemma {:induction false} BlocksLength(lengths: seq<int>)
    requires ValidLengths(lengths)
    ensures |Blocks(lengths)| == Sum(lengths) >= 2 * |lengths|
  {
    if |lengths| > 0 { BlocksLength(lengths[..|lengths| - 1]); }
  }

  /** Every candidate mask is made of `[1,1,0]` and `[1,0]` blocks after an optional leading 0,
      so it has no three decrease hours and no two pause hours in a row; and since twelve blocks
      cover at least 24 hours, it is exactly as long as the window. */
  lemma CandidateShape(c: nat, startHr: int, stopHr: int)
    requires 0 <= startHr <= stopHr <= 24
    ensures WellShaped(Candidate(c, startHr, stopHr))
    ensures |Candidate(c, startHr, stopHr)| == stopHr - startHr
  {
    var l := CandidateLengths(c);
    var prefix: Mask := if c % 2 == 0 then [0] else [];
    PrefixBlocksShape(prefix, l);
    BlocksLength(l);
    var u := Untruncated(l, c % 2);
    assert u == prefix + Blocks(l);
    var t := Candidate(c, startHr, stopHr);
    assert t == u[..stopHr - startHr];
    forall i | 0 <= i && i + 2 < |t| ensures !ThreeOnesAt(t, i) { assert !ThreeOnesAt(u, i); }
    forall i | 0 <= i && i + 1 < |t| ensures !TwoZerosAt(t, i) { assert !TwoZerosAt(u, i); }
  }

  // ---------------------------------------------------------------------------
  // The dotted text key of a mask, as `create_no_dup_hour_maps` builds it ("1.1.0")

  /** `".".join(str(x) for x in m)`, built from the left as the loop does. */
  function EncodeMask(m: Mask): string
  {
    if |m| == 0 then ""
    else if |m| == 1 then IntToString(m[0])
    else EncodeMask(m[..|m| - 1]) + "." + IntToString(m[|m| - 1])
  }

  function Pieces(m: Mask): (r: seq<string>)
    ensures |r| == |m|
  {
    seq(|m|, i requires 0 <= i < |m| => IntToString(m[i]))
  }

  lemma {:induction false} SplitEncodeMask(m: Mask)
    requires |m| >= 1
    ensures Split(EncodeMask(m), '.') == Pieces(m)
  {
    IntToStringChars(m[|m| - 1]);
    if |m| == 1 {
      SplitNoSep(IntToString(m[0]), '.');
    } else {
      var init := m[..|m| - 1];
      var last := IntToString(m[|m| - 1]);
      SplitEncodeMask(init);
      SplitAppend(EncodeMask(init), last, '.');
      SplitNoSep(last, '.');
      PiecesSnoc(m);
    }
  }

  lemma PiecesSnoc(m: Mask)
    requires |m| >= 1
    ensures Pieces(m) == Pieces(m[..|m| - 1]) + [IntToString(m[|m| - 1])]
  {
  }

  /** `int(piece) > 0`, the test `get_top_hour_map` applies to each piece of a key. */
  predicate SwitchedOn(piece: string) {
    ParseInt(piece).Some? && ParseInt(piece).value > 0
  }

  /** Decoding the key of a 0/1 mask gives the mask back, so two masks share a key only when
      they are equal. */
  lemma DecodeEncodeMask(m: Mask)
    requires IsMask(m) && |m| >= 1
    ensures |Split(EncodeMask(m), '.')| == |m|
    ensures forall i :: 0 <= i < |m| ==> (SwitchedOn(Split(EncodeMask(m), '.')[i]) <==> m[i] == 1)
    ensures forall i :: 0 <= i < |m| ==> ParseInt(Split(EncodeMask(m), '.')[i]).Some?
  {
    SplitEncodeMask(m);
    forall i | 0 <= i < |m| ensures ParseInt(IntToString(m[i])) == Some(m[i]) { ParseIntToString(m[i]); }
  }

  lemma EncodeMaskInjective(a: Mask, b: Mask)
    requires IsMask(a) && IsMask(b) && EncodeMask(a) == EncodeMask(b)
    ensures a == b
  {
    if |a| == 0 || |b| == 0 {
      if |a| > 0 { EncodeNonEmpty(a); }
      if |b| > 0 { EncodeNonEmpty(b); }
    } else {
      SplitEncodeMask(a);
      SplitEncodeMask(b);
      forall i | 0 <= i < |a| ensures a[i] == b[i] {
        ParseIntToString(a[i]);
        ParseIntToString(b[i]);
        assert Pieces(a)[i] == Pieces(b)[i];
      }
    }
  }

  lemma EncodeNonEmpty(m: Mask)
    requires |m| >= 1
    ensures |EncodeMask(m)| >= 1
  {
    IntToStringChars(m[|m| - 1]);
  }

  function Ones(m: Mask): (n: nat)
    ensures n <= |m|
  {
    if |m| == 0 then 0 else Ones(m[..|m| - 1]) + (if m[|m| - 1] == 1 then 1 else 0)
  }

  /** The keys of the de-duplicated table, in first-insertion order. */
  function DedupKeys(ms: seq<Mask>): seq<string>
  {
    if |ms| == 0 then []
    else
      var keys := DedupKeys(ms[..|ms| - 1]);
      if EncodeMask(ms[|ms| - 1]) in keys then keys else keys + [EncodeMask(ms[|ms| - 1])]
  }

  /** The values of the de-duplicated table: the first mask with a key sets its count of 1s. */
  function DedupCounts(ms: seq<Mask>): map<string, int>
  {
    if |ms| == 0 then map[]
    else
      var counts := DedupCounts(ms[..|ms| - 1]);
      var k := EncodeMask(ms[|ms| - 1]);
      if k in counts then counts else counts[k := Ones(ms[|ms| - 1])]
  }

  predicate Distinct(keys: seq<string>) {
    forall i, j :: 0 <= i < j < |keys| ==> keys[i] != keys[j]
  }

  /** De-duplication keeps each distinct key once, covers every mask's key and nothing else,
      and the value under a key is the count of 1s of the first mask with that key. */
  lemma DedupProperties(ms: seq<Mask>)
    ensures Distinct(DedupKeys(ms))
    ensures forall i :: 0 <= i < |ms| ==> EncodeMask(ms[i]) in DedupKeys(ms)
    ensures forall k :: k in DedupKeys(ms) ==> exists i :: 0 <= i < |ms| && EncodeMask(ms[i]) == k
    ensures DedupCounts(ms).Keys == set k | k in DedupKeys(ms)
    ensures forall i :: 0 <= i < |ms| && (forall j :: 0 <= j < i ==> EncodeMask(ms[j]) != EncodeMask(ms[i]))
              ==> DedupCounts(ms)[EncodeMask(ms[i])] == Ones(ms[i])
  {
    DedupDistinct(ms);
    DedupCovers(ms);
    DedupOnlyFrom(ms);
    DedupKeysCounts(ms);
    forall i | 0 <= i < |ms| && (forall j :: 0 <= j < i ==> EncodeMask(ms[j]) != EncodeMask(ms[i]))
      ensures DedupCounts(ms)[EncodeMask(ms[i])] == Ones(ms[i])
    {
      DedupFirstWins(ms, i);
    }
  }

  lemma {:induction false} DedupDistinct(ms: seq<Mask>)
    ensures Distinct(DedupKeys(ms))
  {
    if |ms| > 0 { DedupDistinct(ms[..|ms| - 1]); }
  }

  lemma {:induction false} DedupCovers(ms: seq<Mask>)
    ensures forall i :: 0 <= i < |ms| ==> EncodeMask(ms[i]) in DedupKeys(ms)
  {
    if |ms| > 0 {
      var init := ms[..|ms| - 1];
      DedupCovers(init);
      forall i | 0 <= i < |ms| ensures EncodeMask(ms[i]) in DedupKeys(ms) {
        if i < |init| { assert ms[i] == init[i]; }
      }
    }
  }

  lemma {:induction false} DedupOnlyFrom(ms: seq<Mask>)
    ensures forall k :: k in DedupKeys(ms) ==> exists i :: 0 <= i < |ms| && EncodeMask(ms[i]) == k
  {
    if |ms| > 0 {
      var init := ms[..|ms| - 1];
      DedupOnlyFrom(init);
      forall k | k in DedupKeys(ms) ensures exists i :: 0 <= i < |ms| && EncodeMask(ms[i]) == k {
        if k in DedupKeys(init) {
          var i :| 0 <= i < |init| && EncodeMask(init[i]) == k;
          assert ms[i] == init[i];
        } else {
          assert EncodeMask(ms[|ms| - 1]) == k;
        }
      }
    }
  }

  lemma {:induction false} DedupFirstWins(ms: seq<Mask>, i: nat)
    requires i < |ms| && forall j :: 0 <= j < i ==> EncodeMask(ms[j]) != EncodeMask(ms[i])
    ensures EncodeMask(ms[i]) in DedupCounts(ms) && DedupCounts(ms)[EncodeMask(ms[i])] == Ones(ms[i])
  {
    var init := ms[..|ms| - 1];
    var k := EncodeMask(ms[i]);
    DedupKeysCounts(init);
    if i < |init| {
      assert ms[i] == init[i];
      assert forall j :: 0 <= j < i ==> init[j] == ms[j];
      DedupFirstWins(init, i);
    } else {
      assert i == |ms| - 1;
      assert k !in DedupKeys(init) by {
        DedupOnlyFrom(init);
        forall j | 0 <= j < |init| ensures EncodeMask(init[j]) != k { assert ms[j] == init[j]; }
      }
      assert k !in DedupCounts(init);
    }
  }

  /** For masks of 0s and 1s every stored count is the count of 1s of the mask behind the key. */
  lemma DedupCountsOnes(ms: seq<Mask>, i: nat)
    requires i < |ms| && forall j :: 0 <= j < |ms| ==> IsMask(ms[j])
    ensures EncodeMask(ms[i]) in DedupCounts(ms) && DedupCounts(ms)[EncodeMask(ms[i])] == Ones(ms[i])
  {
    DedupProperties(ms);
    var k := EncodeMask(ms[i]);
    var first := FirstWithKey(ms, k, i);
    EncodeMaskInjective(ms[first], ms[i]);
  }

  lemma FirstWithKey(ms: seq<Mask>, k: string, i: nat) returns (first: nat)
    requires i < |ms| && EncodeMask(ms[i]) == k
    ensures first <= i && EncodeMask(ms[first]) == k
    ensures forall j :: 0 <= j < first ==> EncodeMask(ms[j]) != k
  {
    var ks := seq(|ms|, j requires 0 <= j < |ms| => EncodeMask(ms[j]));
    first := FirstIndex(ks, k, i);
    assert forall j :: 0 <= j < first ==> ks[j] == EncodeMask(ms[j]);
  }

  /** The first position of a text that occurs at position `i`. */
  lemma FirstIndex(ks: seq<string>, k: string, i: nat) returns (first: nat)
    requires i < |ks| && ks[i] == k
    ensures first <= i && ks[first] == k
    ensures forall j :: 0 <= j < first ==> ks[j] != k
  {
    first := 0;
    while ks[first] != k
      invariant first <= i
      decreases i - first
      invariant forall j :: 0 <= j < first ==> ks[j] != k
    {
      first := first + 1;
    }
  }

  // ---------------------------------------------------------------------------
  // Prices

  /** The sum of `price_per_hour` at the pieces of a key that are switched on. */
  function RawPrice(pieces: seq<string>, pricePerHour: seq<real>): real
    requires |pieces| <= |pricePerHour|
  {
    if |pieces| == 0 then 0.0
    else RawPrice(pieces[..|pieces| - 1], pricePerHour)
         + (if SwitchedOn(pieces[|pieces| - 1]) then pricePerHour[|pieces| - 1] else 0.0)
  }

  /** The price `get_top_hour_map` gives a key: the raw sum rounded to two decimals. */
  function KeyPrice(key: string, pricePerHour: seq<real>): real
    requires |Split(key, '.')| <= |pricePerHour|
  {
    Round2(RawPrice(Split(key, '.'), pricePerHour))
  }

  /** The sum of the prices of the decrease hours of a mask. */
  function MaskSum(m: Mask, pricePerHour: seq<real>): real
    requires |m| <= |pricePerHour|
  {
    if |m| == 0 then 0.0
    else MaskSum(m[..|m| - 1], pricePerHour) + (if m[|m| - 1] == 1 then pricePerHour[|m| - 1] else 0.0)
  }

  /** The total of a mask: the sum of the prices at its decrease hours, rounded to two decimals. */
  function MaskPrice(m: Mask, pricePerHour: seq<real>): real
    requires |m| <= |pricePerHour|
  {
    Round2(MaskSum(m, pricePerHour))
  }

  lemma {:induction false} RawPriceOfPieces(pieces: seq<string>, m: Mask, pricePerHour: seq<real>)
    requires |pieces| == |m| <= |pricePerHour|
    requires forall i :: 0 <= i < |m| ==> (SwitchedOn(pieces[i]) <==> m[i] == 1)
    ensures RawPrice(pieces, pricePerHour) == MaskSum(m, pricePerHour)
  {
    if |m| > 0 { RawPriceOfPieces(pieces[..|pieces| - 1], m[..|m| - 1], pricePerHour); }
  }

  /** The price of a mask's key is the mask's total. */
  lemma KeyPriceOfMask(m: Mask, pricePerHour: seq<real>)
    requires IsMask(m) && 1 <= |m| <= |pricePerHour|
    ensures |Split(EncodeMask(m), '.')| == |m|
    ensures KeyPrice(EncodeMask(m), pricePerHour) == MaskPrice(m, pricePerHour)
  {
    DecodeEncodeMask(m);
    RawPriceOfPieces(Split(EncodeMask(m), '.'), m, pricePerHour);
  }

  /** `get_price_per_hour_range`: the rates whose hour lies in `[start, stop)`, in input order. */
  function InRange(rates: seq<(int, real)>, startHr: int, stopHr: int): seq<real>
  {
    if |rates| == 0 then []
    else
      var init := InRange(rates[..|rates| - 1], startHr, stopHr);
      var (h, r) := rates[|rates| - 1];
      if startHr <= h < stopHr then init + [r] else init
  }

  /** With a rate file that lists hours 0 to 23 in order, position `i` of the window's prices
      is the price of hour `start + i`. */
  lemma InRangeOfFullDay(rates: seq<(int, real)>, startHr: int, stopHr: int)
    requires |rates| == 24 && forall i :: 0 <= i < |rates| ==> rates[i].0 == i
    requires 0 <= startHr <= stopHr <= 24
    ensures InRange(rates, startHr, stopHr) == seq(stopHr - startHr, i requires 0 <= i < stopHr - startHr => rates[startHr + i].1)
  {
    InRangePrefix(rates, startHr, stopHr, 24);
    TakeAll(rates);
  }

  /** The prices of the `m` hours from `startHr` of a rate file that lists hours in order. */
  function HourPrices(rates: seq<(int, real)>, startHr: nat, m: nat): (r: seq<real>)
    requires m == 0 || startHr + m <= |rates|
  {
    seq(m, i requires 0 <= i < m => rates[startHr + i].1)
  }

  lemma HourPricesNext(rates: seq<(int, real)>, startHr: nat, m: nat)
    requires startHr + m < |rates|
    ensures HourPrices(rates, startHr, m + 1) == HourPrices(rates, startHr, m) + [rates[startHr + m].1]
  {
  }

  lemma {:induction false} InRangePrefix(rates: seq<(int, real)>, startHr: int, stopHr: int, n: nat)
    requires n <= |rates| && forall i :: 0 <= i < |rates| ==> rates[i].0 == i
    requires 0 <= startHr <= stopHr
    ensures var m := if n <= startHr then 0 else (if n < stopHr then n else stopHr) - startHr;
            InRange(rates[..n], startHr, stopHr) == HourPrices(rates, startHr, m)
  {
    if n > 0 {
      TakeNext(rates, n - 1);
      InRangePrefix(rates, startHr, stopHr, n - 1);
      assert rates[n - 1].0 == n - 1;
      if startHr <= n - 1 < stopHr {
        HourPricesNext(rates, startHr, n - 1 - startHr);
      }
    }
  }

  lemma {:induction false} InRangeEmpty(rates: seq<(int, real)>, hr: int)
    ensures InRange(rates, hr, hr) == []
  {
    if |rates| > 0 { InRangeEmpty(rates[..|rates| - 1], hr); }
  }

  /** The hours the blocks cover, added up one block at a time. */
  method SumLengths(lengths: seq<int>) returns (total: int)
    ensures total == Sum(lengths)
  {
    total := 0;
    var k := 0;
    while k < |lengths|
      invariant 0 <= k <= |lengths| && total == Sum(lengths[..k])
    {
      TakeNext(lengths, k);
      total := total + lengths[k];
      k := k + 1;
    }
    TakeAll(lengths);
  }

  /** The pattern of `add_schedule` before truncation: the optional leading 0, then `1, 1, 0`
      for a block of 3 and `1, 0` for a block of 2. */
  method BuildPattern(lengths: seq<int>, firstHour: int) returns (s: Mask)
    ensures s == Untruncated(lengths, firstHour)
  {
    s := [];
    if firstHour == 0 {
      s := s + [0];
    }
    ghost var prefix := s;
    assert s == prefix + Blocks(lengths[..0]);
    var k := 0;
    while k < |lengths|
      invariant 0 <= k <= |lengths| && s == prefix + Blocks(lengths[..k])
    {
      ghost var before := s;
      if lengths[k] == 3 {
        s := s + [1, 1, 0];
      }
      if lengths[k] == 2 {
        s := s + [1, 0];
      }
      PatternStep(prefix, lengths, k, before, s);
      k := k + 1;
    }
    TakeAll(lengths);
  }

  /** One block of `add_schedule`'s loop. */
  lemma PatternStep(prefix: Mask, lengths: seq<int>, k: nat, before: Mask, s: Mask)
    requires k < |lengths| && before == prefix + Blocks(lengths[..k])
    requires s == if lengths[k] == 3 then before + [1, 1, 0] else if lengths[k] == 2 then before + [1, 0] else before
    ensures s == prefix + Blocks(lengths[..k + 1])
  {
    TakeNext(lengths, k);
    assert Blocks(lengths[..k + 1]) == Blocks(lengths[..k]) + Block(lengths[k]);
    assert s == before + Block(lengths[k]);
    AppendAssoc(prefix, Blocks(lengths[..k]), Block(lengths[k]));
  }

  /** The leading-0 flag toggles with the candidate number's parity. */
  lemma ParityStep(c: nat, next: int)
    requires next == if c % 2 == 0 then 1 else 0
    ensures next == (c + 1) % 2
  {
  }

  /** The first `n` candidate masks of a window, in order. */
  function Candidates(n: nat, startHr: int, stopHr: int): (r: seq<Mask>)
    requires 0 <= startHr <= stopHr <= 24
    ensures |r| == n
  {
    if n == 0 then [] else Candidates(n - 1, startHr, stopHr) + [Candidate(n - 1, startHr, stopHr)]
  }

  lemma {:induction false} CandidatesAt(n: nat, startHr: int, stopHr: int, t: nat)
    requires 0 <= startHr <= stopHr <= 24 && t < n
    ensures Candidates(n, startHr, stopHr)[t] == Candidate(t, startHr, stopHr)
  {
    var init, last := Candidates(n - 1, startHr, stopHr), Candidate(n - 1, startHr, stopHr);
    assert Candidates(n, startHr, stopHr) == init + [last];
    AppendKeeps(init, last);
    if t < n - 1 {
      CandidatesAt(n - 1, startHr, stopHr, t);
    }
  }

  class ScheduleBuilder {
    /** `g_schedules`: every mask added so far. */
    var schedules: seq<Mask>

    constructor ()
      ensures schedules == []
    {
      schedules := [];
    }

    /** `add_schedule`: appends the truncated pattern, unless its blocks are too short to cover
        the window. */
    method AddSchedule(lengths: seq<int>, firstHour: int, startHr: int, stopHr: int)
      requires startHr <= stopHr
      modifies this
      ensures schedules == old(schedules)
                + (if Sum(lengths) < stopHr - startHr then [] else [Truncate(Untruncated(lengths, firstHour), stopHr - startHr)])
    {
      var nrHours := stopHr - startHr;
      var total := SumLengths(lengths);
      if total < nrHours {
        assert schedules + [] == schedules;
        return;
      }
      var s := BuildPattern(lengths, firstHour);
      s := Truncate(s, nrHours);
      schedules := schedules + [s];
    }

    /** One pass through the body of the twelve nested loops. */
    method AddCandidate(c: nat, firstHour: int, startHr: int, stopHr: int)
      requires 0 <= startHr <= stopHr <= 24 && firstHour == c % 2
      modifies this
      ensures schedules == old(schedules) + [Candidate(c, startHr, stopHr)]
    {
      var lengths := CandidateLengths(c);
      BlocksLength(lengths);
      AddSchedule(lengths, firstHour, startHr, stopHr);
    }

    /** `create_hour_schedules`: one `add_schedule` call for each of the 4096 choices of twelve
        block lengths, the leading-0 flag toggling after every call. */
    method CreateHourSchedules(startHr: int, stopHr: int)
      requires 0 <= startHr <= stopHr <= 24
      modifies this
      ensures |schedules| == |old(schedules)| + NrCandidates && schedules[..|old(schedules)|] == old(schedules)
      ensures forall c :: 0 <= c < NrCandidates ==> schedules[|old(schedules)| + c] == Candidate(c, startHr, stopHr)
    {
      var firstHour := 0;
      var c := 0;
      while c < NrCandidates
        invariant 0 <= c <= NrCandidates
        invariant firstHour == c % 2
        invariant schedules == old(schedules) + Candidates(c, startHr, stopHr)
      {
        AddCandidate(c, firstHour, startHr, stopHr);
        AppendAssoc(old(schedules), Candidates(c, startHr, stopHr), [Candidate(c, startHr, stopHr)]);
        if firstHour == 0 {
          firstHour := 1;
        } else {
          firstHour := 0;
        }
        ParityStep(c, firstHour);
        c := c + 1;
      }
      forall t | 0 <= t < NrCandidates ensures schedules[|old(schedules)| + t] == Candidate(t, startHr, stopHr) {
        CandidatesAt(NrCandidates, startHr, stopHr, t);
      }
    }

    /** `create_no_dup_hour_maps`: a table from each distinct key to its count of 1s, keys in
        first-insertion order. */
    method CreateNoDupHourMaps() returns (keys: seq<string>, counts: map<string, int>)
      ensures keys == DedupKeys(schedules) && counts == DedupCounts(schedules)
    {
      keys := [];
      counts := map[];
      var i := 0;
      while i < |schedules|
        invariant 0 <= i <= |schedules|
        invariant keys == DedupKeys(schedules[..i]) && counts == DedupCounts(schedules[..i])
      {
        var ss, nrSetHr := EncodeSchedule(schedules[i]);
        TakeNext(schedules, i);
        if ss !in counts {
          DedupKeysCounts(schedules[..i]);
          counts := counts[ss := nrSetHr];
          keys := keys + [ss];
        } else {
          DedupKeysCounts(schedules[..i]);
        }
        i := i + 1;
      }
      TakeAll(schedules);
    }
  }

  /** The key and the count of 1s of a mask grown by one hour. */
  lemma MaskSnoc(m: Mask, x: int)
    ensures EncodeMask(m + [x]) == if |m| == 0 then IntToString(x) else EncodeMask(m) + "." + IntToString(x)
    ensures Ones(m + [x]) == Ones(m) + (if x == 1 then 1 else 0)
    ensures EncodeMask(m + [x]) != ""
  {
    assert (m + [x])[..|m|] == m;
    IntToStringChars(x);
  }

  /** One hour of the inner loop of `create_no_dup_hour_maps`: the separator is empty only
      before the first hour. */
  lemma EncodeStep(m: Mask, x: int, ss: string, sep: string)
    requires ss == EncodeMask(m) && (ss == "" <==> |m| == 0)
    requires sep == if ss == "" then "" else "."
    ensures ss + sep + IntToString(x) == EncodeMask(m + [x]) != ""
    ensures Ones(m + [x]) == Ones(m) + (if x == 1 then 1 else 0)
  {
    MaskSnoc(m, x);
    if ss == "" { assert ss + sep == ""; }
  }

  /** The inner loop of `create_no_dup_hour_maps`: the key of a mask and its count of 1s. */
  method EncodeSchedule(s: Mask) returns (ss: string, nrSetHr: nat)
    ensures ss == EncodeMask(s) && nrSetHr == Ones(s)
  {
    nrSetHr := 0;
    ss := "";
    ghost var done: Mask := [];
    var j := 0;
    while j < |s|
      invariant 0 <= j <= |s| && done == s[..j]
      invariant ss == EncodeMask(done) && nrSetHr == Ones(done)
      invariant ss == "" <==> j == 0
    {
      if s[j] == 1 {
        nrSetHr := nrSetHr + 1;
      }
      var sep := if ss == "" then "" else ".";
      EncodeStep(done, s[j], ss, sep);
      ss := ss + sep + IntToString(s[j]);
      TakeNext(s, j);
      done := done + [s[j]];
      j := j + 1;
    }
    TakeAll(s);
  }

  lemma {:induction false} DedupKeysCounts(ms: seq<Mask>)
    ensures forall k :: k in DedupKeys(ms) <==> k in DedupCounts(ms)
  {
    if |ms| > 0 { DedupKeysCounts(ms[..|ms| - 1]); }
  }

  predicate KeysDecodable(keys: seq<string>, nrHours: nat) {
    forall j :: 0 <= j < |keys| ==> |Split(keys[j], '.')| == nrHours
  }

  /** `get_top_hour_map`: prices every key, takes the first key of greatest price (the head of
      a stable descending sort) and spreads it over 24-hour maps. */
  method GetTopHourMap(keys: seq<string>, pricePerHour: seq<real>, startHr: int, stopHr: int)
    returns (topHourMap: seq<int>, topHourMapPrice: seq<real>, price: real, ghost best: nat)
    requires |keys| >= 1
    requires 0 <= startHr < stopHr <= 24 && stopHr - startHr <= |pricePerHour|
    requires KeysDecodable(keys, stopHr - startHr)
    ensures best < |keys| && price == KeyPrice(keys[best], pricePerHour)
    ensures forall j :: 0 <= j < |keys| ==> KeyPrice(keys[j], pricePerHour) <= price
    ensures forall j :: 0 <= j < best ==> KeyPrice(keys[j], pricePerHour) < price
    ensures |topHourMap| == 24 && |topHourMapPrice| == 24
    ensures forall h :: 0 <= h < 24 && !(startHr <= h < stopHr) ==> topHourMap[h] == 0 && topHourMapPrice[h] == 0.0
    ensures forall h :: startHr <= h < stopHr ==> topHourMap[h] == 1
    ensures forall h :: startHr <= h < stopHr ==>
              topHourMapPrice[h] == if SwitchedOn(Split(keys[best], '.')[h - startHr]) then pricePerHour[h - startHr] else -1.0
  {
    var prices := PriceKeys(keys, pricePerHour, stopHr - startHr);
    var top := FirstMaximum(prices);
    price := prices[top];
    best := top;
    topHourMap, topHourMapPrice := SpreadKey(Split(keys[top], '.'), pricePerHour, startHr);
  }

  /** The price of every key, in key order. */
  function KeyPrices(keys: seq<string>, pricePerHour: seq<real>): (r: seq<real>)
    requires forall j :: 0 <= j < |keys| ==> |Split(keys[j], '.')| <= |pricePerHour|
    ensures |r| == |keys|
  {
    if |keys| == 0 then []
    else KeyPrices(keys[..|keys| - 1], pricePerHour) + [KeyPrice(keys[|keys| - 1], pricePerHour)]
  }

  lemma {:induction false} KeyPriceAt(keys: seq<string>, pricePerHour: seq<real>, t: nat)
    requires forall j :: 0 <= j < |keys| ==> |Split(keys[j], '.')| <= |pricePerHour|
    requires t < |keys|
    ensures KeyPrices(keys, pricePerHour)[t] == KeyPrice(keys[t], pricePerHour)
  {
    var init, last := keys[..|keys| - 1], KeyPrice(keys[|keys| - 1], pricePerHour);
    var r := KeyPrices(init, pricePerHour);
    assert KeyPrices(keys, pricePerHour) == r + [last];
    AppendKeeps(r, last);
    if t < |init| {
      KeyPriceAt(init, pricePerHour, t);
      assert init[t] == keys[t];
    }
  }

  method PriceKeys(keys: seq<string>, pricePerHour: seq<real>, nrHours: nat) returns (prices: seq<real>)
    requires nrHours <= |pricePerHour| && KeysDecodable(keys, nrHours)
    ensures |prices| == |keys|
    ensures forall t :: 0 <= t < |keys| ==> prices[t] == KeyPrice(keys[t], pricePerHour)
  {
    prices := [];
    var j := 0;
    while j < |keys|
      invariant 0 <= j <= |keys| && prices == KeyPrices(keys[..j], pricePerHour)
    {
      var p := PriceKey(keys[j], pricePerHour);
      TakeNext(keys, j);
      prices := prices + [p];
      j := j + 1;
    }
    TakeAll(keys);
    forall t | 0 <= t < |keys| ensures prices[t] == KeyPrice(keys[t], pricePerHour) {
      KeyPriceAt(keys, pricePerHour, t);
    }
  }

  /** The price of one key, summed hour by hour. */
  method PriceKey(key: string, pricePerHour: seq<real>) returns (p: real)
    requires |Split(key, '.')| <= |pricePerHour|
    ensures p == KeyPrice(key, pricePerHour)
  {
    var hrs := Split(key, '.');
    var sum := 0.0;
    var hrIx := 0;
    while hrIx < |hrs|
      invariant 0 <= hrIx <= |hrs| && sum == RawPrice(hrs[..hrIx], pricePerHour)
    {
      TakeNext(hrs, hrIx);
      if SwitchedOn(hrs[hrIx]) {
        sum := sum + pricePerHour[hrIx];
      }
      hrIx := hrIx + 1;
    }
    TakeAll(hrs);
    p := Round2(sum);
  }

  /** The first position of a greatest value: what a stable sort in descending order puts first. */
  method FirstMaximum(prices: seq<real>) returns (top: nat)
    requires |prices| >= 1
    ensures top < |prices|
    ensures forall t :: 0 <= t < |prices| ==> prices[t] <= prices[top]
    ensures forall t :: 0 <= t < top ==> prices[t] < prices[top]
  {
    top := 0;
    var j := 1;
    while j < |prices|
      invariant 1 <= j <= |prices| && top < j
      invariant forall t :: 0 <= t < j ==> prices[t] <= prices[top]
      invariant forall t :: 0 <= t < top ==> prices[t] < prices[top]
    {
      if prices[j] > prices[top] {
        top := j;
      }
      j := j + 1;
    }
  }

  /** The 24-hour maps of a chosen key: hours outside the window stay 0; every hour of the
      window is marked 1 in the first map and carries its price, or -1 for a pause hour, in
      the second. */
  method SpreadKey(hrs: seq<string>, pricePerHour: seq<real>, startHr: int)
    returns (topHourMap: seq<int>, topHourMapPrice: seq<real>)
    requires 0 <= startHr && startHr + |hrs| <= 24 && |hrs| <= |pricePerHour|
    ensures |topHourMap| == 24 && |topHourMapPrice| == 24
    ensures forall h :: 0 <= h < 24 && !(startHr <= h < startHr + |hrs|) ==> topHourMap[h] == 0 && topHourMapPrice[h] == 0.0
    ensures forall h :: startHr <= h < startHr + |hrs| ==> topHourMap[h] == 1
    ensures forall h :: startHr <= h < startHr + |hrs| ==>
              topHourMapPrice[h] == if SwitchedOn(hrs[h - startHr]) then pricePerHour[h - startHr] else -1.0
  {
    topHourMap := seq(24, h => 0);
    topHourMapPrice := seq(24, h => 0.0);
    var hrIx := 0;
    while hrIx < |hrs|
      invariant 0 <= hrIx <= |hrs| && |topHourMap| == 24 && |topHourMapPrice| == 24
      invariant forall h :: 0 <= h < 24 && !(startHr <= h < startHr + hrIx) ==> topHourMap[h] == 0 && topHourMapPrice[h] == 0.0
      invariant forall h :: startHr <= h < startHr + hrIx ==> topHourMap[h] == 1
      invariant forall h :: startHr <= h < startHr + hrIx ==>
                  topHourMapPrice[h] == if SwitchedOn(hrs[h - startHr]) then pricePerHour[h - startHr] else -1.0
    {
      if SwitchedOn(hrs[hrIx]) {
        topHourMap := topHourMap[hrIx + startHr := 1];
        topHourMapPrice := topHourMapPrice[hrIx + startHr := pricePerHour[hrIx]];
      } else {
        topHourMap := topHourMap[hrIx + startHr := 1];
        topHourMapPrice := topHourMapPrice[hrIx + startHr := -1.0];
      }
      hrIx := hrIx + 1;
    }
  }

  /** `get_price_per_hour_range` over the items of the rate table. */
  method GetPricePerHourRange(rates: seq<(int, real)>, startHr: int, stopHr: int) returns (pricePerHour: seq<real>)
    ensures pricePerHour == InRange(rates, startHr, stopHr)
  {
    pricePerHour := [];
    var i := 0;
    while i < |rates|
      invariant 0 <= i <= |rates| && pricePerHour == InRange(rates[..i], startHr, stopHr)
    {
      TakeNext(rates, i);
      var (h, r) := rates[i];
      if h >= startHr && h < stopHr {
        pricePerHour := pricePerHour + [r];
      }
      i := i + 1;
    }
    TakeAll(rates);
  }

  /** The window's rates cover every hour of `[start, stop)`, which `get_top_hour_map` needs
      (a shorter list makes it raise `IndexError`). */
  predicate WindowPriced(rates: seq<(int, real)>, startHr: int, stopHr: int) {
    stopHr - startHr <= |InRange(rates, startHr, stopHr)|
  }

  /** `create_top_hour_adj_maps`: the best mask of `[start, stop)` spread over 24-hour maps.
      The chosen mask is one of the 4096 candidates, its total is at least that of every
      candidate and greater than that of every earlier candidate (the stable sort keeps the
      first of equal totals in front), and the maps mark every hour of the window, with the
      hour's price on a decrease hour and -1 on a pause hour. */
  method CreateTopHourAdjMaps(b: ScheduleBuilder, rates: seq<(int, real)>, startHr: int, stopHr: int)
    returns (topHourMap: seq<int>, topHourMapPrice: seq<real>, price: real, ghost chosen: nat)
    requires 0 <= startHr < stopHr <= 24 && WindowPriced(rates, startHr, stopHr)
    modifies b
    ensures chosen < NrCandidates
    ensures price == MaskPrice(Candidate(chosen, startHr, stopHr), InRange(rates, startHr, stopHr))
    ensures forall c :: 0 <= c < NrCandidates ==>
              MaskPrice(Candidate(c, startHr, stopHr), InRange(rates, startHr, stopHr)) <= price
    ensures forall c :: 0 <= c < chosen ==>
              MaskPrice(Candidate(c, startHr, stopHr), InRange(rates, startHr, stopHr)) < price
    ensures |topHourMap| == 24 && |topHourMapPrice| == 24
    ensures forall h :: 0 <= h < 24 && !(startHr <= h < stopHr) ==> topHourMap[h] == 0 && topHourMapPrice[h] == 0.0
    ensures forall h :: startHr <= h < stopHr ==> topHourMap[h] == 1
    ensures forall h :: startHr <= h < stopHr ==>
              topHourMapPrice[h] == if Candidate(chosen, startHr, stopHr)[h - startHr] == 1
                                    then InRange(rates, startHr, stopHr)[h - startHr] else -1.0
  {
    b.schedules := [];
    var pricePerHour := GetPricePerHourRange(rates, startHr, stopHr);
    b.CreateHourSchedules(startHr, stopHr);
    var keys, counts := b.CreateNoDupHourMaps();
    ghost var ms := b.schedules;
    CandidatesFitWindow(ms, startHr, stopHr);
    MaskKeys(ms, stopHr - startHr);
    ghost var best;
    topHourMap, topHourMapPrice, price, best := GetTopHourMap(keys, pricePerHour, startHr, stopHr);
    chosen := ChooseMask(ms, pricePerHour, stopHr - startHr, best, price);
    assert ms[chosen] == ms[0 + chosen] == Candidate(chosen, startHr, stopHr);
    forall h | startHr <= h < stopHr
      ensures topHourMapPrice[h] == if Candidate(chosen, startHr, stopHr)[h - startHr] == 1
                                    then pricePerHour[h - startHr] else -1.0
    {
      assert SwitchedOn(Split(keys[best], '.')[h - startHr]) <==> ms[chosen][h - startHr] == 1;
    }
  }

  predicate AreCandidates(ms: seq<Mask>, startHr: int, stopHr: int)
    requires 0 <= startHr <= stopHr <= 24
  {
    |ms| == NrCandidates && forall c :: 0 <= c < NrCandidates ==> ms[c] == Candidate(c, startHr, stopHr)
  }

  predicate FitWindow(ms: seq<Mask>, n: nat) {
    forall c :: 0 <= c < |ms| ==> IsMask(ms[c]) && |ms[c]| == n
  }

  lemma CandidatesFitWindow(ms: seq<Mask>, startHr: int, stopHr: int)
    requires 0 <= startHr <= stopHr <= 24 && AreCandidates(ms, startHr, stopHr)
    ensures FitWindow(ms, stopHr - startHr)
  {
    forall c | 0 <= c < |ms| ensures IsMask(ms[c]) && |ms[c]| == stopHr - startHr {
      CandidateShape(c, startHr, stopHr);
    }
  }

  /** The de-duplicated keys of masks that fit the window all split into one piece per hour. */
  lemma MaskKeys(ms: seq<Mask>, n: nat)
    requires |ms| >= 1 && n >= 1 && FitWindow(ms, n)
    ensures |DedupKeys(ms)| >= 1 && KeysDecodable(DedupKeys(ms), n)
  {
    DedupCovers(ms);
    DedupOnlyFrom(ms);
    assert EncodeMask(ms[0]) in DedupKeys(ms);
    forall j | 0 <= j < |DedupKeys(ms)| ensures |Split(DedupKeys(ms)[j], '.')| == n {
      assert DedupKeys(ms)[j] in DedupKeys(ms);
      var c :| 0 <= c < |ms| && EncodeMask(ms[c]) == DedupKeys(ms)[j];
      DecodeEncodeMask(ms[c]);
    }
  }

  /** The key of greatest price among the de-duplicated keys belongs to a mask whose total is
      at least that of every mask; the first mask with that key is also the first mask of
      greatest total, because the keys stand in the order their masks first occur. */
  lemma ChooseMask(ms: seq<Mask>, pricePerHour: seq<real>, n: nat, best: nat, price: real)
    returns (chosen: nat)
    requires 1 <= n <= |pricePerHour| && FitWindow(ms, n) && KeysDecodable(DedupKeys(ms), n)
    requires best < |DedupKeys(ms)| && price == KeyPrice(DedupKeys(ms)[best], pricePerHour)
    requires forall j :: 0 <= j < |DedupKeys(ms)| ==> KeyPrice(DedupKeys(ms)[j], pricePerHour) <= price
    requires forall j :: 0 <= j < best ==> KeyPrice(DedupKeys(ms)[j], pricePerHour) < price
    ensures chosen < |ms| && EncodeMask(ms[chosen]) == DedupKeys(ms)[best]
    ensures price == MaskPrice(ms[chosen], pricePerHour)
    ensures forall c :: 0 <= c < |ms| ==> MaskPrice(ms[c], pricePerHour) <= price
    ensures forall c :: 0 <= c < chosen ==> MaskPrice(ms[c], pricePerHour) < price
    ensures forall i :: 0 <= i < n ==> (SwitchedOn(Split(DedupKeys(ms)[best], '.')[i]) <==> ms[chosen][i] == 1)
  {
    var keys := DedupKeys(ms);
    DedupCovers(ms);
    DedupOnlyFrom(ms);
    assert keys[best] in keys;
    var some :| 0 <= some < |ms| && EncodeMask(ms[some]) == keys[best];
    chosen := FirstWithKey(ms, keys[best], some);
    KeyPriceOfMask(ms[chosen], pricePerHour);
    DecodeEncodeMask(ms[chosen]);
    forall c | 0 <= c < |ms| ensures MaskPrice(ms[c], pricePerHour) <= price {
      KeyPriceOfMask(ms[c], pricePerHour);
      assert EncodeMask(ms[c]) in keys;
      var j :| 0 <= j < |keys| && keys[j] == EncodeMask(ms[c]);
    }
    EarlierMasksCheaper(ms, pricePerHour, n, best, price, chosen);
  }

  /** Every mask before the first one with the best key has a lower total: its key is either
      listed before the best key, where prices are lower, or after it, which would put a mask
      with the best key before it. */
  lemma EarlierMasksCheaper(ms: seq<Mask>, pricePerHour: seq<real>, n: nat, best: nat, price: real, chosen: nat)
    requires 1 <= n <= |pricePerHour| && FitWindow(ms, n) && KeysDecodable(DedupKeys(ms), n)
    requires best < |DedupKeys(ms)| && forall j :: 0 <= j < best ==> KeyPrice(DedupKeys(ms)[j], pricePerHour) < price
    requires chosen < |ms| && EncodeMask(ms[chosen]) == DedupKeys(ms)[best]
    requires forall c :: 0 <= c < chosen ==> EncodeMask(ms[c]) != DedupKeys(ms)[best]
    ensures forall c :: 0 <= c < chosen ==> MaskPrice(ms[c], pricePerHour) < price
  {
    var keys := DedupKeys(ms);
    DedupCovers(ms);
    forall c | 0 <= c < chosen ensures MaskPrice(ms[c], pricePerHour) < price {
      KeyPriceOfMask(ms[c], pricePerHour);
      assert EncodeMask(ms[c]) in keys;
      var j :| 0 <= j < |keys| && keys[j] == EncodeMask(ms[c]);
      if best < j {
        var d := KeyOrderFollowsMasks(ms, best, j, c);
        assert false;
      }
    }
  }

  /** A key listed before another first occurs before every mask carrying the later key. */
  lemma {:induction false} KeyOrderFollowsMasks(ms: seq<Mask>, i: nat, j: nat, c: nat) returns (d: nat)
    requires i < j < |DedupKeys(ms)| && c < |ms| && EncodeMask(ms[c]) == DedupKeys(ms)[j]
    ensures d < c && EncodeMask(ms[d]) == DedupKeys(ms)[i]
  {
    var init := ms[..|ms| - 1];
    var keys := DedupKeys(init);
    DedupOnlyFrom(init);
    if c == |ms| - 1 {
      assert DedupKeys(ms)[i] == keys[i] && keys[i] in keys;
      var e :| 0 <= e < |init| && EncodeMask(init[e]) == keys[i];
      assert ms[e] == init[e];
      d := e;
    } else {
      assert ms[c] == init[c];
      DedupCovers(init);
      assert EncodeMask(init[c]) in keys;
      d := KeyOrderFollowsMasks(init, i, j, c);
      assert ms[d] == init[d];
    }
  }
}
