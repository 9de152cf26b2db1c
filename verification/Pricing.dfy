/** The simulated price of API usage, and the tokenizer-free estimate used when no token counts are reported. */
module Pricing {
  import opened Common

  // ------------------------------------------------------------------ the cost of one record

  /** Rates in nano-USD per token. */
  datatype ApiPrice = ApiPrice(inputRate: nat, cachedRate: Option<nat>, writeRate: Option<nat>, outputRate: nat)

  datatype Usage = Usage(input: int, cached: int, written: int, output: int)

  function Max(a: int, b: int): int { if a < b then b else a }

  function Min(a: int, b: int): int { if a < b then a else b }

  /** The prompt split into ordinary, cached and cache-written tokens as they are billed. */
  datatype Split = Split(ordinary: int, cached: int, written: int)

  function Billed(price: ApiPrice, u: Usage): Split {
    var prompt := Max(0, u.input);
    var cached := Max(0, Min(prompt, u.cached));
    var written := Max(0, Min(prompt - cached, u.written));
    var billedCached := if price.cachedRate.Some? then cached else 0;
    var billedWritten := if price.writeRate.Some? then written else 0;
    Split(Max(0, prompt - billedCached - billedWritten), billedCached, billedWritten)
  }

  function RateOr0(rate: Option<nat>): nat { if rate.Some? then rate.value else 0 }

  function NanoUsd(price: ApiPrice, u: Usage): int {
    var s := Billed(price, u);
    s.ordinary * price.inputRate + s.cached * RateOr0(price.cachedRate) + s.written * RateOr0(price.writeRate)
    + Max(0, u.output) * price.outputRate
  }

  /** Micro-USD, rounded up. */
  function Ceil1000(nano: int): int { (nano + 999) / 1000 }

  function SimulatedCost(price: ApiPrice, u: Usage): int {
    var nano := NanoUsd(price, u);
    if nano != 0 then Ceil1000(nano) else 0
  }

  /** For all integers, negative or inconsistent ones too, the charged tokens are the prompt: none is lost, none is
      charged twice, and no class exceeds what was reported for it. */
  lemma ChargedTokensPartition(price: ApiPrice, u: Usage)
    ensures var s := Billed(price, u);
            && s.ordinary >= 0 && s.cached >= 0 && s.written >= 0
            && s.ordinary + s.cached + s.written == Max(0, u.input)
            && s.cached <= Max(0, u.cached) && s.written <= Max(0, u.written)
            && (price.cachedRate.None? ==> s.cached == 0) && (price.writeRate.None? ==> s.written == 0)
  {
  }

  lemma MulMonotone(a: int, b: int, rate: nat)
    requires a <= b
    ensures a * rate <= b * rate
  {
  }

  /** More tokens in never move tokens out of a class. */
  lemma BilledGrows(price: ApiPrice, u: Usage, more: Usage)
    requires u.input <= more.input && u.cached == more.cached && u.written == more.written
    ensures var s, t := Billed(price, u), Billed(price, more);
            s.ordinary <= t.ordinary && s.cached <= t.cached && s.written <= t.written
  {
  }

  lemma NanoIsNonnegative(price: ApiPrice, u: Usage)
    ensures NanoUsd(price, u) >= 0
  {
    ChargedTokensPartition(price, u);
    var s := Billed(price, u);
    MulMonotone(0, s.ordinary, price.inputRate);
    MulMonotone(0, s.cached, RateOr0(price.cachedRate));
    MulMonotone(0, s.written, RateOr0(price.writeRate));
    MulMonotone(0, Max(0, u.output), price.outputRate);
  }

  /** More input or output never costs less. */
  lemma CostIsMonotone(price: ApiPrice, u: Usage, more: Usage)
    requires u.input <= more.input && u.output <= more.output && u.cached == more.cached && u.written == more.written
    ensures SimulatedCost(price, u) <= SimulatedCost(price, more)
  {
    BilledGrows(price, u, more);
    var s, t := Billed(price, u), Billed(price, more);
    MulMonotone(s.ordinary, t.ordinary, price.inputRate);
    MulMonotone(s.cached, t.cached, RateOr0(price.cachedRate));
    MulMonotone(s.written, t.written, RateOr0(price.writeRate));
    MulMonotone(Max(0, u.output), Max(0, more.output), price.outputRate);
    assert NanoUsd(price, u) <= NanoUsd(price, more);
    NanoIsNonnegative(price, u);
  }

  /** The cost is the least whole number of micro-USD that covers the nano-USD. */
  lemma CostCovers(price: ApiPrice, u: Usage)
    ensures 1000 * SimulatedCost(price, u) - 999 <= NanoUsd(price, u) <= 1000 * SimulatedCost(price, u)
  {
    NanoIsNonnegative(price, u);
  }

  /** A missing cached or write rate charges those tokens at the ordinary rate; it never makes them free. */
  lemma MissingRateIsOrdinary(price: ApiPrice, u: Usage)
    ensures price.cachedRate.None? ==> NanoUsd(price, u) == NanoUsd(price.(cachedRate := Some(price.inputRate)), u)
    ensures price.writeRate.None? ==> NanoUsd(price, u) == NanoUsd(price.(writeRate := Some(price.inputRate)), u)
  {
    var s := Billed(price, u);
    var c, w := Billed(price.(cachedRate := Some(price.inputRate)), u),
        Billed(price.(writeRate := Some(price.inputRate)), u);
    ChargedTokensPartition(price, u);
    MulAdds(c.ordinary, c.cached, price.inputRate);
    MulAdds(w.ordinary, w.written, price.inputRate);
  }

  /** Reported cached tokens are billed first, as far as the prompt goes; cache-written ones have what is left; the
      rest is ordinary. */
  lemma CachedBeforeWritten(price: ApiPrice, u: Usage)
    requires price.cachedRate.Some? && price.writeRate.Some?
    ensures var s := Billed(price, u);
            && (s.cached == u.cached || (s.cached == 0 && u.cached < 0) || s.cached == Max(0, u.input))
            && (s.written == u.written || (s.written == 0 && u.written < 0) || s.ordinary == 0)
  {
  }

  /** One record at one of the listed prices, on counts that need no clamping. */
  lemma ListedPrice(u: Usage)
    requires WellFormed(u)
    ensures var nano := 5000 * (u.input - u.cached - u.written) + 500 * u.cached + 6250 * u.written + 30000 * u.output;
            var cost := SimulatedCost(ApiPrice(5000, Some(500), Some(6250), 30000), u);
            1000 * (cost - 1) < nano <= 1000 * cost
  {
    var price := ApiPrice(5000, Some(500), Some(6250), 30000);
    assert Billed(price, u) == Split(u.input - u.cached - u.written, u.cached, u.written);
    CostCovers(price, u);
  }

  // ------------------------------------------------------------------ many records

  predicate WellFormed(u: Usage) {
    u.cached >= 0 && u.written >= 0 && u.output >= 0 && u.cached + u.written <= u.input
  }

  function Plus(u: Usage, v: Usage): Usage {
    Usage(u.input + v.input, u.cached + v.cached, u.written + v.written, u.output + v.output)
  }

  function Total(records: seq<Usage>): Usage {
    if records == [] then Usage(0, 0, 0, 0) else Plus(records[0], Total(records[1..]))
  }

  function Separately(price: ApiPrice, records: seq<Usage>): int {
    if records == [] then 0 else SimulatedCost(price, records[0]) + Separately(price, records[1..])
  }

  function AllNano(price: ApiPrice, records: seq<Usage>): int {
    if records == [] then 0 else NanoUsd(price, records[0]) + AllNano(price, records[1..])
  }

  /** On well-formed records the clamps do nothing, so the unrounded price is additive. */
  lemma NanoAdds(price: ApiPrice, u: Usage, v: Usage)
    requires WellFormed(u) && WellFormed(v)
    ensures WellFormed(Plus(u, v)) && NanoUsd(price, Plus(u, v)) == NanoUsd(price, u) + NanoUsd(price, v)
  {
    var s, t, both := Billed(price, u), Billed(price, v), Billed(price, Plus(u, v));
    assert both == Split(s.ordinary + t.ordinary, s.cached + t.cached, s.written + t.written);
    MulAdds(s.ordinary, t.ordinary, price.inputRate);
    MulAdds(s.cached, t.cached, RateOr0(price.cachedRate));
    MulAdds(s.written, t.written, RateOr0(price.writeRate));
    MulAdds(u.output, v.output, price.outputRate);
  }

  lemma MulAdds(a: int, b: int, rate: int)
    ensures (a + b) * rate == a * rate + b * rate
  {
  }

  lemma {:induction false} TotalNano(price: ApiPrice, records: seq<Usage>)
    requires forall u :: u in records ==> WellFormed(u)
    ensures WellFormed(Total(records)) && NanoUsd(price, Total(records)) == AllNano(price, records)
  {
    if records != [] {
      TotalNano(price, records[1..]);
      NanoAdds(price, records[0], Total(records[1..]));
    }
  }

  lemma CeilAdds(a: int, b: int)
    requires a >= 0 && b >= 0
    ensures Ceil1000(a + b) <= Ceil1000(a) + Ceil1000(b) <= Ceil1000(a + b) + 1
  {
  }

  lemma {:induction false} SeparatelyBounds(price: ApiPrice, records: seq<Usage>)
    requires records != []
    ensures AllNano(price, records) >= 0
    ensures Ceil1000(AllNano(price, records)) <= Separately(price, records)
    ensures Separately(price, records) <= Ceil1000(AllNano(price, records)) + |records| - 1
  {
    NanoIsNonnegative(price, records[0]);
    if |records| == 1 {
      assert records[1..] == [];
    } else {
      SeparatelyBounds(price, records[1..]);
      CeilAdds(NanoUsd(price, records[0]), AllNano(price, records[1..]));
    }
  }

  /** Charging n records one by one exceeds charging their total by at least 0 and at most n - 1 micro-USD. */
  lemma SeparateExceedsTotal(price: ApiPrice, records: seq<Usage>)
    requires records != [] && forall u :: u in records ==> WellFormed(u)
    ensures 0 <= Separately(price, records) - SimulatedCost(price, Total(records)) <= |records| - 1
  {
    TotalNano(price, records);
    SeparatelyBounds(price, records);
  }

  lemma PairTotals(price: ApiPrice, u: Usage, v: Usage)
    ensures Total([u, v]) == Plus(u, v)
    ensures Separately(price, [u, v]) == SimulatedCost(price, u) + SimulatedCost(price, v)
  {
    hide SimulatedCost;
    assert [u, v][1..] == [v] && [v][1..] == [];
    assert Total([v]) == v;
    assert Separately(price, [v]) == SimulatedCost(price, v);
  }

  /** Without well-formed records it fails, by as much as one likes: cached tokens beyond one record's input are
      dropped when it is charged alone, yet fit into the total and make it cheaper. */
  lemma IllFormedRecordsBreakTheBound(price: ApiPrice, n: nat)
    requires price.inputRate == 5000 && price.cachedRate == Some(500)
    ensures var u, v := Usage(0, n, 0, 0), Usage(n, 0, 0, 0);
            Separately(price, [u, v]) - SimulatedCost(price, Total([u, v])) >= 4 * n
  {
    hide Total, Separately, NanoUsd, Billed, Ceil1000, SimulatedCost;
    var u, v := Usage(0, n, 0, 0), Usage(n, 0, 0, 0);
    PairTotals(price, u, v);
    CostOfPrompt(price, u, 0, 0);
    CostOfPrompt(price, v, n, 0);
    CostOfPrompt(price, Plus(u, v), 0, n);
    CeilOfRates(n);
  }

  lemma CostOfPrompt(price: ApiPrice, u: Usage, ordinary: nat, cached: nat)
    requires price.inputRate == 5000 && price.cachedRate == Some(500)
    requires u.written == 0 && u.output == 0 && u.input == ordinary + cached
    requires cached == u.cached || (u.input == cached == 0 && u.cached >= 0)
    ensures SimulatedCost(price, u) == Ceil1000(ordinary * 5000 + cached * 500)
  {
    hide NanoUsd;
    NanoOfPrompt(price, u, ordinary, cached);
  }

  lemma NanoOfPrompt(price: ApiPrice, u: Usage, ordinary: nat, cached: nat)
    requires price.inputRate == 5000 && price.cachedRate == Some(500)
    requires u.written == 0 && u.output == 0 && u.input == ordinary + cached
    requires cached == u.cached || (u.input == cached == 0 && u.cached >= 0)
    ensures NanoUsd(price, u) == ordinary * 5000 + cached * 500
  {
    assert Billed(price, u) == Split(ordinary, cached, 0);
    hide Billed;
  }

  lemma CeilOfRates(n: nat)
    ensures Ceil1000(0) == 0 && Ceil1000(n * 5000) == 5 * n && Ceil1000(n * 500) <= n
  {
  }

  // ------------------------------------------------------------------ when the bound holds

  /** The counts as the clamps leave them, before any rate is looked at. */
  function Clamped(u: Usage): Usage {
    var prompt := Max(0, u.input);
    var cached := Max(0, Min(prompt, u.cached));
    Usage(prompt, cached, Max(0, Min(prompt - cached, u.written)), Max(0, u.output))
  }

  function AllClamped(records: seq<Usage>): Usage {
    if records == [] then Usage(0, 0, 0, 0) else Plus(Clamped(records[0]), AllClamped(records[1..]))
  }

  /** Clamping the total is adding up the clamped records. */
  predicate ClampsAdd(records: seq<Usage>) {
    Clamped(Total(records)) == AllClamped(records)
  }

  /** The price of counts that need no clamping. */
  function Charge(price: ApiPrice, c: Usage): int {
    var cached := if price.cachedRate.Some? then c.cached else 0;
    var written := if price.writeRate.Some? then c.written else 0;
    (c.input - cached - written) * price.inputRate + cached * RateOr0(price.cachedRate)
    + written * RateOr0(price.writeRate) + c.output * price.outputRate
  }

  lemma NanoIsCharge(price: ApiPrice, u: Usage)
    ensures NanoUsd(price, u) == Charge(price, Clamped(u))
  {
    var c, s := Clamped(u), Billed(price, u);
    var cached := if price.cachedRate.Some? then c.cached else 0;
    var written := if price.writeRate.Some? then c.written else 0;
    assert s == Split(c.input - cached - written, cached, written);
  }

  lemma ChargeAdds(price: ApiPrice, a: Usage, b: Usage)
    ensures Charge(price, Plus(a, b)) == Charge(price, a) + Charge(price, b)
  {
    var c, w := price.cachedRate.Some?, price.writeRate.Some?;
    var ca, cb := if c then a.cached else 0, if c then b.cached else 0;
    var wa, wb := if w then a.written else 0, if w then b.written else 0;
    MulAdds(a.input - ca - wa, b.input - cb - wb, price.inputRate);
    MulAdds(ca, cb, RateOr0(price.cachedRate));
    MulAdds(wa, wb, RateOr0(price.writeRate));
    MulAdds(a.output, b.output, price.outputRate);
  }

  lemma {:induction false} AllNanoIsCharge(price: ApiPrice, records: seq<Usage>)
    ensures AllNano(price, records) == Charge(price, AllClamped(records))
  {
    hide NanoUsd, Charge, Clamped;
    if records == [] {
      NothingCharged(price);
    } else {
      AllNanoIsCharge(price, records[1..]);
      NanoIsCharge(price, records[0]);
      ChargeAdds(price, Clamped(records[0]), AllClamped(records[1..]));
    }
  }

  lemma NothingCharged(price: ApiPrice)
    ensures Charge(price, Usage(0, 0, 0, 0)) == 0
  {
  }

  predicate Bounded(price: ApiPrice, records: seq<Usage>) {
    0 <= Separately(price, records) - SimulatedCost(price, Total(records)) <= |records| - 1
  }

  /** A price of so many micro-USD for one class of tokens and nothing for the others. */
  function Single(kind: int, rate: nat): ApiPrice {
    ApiPrice(if kind == 0 then rate else 0, if kind == 1 then Some(rate) else if kind == 0 then None else Some(0),
             if kind == 2 then Some(rate) else if kind == 0 then None else Some(0), if kind == 3 then rate else 0)
  }

  function Count(kind: int, c: Usage): int {
    match kind
    case 0 => c.input
    case 1 => c.cached
    case 2 => c.written
    case _ => c.output
  }

  lemma SingleCharge(kind: int, rate: nat, c: Usage)
    requires 0 <= kind <= 3
    ensures Charge(Single(kind, rate), c) == Count(kind, c) * rate
  {
  }

  lemma {:induction false} SingleSeparately(kind: int, k: nat, records: seq<Usage>)
    requires 0 <= kind <= 3
    ensures Separately(Single(kind, 1000 * k), records) == Count(kind, AllClamped(records)) * k
  {
    hide SimulatedCost, Single, Clamped;
    if records != [] {
      SingleSeparately(kind, k, records[1..]);
      SingleCost(kind, k, records[0]);
      MulAdds(Count(kind, Clamped(records[0])), Count(kind, AllClamped(records[1..])), k);
    }
  }

  lemma SingleCost(kind: int, k: nat, u: Usage)
    requires 0 <= kind <= 3
    ensures SimulatedCost(Single(kind, 1000 * k), u) == Count(kind, Clamped(u)) * k
  {
    hide Single, Charge, NanoUsd, Clamped;
    NanoIsCharge(Single(kind, 1000 * k), u);
    SingleCharge(kind, 1000 * k, Clamped(u));
    Thousands(Count(kind, Clamped(u)), k);
  }

  lemma Thousands(count: int, k: nat)
    ensures count * (1000 * k) == 1000 * (count * k)
    ensures Ceil1000(1000 * (count * k)) == count * k
  {
  }

  /** A difference that stays below n when multiplied by n is none. */
  lemma NoDifference(d: int, n: nat)
    requires 0 <= d * n <= n - 1
    ensures d == 0
  {
    if d >= 1 { MulMonotone(1, d, n); }
    if d <= -1 { MulMonotone(d, -1, n); }
  }

  /** The bound of 0 to n - 1 micro-USD holds under every price if and only if the clamps add up. */
  lemma BoundIffClampsAdd(records: seq<Usage>)
    requires records != []
    ensures (forall price :: Bounded(price, records)) <==> ClampsAdd(records)
  {
    hide Separately, SimulatedCost, Total, AllClamped, Clamped, Single;
    if ClampsAdd(records) {
      forall price ensures Bounded(price, records) {
        ClampsGiveBound(price, records);
      }
    }
    if forall price :: Bounded(price, records) {
      forall kind | 0 <= kind <= 3 ensures Count(kind, Clamped(Total(records))) == Count(kind, AllClamped(records)) {
        BoundGivesClamp(kind, records);
      }
      assert Count(0, Clamped(Total(records))) == Count(0, AllClamped(records));
      assert Count(1, Clamped(Total(records))) == Count(1, AllClamped(records));
      assert Count(2, Clamped(Total(records))) == Count(2, AllClamped(records));
      assert Count(3, Clamped(Total(records))) == Count(3, AllClamped(records));
    }
  }

  lemma ClampsGiveBound(price: ApiPrice, records: seq<Usage>)
    requires records != [] && ClampsAdd(records)
    ensures Bounded(price, records)
  {
    hide Charge, Total, AllClamped, Clamped, Separately, AllNano, NanoUsd;
    NanoIsCharge(price, Total(records));
    AllNanoIsCharge(price, records);
    SeparatelyBounds(price, records);
  }

  lemma BoundGivesClamp(kind: int, records: seq<Usage>)
    requires 0 <= kind <= 3 && records != [] && Bounded(Single(kind, 1000 * |records|), records)
    ensures Count(kind, Clamped(Total(records))) == Count(kind, AllClamped(records))
  {
    hide Separately, SimulatedCost, Total, AllClamped, Clamped, Single, Count;
    var n, whole, parts := |records|, Count(kind, Clamped(Total(records))), Count(kind, AllClamped(records));
    SingleSeparately(kind, n, records);
    SingleCost(kind, n, Total(records));
    assert parts * n - whole * n == (parts - whole) * n;
    NoDifference(parts - whole, n);
  }

  // ------------------------------------------------------------------ the ceiling in floating point

  const TWO_53: int := 0x20_0000_0000_0000

  function Ceiling(x: real): int {
    if x.Floor as real == x then x.Floor else x.Floor + 1
  }

  /** A relative error of at most 2^-53. */
  ghost predicate WithinError(nano: int, quotient: real) {
    var exact := nano as real / 1000.0;
    -exact / TWO_53 as real <= quotient - exact <= exact / TWO_53 as real
  }

  /** What a binary64 division by 1000 may return: that error, and none on a whole quotient. */
  ghost predicate Rounds(nano: int, quotient: real) {
    WithinError(nano, quotient) && (nano % 1000 == 0 ==> quotient == nano as real / 1000.0)
  }

  lemma FloorBetween(x: real, k: int)
    requires k as real < x < (k + 1) as real
    ensures x.Floor == k && x.Floor as real != x
  {
  }

  /** Below 2^53 and within the error, the ceiling is the exact one if and only if a whole quotient is not
      rounded up. */
  lemma CeilingAgrees(nano: int, quotient: real)
    requires 0 <= nano < TWO_53 && WithinError(nano, quotient)
    ensures Ceiling(quotient) == Ceil1000(nano) <==> (nano % 1000 == 0 ==> quotient <= nano as real / 1000.0)
  {
    var k, j := nano / 1000, nano % 1000;
    var exact := nano as real / 1000.0;
    assert exact == k as real + j as real / 1000.0 by {
      assert nano == 1000 * k + j;
    }
    assert exact / TWO_53 as real < 0.001;
    if j == 0 {
      if quotient > exact { FloorBetween(quotient, k); }
      if quotient < exact { FloorBetween(quotient, k - 1); }
    } else {
      assert k as real + 0.001 <= exact <= k as real + 0.999;
      FloorBetween(quotient, k);
    }
  }

  /** So below 2^53 the ceiling of the rounded quotient is the ceiling of the exact one. */
  lemma FloatCeilingIsExact(nano: int, quotient: real)
    requires 0 <= nano < TWO_53 && Rounds(nano, quotient)
    ensures Ceiling(quotient) == Ceil1000(nano)
  {
    CeilingAgrees(nano, quotient);
  }

  /** A relative error of 2^-53 alone is not enough: on a whole quotient it can charge one micro-USD too much. */
  lemma ErrorBoundAloneIsNotEnough()
    ensures var quotient := 1.0 + 1.0 / TWO_53 as real;
            WithinError(1000, quotient) && Ceiling(quotient) == 2 && Ceil1000(1000) == 1
  {
    FloorBetween(1.0 + 1.0 / TWO_53 as real, 1);
  }

  /** The program's own result, with the quotient the division returned. */
  function FloatCost(price: ApiPrice, u: Usage, quotient: real): int {
    if NanoUsd(price, u) != 0 then Ceiling(quotient) else 0
  }

  lemma FloatCostIsExact(price: ApiPrice, u: Usage, quotient: real)
    requires NanoUsd(price, u) < TWO_53 && Rounds(NanoUsd(price, u), quotient)
    ensures FloatCost(price, u, quotient) == SimulatedCost(price, u)
  {
    NanoIsNonnegative(price, u);
    FloatCeilingIsExact(NanoUsd(price, u), quotient);
  }

  // ------------------------------------------------------------------ estimating text

  datatype Class = Word | Mark | Gap | Wide

  /** Letters, digits and underscore make words; other ASCII characters count one each unless they are spaces;
      the rest count one each unless `space` says they are spaces. */
  function ClassOf(c: char, space: char -> bool): Class {
    if c as int >= 128 then if space(c) then Gap else Wide
    else if '0' <= c <= '9' || 'A' <= c <= 'Z' || 'a' <= c <= 'z' || c == '_' then Word
    else if 9 <= c as int <= 13 || 28 <= c as int <= 32 then Gap
    else Mark
  }

  function Classes(text: string, space: char -> bool): (r: seq<Class>)
    ensures |r| == |text| && forall i :: 0 <= i < |text| ==> r[i] == ClassOf(text[i], space)
  {
    seq(|text|, i requires 0 <= i < |text| => ClassOf(text[i], space))
  }

  /** The ASCII text the pattern is matched against: every other character becomes a blank. */
  function AsciiOnly(s: seq<Class>): (r: seq<Class>)
    ensures |r| == |s| && forall i :: 0 <= i < |s| ==> r[i] == if s[i].Wide? then Gap else s[i]
  {
    seq(|s|, i requires 0 <= i < |s| => if s[i].Wide? then Gap else s[i])
  }

  /** The length of the word a text starts with. */
  function RunLength(s: seq<Class>): (n: nat)
    ensures n <= |s| && (forall i :: 0 <= i < n ==> s[i].Word?) && (n < |s| ==> !s[n].Word?)
  {
    if s == [] || !s[0].Word? then 0 else 1 + RunLength(s[1..])
  }

  /** All matches of the pattern from left to right: a longest word, or one other character that is not a space. */
  function FindAll(s: seq<Class>): seq<seq<Class>>
    decreases |s|
  {
    if s == [] then []
    else if s[0].Word? then [s[..RunLength(s)]] + FindAll(s[RunLength(s)..])
    else if s[0].Mark? then [s[..1]] + FindAll(s[1..])
    else FindAll(s[1..])
  }

  function Ceil4(n: nat): nat { (n + 3) / 4 }

  function PieceTokens(pieces: seq<seq<Class>>): nat {
    if pieces == [] then 0 else Max(1, Ceil4(|pieces[0]|)) + PieceTokens(pieces[1..])
  }

  function WideCount(s: seq<Class>): nat {
    if s == [] then 0 else (if s[0].Wide? then 1 else 0) + WideCount(s[1..])
  }

  function EstimateClasses(s: seq<Class>): nat {
    PieceTokens(FindAll(AsciiOnly(s))) + WideCount(s)
  }

  function EstimateText(text: string, space: char -> bool): nat {
    if text == "" then 0 else EstimateClasses(Classes(text, space))
  }

  /** The same estimate as one pass that remembers only how long the current word is. */
  function Scan(s: seq<Class>, run: nat): nat {
    if s == [] then Ceil4(run)
    else
      match s[0]
      case Word => Scan(s[1..], run + 1)
      case Gap => Ceil4(run) + Scan(s[1..], 0)
      case _ => Ceil4(run) + 1 + Scan(s[1..], 0)
  }

  lemma {:induction false} ScanRun(s: seq<Class>, n: nat, run: nat)
    requires n <= |s| && forall i :: 0 <= i < n ==> s[i].Word?
    ensures Scan(s, run) == Scan(s[n..], run + n)
  {
    if n == 0 {
      assert s[0..] == s;
    } else {
      ScanRun(s[1..], n - 1, run + 1);
      assert s[1..][n - 1..] == s[n..];
    }
  }

  lemma {:induction false} WideRun(s: seq<Class>, n: nat)
    requires n <= |s| && forall i :: 0 <= i < n ==> !s[i].Wide?
    ensures WideCount(s) == WideCount(s[n..])
  {
    if n == 0 {
      assert s[0..] == s;
    } else {
      WideRun(s[1..], n - 1);
      assert s[1..][n - 1..] == s[n..];
    }
  }

  lemma AsciiTail(s: seq<Class>, n: nat)
    requires n <= |s|
    ensures AsciiOnly(s)[n..] == AsciiOnly(s[n..])
  {
  }

  lemma ScanAfterWord(s: seq<Class>, run: nat)
    requires s != [] ==> !s[0].Word?
    ensures Scan(s, run) == Ceil4(run) + Scan(s, 0)
  {
  }

  /** Matching the pattern and counting is the one-pass estimate. */
  lemma {:induction false} EstimateIsScan(s: seq<Class>)
    ensures EstimateClasses(s) == Scan(s, 0)
    decreases |s|
  {
    if s != [] {
      var a := AsciiOnly(s);
      if s[0].Word? {
        var n := RunLength(a);
        assert forall i :: 0 <= i < n ==> a[i].Word?;
        AsciiTail(s, n);
        ScanRun(s, n, 0);
        WideRun(s, n);
        ScanAfterWord(s[n..], n);
        EstimateIsScan(s[n..]);
      } else {
        AsciiTail(s, 1);
        EstimateIsScan(s[1..]);
      }
    }
  }

  lemma Ceil4Adds(m: nat, n: nat)
    ensures Ceil4(m + n) <= Ceil4(m) + Ceil4(n) <= Ceil4(m + n) + 1
  {
  }

  /** Cutting inside a word costs at most one token and never saves one. */
  lemma {:induction false} CutInWord(s: seq<Class>, before: nat, run: nat)
    ensures Scan(s, before + run) <= Ceil4(before) + Scan(s, run) <= Scan(s, before + run) + 1
  {
    Ceil4Adds(before, run);
    if s != [] && s[0].Word? {
      CutInWord(s[1..], before, run + 1);
    }
  }

  lemma {:induction false} CutAnywhere(a: seq<Class>, b: seq<Class>, run: nat)
    ensures Scan(a + b, run) <= Scan(a, run) + Scan(b, 0) <= Scan(a + b, run) + 1
  {
    if a == [] {
      assert a + b == b;
      CutInWord(b, run, 0);
    } else {
      assert (a + b)[1..] == a[1..] + b;
      CutAnywhere(a[1..], b, if a[0].Word? then run + 1 else 0);
    }
  }

  lemma {:induction false} CutAtBoundary(a: seq<Class>, b: seq<Class>, run: nat)
    requires b == [] || !b[0].Word? || (if a == [] then run == 0 else !a[|a| - 1].Word?)
    ensures Scan(a + b, run) == Scan(a, run) + Scan(b, 0)
  {
    if a == [] {
      assert a + b == b;
    } else {
      assert (a + b)[1..] == a[1..] + b;
      CutAtBoundary(a[1..], b, if a[0].Word? then run + 1 else 0);
    }
  }

  /** ASCII letters, digits and the underscore. */
  predicate InWord(c: char) {
    48 <= c as int <= 57 || 65 <= c as int <= 90 || 97 <= c as int <= 122 || c as int == 95
  }

  /** ASCII blanks and control separators, and beyond ASCII what `space` says. */
  predicate Blank(c: char, space: char -> bool) {
    if c as int < 128 then c as int in {9, 10, 11, 12, 13, 28, 29, 30, 31, 32} else space(c)
  }

  /** A word of n characters costs n / 4 rounded up. */
  lemma WordCosts(text: string, space: char -> bool)
    requires forall i :: 0 <= i < |text| ==> InWord(text[i])
    ensures 4 * EstimateText(text, space) - 4 < |text| <= 4 * EstimateText(text, space)
  {
    var s := Classes(text, space);
    TextIsScan(text, space);
    ScanRun(s, |s|, 0);
  }

  /** Any other character costs one, a blank nothing. */
  lemma CharacterCosts(c: char, space: char -> bool)
    requires !InWord(c)
    ensures EstimateText([c], space) == if Blank(c, space) then 0 else 1
  {
    TextIsScan([c], space);
    var s := Classes([c], space);
    assert s[1..] == [];
  }

  /** Away from the inside of a word, the estimate of a text is the sum of its parts: with the costs of words and of
      single characters this determines it for every text. */
  lemma PartsAdd(a: string, b: string, space: char -> bool)
    requires a == "" || b == "" || !InWord(a[|a| - 1]) || !InWord(b[0])
    ensures EstimateText(a + b, space) == EstimateText(a, space) + EstimateText(b, space)
  {
    hide EstimateText, Scan;
    assert Classes(a + b, space) == Classes(a, space) + Classes(b, space);
    TextIsScan(a, space);
    TextIsScan(b, space);
    TextIsScan(a + b, space);
    CutAtBoundary(Classes(a, space), Classes(b, space), 0);
  }

  function Joined(pieces: seq<string>): string {
    Concat(pieces, |pieces|)
  }

  lemma JoinedStep(pieces: seq<string>)
    ensures pieces == [] ==> Joined(pieces) == ""
    ensures pieces != [] ==> Joined(pieces) == pieces[0] + Joined(pieces[1..])
  {
    if pieces != [] {
      ConcatOfMore([pieces[0]], pieces[1..]);
      assert Concat([pieces[0]], 1) == Concat([pieces[0]], 0) + pieces[0] == pieces[0];
      assert pieces == [pieces[0]] + pieces[1..];
    }
  }

  function EstimateEach(pieces: seq<string>, space: char -> bool): nat {
    if pieces == [] then 0 else EstimateText(pieces[0], space) + EstimateEach(pieces[1..], space)
  }

  lemma TextIsScan(text: string, space: char -> bool)
    ensures EstimateText(text, space) == Scan(Classes(text, space), 0)
  {
    EstimateIsScan(Classes(text, space));
  }

  lemma CutText(a: string, b: string, space: char -> bool)
    ensures EstimateText(a + b, space) <= EstimateText(a, space) + EstimateText(b, space)
    ensures EstimateText(a, space) + EstimateText(b, space) <= EstimateText(a + b, space) + 1
  {
    assert Classes(a + b, space) == Classes(a, space) + Classes(b, space);
    TextIsScan(a, space);
    TextIsScan(b, space);
    TextIsScan(a + b, space);
    CutAnywhere(Classes(a, space), Classes(b, space), 0);
  }

  /** Splitting a text into k pieces never lowers the summed estimate and raises it by at most k - 1. */
  lemma {:induction false} SplitBound(pieces: seq<string>, space: char -> bool)
    requires pieces != []
    ensures EstimateText(Joined(pieces), space) <= EstimateEach(pieces, space)
    ensures EstimateEach(pieces, space) <= EstimateText(Joined(pieces), space) + |pieces| - 1
  {
    hide EstimateText, Joined;
    JoinedStep(pieces);
    JoinedStep(pieces[1..]);
    if |pieces| == 1 {
      assert pieces[1..] == [];
      assert Joined(pieces) == pieces[0];
    } else {
      SplitBound(pieces[1..], space);
      CutText(pieces[0], Joined(pieces[1..]), space);
    }
  }

  // ------------------------------------------------------------------ estimating payloads

  /** A decoded payload; a number carries the text it prints as, and an object its fields in order. */
  datatype Json = Null | Bool(b: bool) | Number(text: string) | Text(text: string) | List(items: seq<Json>)
                | Object(fields: seq<(string, Json)>)

  const SKIPPED := {"image_url", "url"}

  function EstimateValue(v: Json, space: char -> bool): nat
    decreases v
  {
    match v
    case Null => 0
    case Bool(_) => 0
    case Number(text) => EstimateText(text, space)
    case Text(text) => EstimateText(text, space)
    case List(items) => EstimateItems(items, space)
    case Object(fields) => EstimateFields(fields, space)
  }

  function EstimateItems(items: seq<Json>, space: char -> bool): nat
    decreases items
  {
    if items == [] then 0 else EstimateValue(items[0], space) + EstimateItems(items[1..], space)
  }

  function EstimateFields(fields: seq<(string, Json)>, space: char -> bool): nat
    decreases fields
  {
    if fields == [] then 0
    else
      EstimateField(fields[0], space) + EstimateFields(fields[1..], space)
  }

  function EstimateField(field: (string, Json), space: char -> bool): nat
    decreases field
  {
    if field.0 in SKIPPED then 0 else EstimateText(field.0, space) + EstimateValue(field.1, space)
  }

  /** Every text of a payload, keys and printed numbers included, links left out. */
  function TextsOf(v: Json): seq<string>
    decreases v
  {
    match v
    case Null => []
    case Bool(_) => []
    case Number(text) => [text]
    case Text(text) => [text]
    case List(items) => TextsOfItems(items)
    case Object(fields) => TextsOfFields(fields)
  }

  function TextsOfItems(items: seq<Json>): seq<string>
    decreases items
  {
    if items == [] then [] else TextsOf(items[0]) + TextsOfItems(items[1..])
  }

  function TextsOfFields(fields: seq<(string, Json)>): seq<string>
    decreases fields
  {
    if fields == [] then []
    else TextsOfField(fields[0]) + TextsOfFields(fields[1..])
  }

  function TextsOfField(field: (string, Json)): seq<string>
    decreases field
  {
    if field.0 == "image_url" || field.0 == "url" then [] else [field.0] + TextsOf(field.1)
  }

  /** A payload costs what its texts cost, one by one, however deep they lie. */
  lemma {:induction false} ValueIsTexts(v: Json, space: char -> bool)
    ensures EstimateValue(v, space) == EstimateEach(TextsOf(v), space)
    decreases v
  {
    hide EstimateText;
    match v
    case Null =>
    case Bool(_) =>
    case Number(text) => OneText(text, space);
    case Text(text) => OneText(text, space);
    case List(items) => ItemsAreTexts(items, space);
    case Object(fields) => FieldsAreTexts(fields, space);
  }

  lemma {:induction false} ItemsAreTexts(items: seq<Json>, space: char -> bool)
    ensures EstimateItems(items, space) == EstimateEach(TextsOfItems(items), space)
    decreases items
  {
    hide EstimateText, EstimateValue, TextsOf;
    if items != [] {
      ValueIsTexts(items[0], space);
      ItemsAreTexts(items[1..], space);
      EachAdds(TextsOf(items[0]), TextsOfItems(items[1..]), space);
    }
  }

  lemma {:induction false} FieldsAreTexts(fields: seq<(string, Json)>, space: char -> bool)
    ensures EstimateFields(fields, space) == EstimateEach(TextsOfFields(fields), space)
    decreases fields
  {
    hide EstimateText, EstimateValue, TextsOf, EstimateField, TextsOfField;
    if fields != [] {
      FieldIsTexts(fields[0], space);
      FieldsAreTexts(fields[1..], space);
      EachAdds(TextsOfField(fields[0]), TextsOfFields(fields[1..]), space);
    }
  }

  lemma {:induction false} FieldIsTexts(field: (string, Json), space: char -> bool)
    ensures EstimateField(field, space) == EstimateEach(TextsOfField(field), space)
    decreases field
  {
    hide EstimateText, EstimateValue, TextsOf;
    if field.0 !in SKIPPED {
      ValueIsTexts(field.1, space);
      OneText(field.0, space);
      EachAdds([field.0], TextsOf(field.1), space);
    }
  }

  /** Fields that only carry links are left out of the estimate, whatever they hold. */
  function WithoutLinks(fields: seq<(string, Json)>): (r: seq<(string, Json)>)
    ensures forall f :: f in r <==> f in fields && f.0 !in SKIPPED
  {
    if fields == [] then []
    else
      assert fields == [fields[0]] + fields[1..];
      (if fields[0].0 in SKIPPED then [] else [fields[0]]) + WithoutLinks(fields[1..])
  }

  lemma {:induction false} LinksAreFree(fields: seq<(string, Json)>, space: char -> bool)
    ensures EstimateFields(fields, space) == EstimateFields(WithoutLinks(fields), space)
  {
    if fields != [] {
      LinksAreFree(fields[1..], space);
      var rest := WithoutLinks(fields[1..]);
      if fields[0].0 in SKIPPED {
        assert WithoutLinks(fields) == rest;
      } else {
        assert WithoutLinks(fields) == [fields[0]] + rest;
        assert ([fields[0]] + rest)[1..] == rest;
      }
    }
  }

  /** A field of an object; Null for a field that is missing. */
  function Field(fields: seq<(string, Json)>, key: string): Json {
    if fields == [] then Null else if fields[0].0 == key then fields[0].1 else Field(fields[1..], key)
  }

  function EstimateMessage(message: Json, space: char -> bool): nat {
    if !message.Object? then 0
    else
      EstimateValue(Field(message.fields, "content"), space)
      + EstimateValue(Field(message.fields, "tool_calls"), space)
      + EstimateValue(Field(message.fields, "function_call"), space)
  }

  function EstimateChoice(choice: Json, space: char -> bool): nat {
    if !choice.Object? then 0
    else EstimateMessage(Field(choice.fields, "message"), space) + EstimateMessage(Field(choice.fields, "delta"), space)
  }

  function EstimateChoices(choices: seq<Json>, space: char -> bool): nat {
    if choices == [] then 0
    else EstimateChoices(choices[..|choices| - 1], space) + EstimateChoice(choices[|choices| - 1], space)
  }

  function ChoicesOf(payload: Json): seq<Json> {
    if payload.Object? && Field(payload.fields, "choices").List? then Field(payload.fields, "choices").items else []
  }

  /** The texts that are metered in a message or a delta, in a choice, and in a list of choices. */
  function TextsOfMessage(message: Json): seq<string> {
    if !message.Object? then []
    else
      TextsOf(Field(message.fields, "content")) + TextsOf(Field(message.fields, "tool_calls"))
      + TextsOf(Field(message.fields, "function_call"))
  }

  function TextsOfChoice(choice: Json): seq<string> {
    if !choice.Object? then []
    else TextsOfMessage(Field(choice.fields, "message")) + TextsOfMessage(Field(choice.fields, "delta"))
  }

  function TextsOfChoices(choices: seq<Json>): seq<string> {
    if choices == [] then []
    else TextsOfChoices(choices[..|choices| - 1]) + TextsOfChoice(choices[|choices| - 1])
  }

  lemma MessageIsTexts(message: Json, space: char -> bool)
    ensures EstimateMessage(message, space) == EstimateEach(TextsOfMessage(message), space)
  {
    hide EstimateText, EstimateValue, TextsOf;
    if message.Object? {
      var content, tools, call :=
        Field(message.fields, "content"), Field(message.fields, "tool_calls"), Field(message.fields, "function_call");
      ValueIsTexts(content, space);
      ValueIsTexts(tools, space);
      ValueIsTexts(call, space);
      EachAdds(TextsOf(content), TextsOf(tools), space);
      EachAdds(TextsOf(content) + TextsOf(tools), TextsOf(call), space);
    }
  }

  lemma ChoiceIsTexts(choice: Json, space: char -> bool)
    ensures EstimateChoice(choice, space) == EstimateEach(TextsOfChoice(choice), space)
  {
    hide EstimateText, EstimateMessage, TextsOfMessage;
    if choice.Object? {
      var message, delta := Field(choice.fields, "message"), Field(choice.fields, "delta");
      MessageIsTexts(message, space);
      MessageIsTexts(delta, space);
      EachAdds(TextsOfMessage(message), TextsOfMessage(delta), space);
    }
  }

  /** What a completion costs: each text of its messages and deltas, of their tool calls and function calls, once. */
  lemma {:induction false} ChoicesAreTexts(choices: seq<Json>, space: char -> bool)
    ensures EstimateChoices(choices, space) == EstimateEach(TextsOfChoices(choices), space)
  {
    hide EstimateText, EstimateChoice, TextsOfChoice;
    if choices != [] {
      var init, last := choices[..|choices| - 1], choices[|choices| - 1];
      ChoicesAreTexts(init, space);
      ChoiceIsTexts(last, space);
      EachAdds(TextsOfChoices(init), TextsOfChoice(last), space);
    }
  }

  method EstimateCompletionTokens(payload: Json, space: char -> bool) returns (total: nat)
    ensures total == EstimateChoices(ChoicesOf(payload), space)
  {
    total := 0;
    if !payload.Object? { return; }
    var choices := Field(payload.fields, "choices");
    if !choices.List? { return; }
    for i := 0 to |choices.items|
      invariant total == EstimateChoices(choices.items[..i], space)
    {
      var choice := choices.items[i];
      assert choices.items[..i + 1][..i] == choices.items[..i];
      if !choice.Object? { continue; }
      var message, delta := Field(choice.fields, "message"), Field(choice.fields, "delta");
      if message.Object? {
        total := total + EstimateValue(Field(message.fields, "content"), space);
        total := total + EstimateValue(Field(message.fields, "tool_calls"), space);
        total := total + EstimateValue(Field(message.fields, "function_call"), space);
      }
      if delta.Object? {
        total := total + EstimateValue(Field(delta.fields, "content"), space);
        total := total + EstimateValue(Field(delta.fields, "tool_calls"), space);
        total := total + EstimateValue(Field(delta.fields, "function_call"), space);
      }
    }
    assert choices.items[..|choices.items|] == choices.items;
  }

  // ------------------------------------------------------------------ streams

  /** The text of a message or a delta; a part without one has the empty text. */
  function TextOf(part: Json): string {
    if part.Object? && Field(part.fields, "content").Text? then Field(part.fields, "content").text else ""
  }

  /** What the rest of a message or a delta costs: tool calls, function calls, content that is not text. */
  function OtherTokens(part: Json, space: char -> bool): nat {
    if !part.Object? then 0
    else
      (if Field(part.fields, "content").Text? then 0 else EstimateValue(Field(part.fields, "content"), space))
      + EstimateValue(Field(part.fields, "tool_calls"), space)
      + EstimateValue(Field(part.fields, "function_call"), space)
  }

  /** The texts of a choice; what is no object has none. */
  function PiecesOf(choice: Json): seq<string> {
    if !choice.Object? then [] else [TextOf(Field(choice.fields, "message")), TextOf(Field(choice.fields, "delta"))]
  }

  function OtherOf(choice: Json, space: char -> bool): nat {
    if !choice.Object? then 0
    else OtherTokens(Field(choice.fields, "message"), space) + OtherTokens(Field(choice.fields, "delta"), space)
  }

  /** Which answer a choice belongs to: its index as printed. */
  function LabelOf(choice: Json): string {
    if choice.Object? && Field(choice.fields, "index").Number? then Field(choice.fields, "index").text else ""
  }

  /** All choices of a stream of payloads, in order; a payload without choices adds none. */
  function AllChoices(chunks: seq<Json>): seq<Json> {
    if chunks == [] then [] else ChoicesOf(chunks[0]) + AllChoices(chunks[1..])
  }

  function EstimateChunks(chunks: seq<Json>, space: char -> bool): nat {
    if chunks == [] then 0 else EstimateChoices(ChoicesOf(chunks[0]), space) + EstimateChunks(chunks[1..], space)
  }

  function OtherInAll(choices: seq<Json>, space: char -> bool): nat {
    if choices == [] then 0
    else OtherInAll(choices[..|choices| - 1], space) + OtherOf(choices[|choices| - 1], space)
  }

  /** The texts of one answer, piece by piece. */
  function PiecesFor(choices: seq<Json>, answer: string): seq<string> {
    if choices == [] then []
    else
      var last := choices[|choices| - 1];
      PiecesFor(choices[..|choices| - 1], answer) + if LabelOf(last) == answer then PiecesOf(last) else []
  }

  function NonEmpty(pieces: seq<string>): nat {
    if pieces == [] then 0 else (if pieces[0] == "" then 0 else 1) + NonEmpty(pieces[1..])
  }

  /** How many cuts the pieces make: one less than there are pieces that are not empty. */
  function Cuts(pieces: seq<string>): nat {
    if NonEmpty(pieces) == 0 then 0 else NonEmpty(pieces) - 1
  }

  lemma NothingCostsNothing(space: char -> bool)
    ensures EstimateText("", space) == 0
  {
  }

  /** Empty pieces neither cost nor cut. */
  lemma {:induction false} PiecesBound(pieces: seq<string>, space: char -> bool)
    ensures EstimateText(Joined(pieces), space) <= EstimateEach(pieces, space)
    ensures EstimateEach(pieces, space) <= EstimateText(Joined(pieces), space) + Cuts(pieces)
    ensures NonEmpty(pieces) == 0 ==> Joined(pieces) == ""
  {
    NothingCostsNothing(space);
    hide EstimateText, Joined;
    JoinedStep(pieces);
    if pieces != [] {
      PiecesBound(pieces[1..], space);
      CutText(pieces[0], Joined(pieces[1..]), space);
      assert pieces[0] == "" ==> Joined(pieces) == Joined(pieces[1..]);
      assert Joined(pieces[1..]) == "" ==> Joined(pieces) == pieces[0];
    }
  }

  lemma {:induction false} EachAdds(a: seq<string>, b: seq<string>, space: char -> bool)
    ensures EstimateEach(a + b, space) == EstimateEach(a, space) + EstimateEach(b, space)
  {
    hide EstimateText;
    if a == [] {
      assert a + b == b;
    } else {
      assert (a + b)[1..] == a[1..] + b;
      EachAdds(a[1..], b, space);
    }
  }

  lemma {:induction false} ChoicesAdd(a: seq<Json>, b: seq<Json>, space: char -> bool)
    ensures EstimateChoices(a + b, space) == EstimateChoices(a, space) + EstimateChoices(b, space)
    decreases |b|
  {
    hide EstimateChoice;
    if b == [] {
      assert a + b == a;
    } else {
      assert (a + b)[..|a + b| - 1] == a + b[..|b| - 1];
      ChoicesAdd(a, b[..|b| - 1], space);
    }
  }

  /** Metering chunk by chunk is metering all their choices. */
  lemma {:induction false} ChunksAreChoices(chunks: seq<Json>, space: char -> bool)
    ensures EstimateChunks(chunks, space) == EstimateChoices(AllChoices(chunks), space)
  {
    hide ChoicesOf;
    if chunks != [] {
      ChunksAreChoices(chunks[1..], space);
      ChoicesAdd(ChoicesOf(chunks[0]), AllChoices(chunks[1..]), space);
    }
  }

  /** A choice costs its texts and the rest of it. */
  lemma ChoiceSplits(choice: Json, space: char -> bool)
    ensures EstimateChoice(choice, space) == EstimateEach(PiecesOf(choice), space) + OtherOf(choice, space)
  {
    NothingCostsNothing(space);
    hide EstimateText;
    if choice.Object? {
      var message, delta := Field(choice.fields, "message"), Field(choice.fields, "delta");
      PartSplits(message, space);
      PartSplits(delta, space);
      hide EstimateMessage, OtherTokens, TextOf;
      EachAdds([TextOf(message)], [TextOf(delta)], space);
      OneText(TextOf(message), space);
      OneText(TextOf(delta), space);
      assert PiecesOf(choice) == [TextOf(message)] + [TextOf(delta)];
    }
  }

  lemma OneText(text: string, space: char -> bool)
    ensures EstimateEach([text], space) == EstimateText(text, space)
  {
    hide EstimateText;
    assert [text][1..] == [];
  }

  lemma PartSplits(part: Json, space: char -> bool)
    ensures EstimateMessage(part, space) == EstimateText(TextOf(part), space) + OtherTokens(part, space)
  {
    NothingCostsNothing(space);
    hide EstimateText;
  }

  // ------------------------------------------------------------------ summing per answer

  predicate Distinct(labels: seq<string>) {
    forall i, j :: 0 <= i < j < |labels| ==> labels[i] != labels[j]
  }

  predicate Covers(labels: seq<string>, choices: seq<Json>) {
    forall c :: c in choices ==> LabelOf(c) in labels
  }

  function TextTokens(labels: seq<string>, choices: seq<Json>, space: char -> bool): nat {
    if labels == [] then 0
    else EstimateEach(PiecesFor(choices, labels[0]), space) + TextTokens(labels[1..], choices, space)
  }

  function WholeTokens(labels: seq<string>, choices: seq<Json>, space: char -> bool): nat {
    if labels == [] then 0
    else EstimateText(Joined(PiecesFor(choices, labels[0])), space) + WholeTokens(labels[1..], choices, space)
  }

  /** All cuts in the answers of a stream. */
  function CutsIn(labels: seq<string>, choices: seq<Json>): nat {
    if labels == [] then 0 else Cuts(PiecesFor(choices, labels[0])) + CutsIn(labels[1..], choices)
  }

  /** One more choice adds its texts to the answer it belongs to, and to no other. */
  lemma {:induction false} OneMoreChoice(labels: seq<string>, choices: seq<Json>, space: char -> bool)
    requires choices != [] && Distinct(labels)
    ensures var init, last := choices[..|choices| - 1], choices[|choices| - 1];
            TextTokens(labels, choices, space) == TextTokens(labels, init, space)
              + if LabelOf(last) in labels then EstimateEach(PiecesOf(last), space) else 0
  {
    hide EstimateEach, LabelOf, PiecesOf;
    var init, last := choices[..|choices| - 1], choices[|choices| - 1];
    if labels != [] {
      OneMoreChoice(labels[1..], choices, space);
      EachAdds(PiecesFor(init, labels[0]), if LabelOf(last) == labels[0] then PiecesOf(last) else [], space);
      NoPieces(space);
      assert labels == [labels[0]] + labels[1..];
    }
  }

  lemma NoPieces(space: char -> bool)
    ensures EstimateEach([], space) == 0
  {
  }

  lemma {:induction false} NoChoices(labels: seq<string>, space: char -> bool)
    ensures TextTokens(labels, [], space) == 0
  {
    if labels != [] { NoChoices(labels[1..], space); }
  }

  /** Every choice counts once, under its own answer. */
  lemma {:induction false} SplitByAnswer(labels: seq<string>, choices: seq<Json>, space: char -> bool)
    requires Distinct(labels) && Covers(labels, choices)
    ensures EstimateChoices(choices, space) == TextTokens(labels, choices, space) + OtherInAll(choices, space)
  {
    hide EstimateEach, LabelOf, PiecesOf, TextTokens, EstimateChoice, OtherOf, Distinct;
    if choices == [] {
      NoChoices(labels, space);
    } else {
      var init, last := choices[..|choices| - 1], choices[|choices| - 1];
      SplitByAnswer(labels, init, space);
      OneMoreChoice(labels, choices, space);
      ChoiceSplits(last, space);
      assert last in choices;
    }
  }

  lemma {:induction false} AnswersBound(labels: seq<string>, choices: seq<Json>, space: char -> bool)
    ensures WholeTokens(labels, choices, space) <= TextTokens(labels, choices, space)
    ensures TextTokens(labels, choices, space) <= WholeTokens(labels, choices, space) + CutsIn(labels, choices)
  {
    hide EstimateEach, EstimateText, Cuts, PiecesFor;
    if labels != [] {
      AnswersBound(labels[1..], choices, space);
      PiecesBound(PiecesFor(choices, labels[0]), space);
    }
  }

  /** The payload says each answer whole, in one piece, and they are the answers of the stream. */
  predicate SaysWhole(labels: seq<string>, stream: seq<Json>, whole: seq<Json>) {
    forall l :: l in labels ==>
      Joined(PiecesFor(stream, l)) == Joined(PiecesFor(whole, l)) && NonEmpty(PiecesFor(whole, l)) <= 1
  }

  lemma {:induction false} SameAnswers(labels: seq<string>, stream: seq<Json>, whole: seq<Json>, space: char -> bool)
    requires SaysWhole(labels, stream, whole)
    ensures WholeTokens(labels, stream, space) == WholeTokens(labels, whole, space)
    ensures CutsIn(labels, whole) == 0
  {
    hide EstimateText, PiecesFor, Joined, NonEmpty;
    if labels != [] {
      assert labels == [labels[0]] + labels[1..];
      SameAnswers(labels[1..], stream, whole, space);
    }
  }

  /** Metering any stream of payloads, chunks without choices, without text or with several answers included, gives
      for its text at least what the whole answers give, and at most one token more for every cut within an answer;
      what is not text is metered as it is. */
  lemma StreamingBound(chunks: seq<Json>, whole: Json, labels: seq<string>, space: char -> bool)
    requires Distinct(labels) && Covers(labels, AllChoices(chunks)) && Covers(labels, ChoicesOf(whole))
    requires SaysWhole(labels, AllChoices(chunks), ChoicesOf(whole))
    ensures var stream, choices := AllChoices(chunks), ChoicesOf(whole);
            var metered := EstimateChunks(chunks, space) - OtherInAll(stream, space);
            var text := EstimateChoices(choices, space) - OtherInAll(choices, space);
            text <= metered <= text + CutsIn(labels, stream)
  {
    hide AllChoices, ChoicesOf, EstimateChoices, OtherInAll, TextTokens, WholeTokens, CutsIn, Covers, Distinct,
      SaysWhole;
    var stream, choices := AllChoices(chunks), ChoicesOf(whole);
    ChunksAreChoices(chunks, space);
    SplitByAnswer(labels, stream, space);
    SplitByAnswer(labels, choices, space);
    SameAnswers(labels, stream, choices, space);
    AnswersBound(labels, stream, space);
    AnswersBound(labels, choices, space);
  }

  /** With one answer, cut into k pieces that are not empty, at most k - 1 more. */
  lemma OneAnswerBound(chunks: seq<Json>, whole: Json, answer: string, space: char -> bool)
    requires forall c :: c in AllChoices(chunks) || c in ChoicesOf(whole) ==>
        LabelOf(c) == answer && OtherOf(c, space) == 0
    requires SaysWhole([answer], AllChoices(chunks), ChoicesOf(whole))
    ensures var k := NonEmpty(PiecesFor(AllChoices(chunks), answer));
            var text := EstimateChoices(ChoicesOf(whole), space);
            text <= EstimateChunks(chunks, space) <= text + if k == 0 then 0 else k - 1
  {
    hide AllChoices, ChoicesOf, EstimateChoices, LabelOf, SaysWhole, OtherOf, PiecesFor, NonEmpty;
    StreamingBound(chunks, whole, [answer], space);
    NothingElse(AllChoices(chunks), space);
    NothingElse(ChoicesOf(whole), space);
    OneLabelCuts(answer, AllChoices(chunks));
  }

  lemma OneLabelCuts(answer: string, choices: seq<Json>)
    ensures CutsIn([answer], choices) == Cuts(PiecesFor(choices, answer))
  {
    hide PiecesFor, Cuts;
    assert [answer][1..] == [];
  }

  lemma {:induction false} NothingElse(choices: seq<Json>, space: char -> bool)
    requires forall c :: c in choices ==> OtherOf(c, space) == 0
    ensures OtherInAll(choices, space) == 0
  {
    hide OtherOf;
    if choices != [] { NothingElse(choices[..|choices| - 1], space); }
  }
}
