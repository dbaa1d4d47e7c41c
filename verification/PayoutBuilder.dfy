/** The amounts of a payout transaction: fee, change and dust, in satoshis. */
module PayoutBuilder {
  import opened CoinSelection

  /** Ten bytes, 148 for each input and 34 for each output. */
  function Size(inputs: nat, outputs: nat): nat {
    10 + 148 * inputs + 34 * outputs
  }

  /** The fee that selection provides for: ten inputs and two outputs. */
  function RoughFee(rate: int): int {
    Size(10, 2) * rate
  }

  /** `fee_rate_sat_vbyte or settings.payout_fee_rate_sat_vbyte`. */
  function EffectiveRate(rate: int, default: int): int {
    if rate == 0 then default else rate
  }

  datatype Amounts =
    | InsufficientFunds
    | BalanceMismatch
    | Amounts(fee: int, out: int, change: int, outputs: nat)

  /** What the builder promises about its three outcomes; `total` is the sum of the inputs. */
  ghost predicate Builds(total: int, inputs: nat, amount: int, rate: int, dust: int, a: Amounts) {
    var left := total - amount - Size(inputs, 2) * rate;
    match a
    case InsufficientFunds => left < 0
    case BalanceMismatch => 0 <= left < dust && left < -34 * rate
    case Amounts(fee, out, change, outputs) =>
      && 0 <= left
      && out == amount
      && total == out + fee + change
      && (change == 0 || change >= dust)
      && outputs == (if left < dust then 1 else 2)
      && Size(inputs, outputs) * rate <= fee
      && (if outputs == 2 then fee == Size(inputs, 2) * rate else change == 0)
  }

  /** The outcome as a function, for the description of the payout pipeline. */
  function Built(total: int, inputs: nat, amount: int, rate: int, dust: int): (a: Amounts)
    ensures Builds(total, inputs, amount, rate, dust, a)
  {
    var fee := Size(inputs, 2) * rate;
    var left := total - amount - fee;
    assert Size(inputs, 1) * rate == fee - 34 * rate;
    if left < 0 then InsufficientFunds
    else if left >= dust then Amounts(fee, amount, left, 2)
    else if left < -34 * rate then BalanceMismatch
    else Amounts(fee + left, amount, 0, 1)
  }

  method BuildAmounts(utxos: seq<Coin>, amount: int, rate: int, dust: int) returns (a: Amounts)
    ensures Builds(Total(utxos), |utxos|, amount, rate, dust, a)
  {
    var total := 0;
    for i := 0 to |utxos|
      invariant total == Total(utxos[..i])
    {
      TotalExtends(utxos, i);
      total := total + utxos[i].amount;
    }
    assert utxos[..|utxos|] == utxos;
    var estimatedSize := 10 + 148 * |utxos| + 34 * 2;
    var fee := estimatedSize * rate;
    var change := total - amount - fee;
    if change < 0 {
      return InsufficientFunds;
    }
    var outputs := 2;
    if change < dust {
      fee := fee + change;
      change := 0;
      outputs := 1;
      estimatedSize := 10 + 148 * |utxos| + 34 * 1;
      assert estimatedSize * rate == Size(|utxos|, 2) * rate - 34 * rate;
      fee := if fee >= estimatedSize * rate then fee else estimatedSize * rate;
    }
    var out := amount;
    var expectedTotal := out + fee + change;
    if expectedTotal != total {
      return BalanceMismatch;
    }
    return Amounts(fee, out, change, outputs);
  }

  /** For a non-negative rate the balance equation never fails, money is conserved, and the fee is
      between the rate times the actual size and the rate times the larger size plus the dust. */
  lemma NonNegativeRate(total: int, inputs: nat, amount: int, rate: nat, dust: nat, a: Amounts)
    requires Builds(total, inputs, amount, rate, dust, a)
    ensures !a.BalanceMismatch?
    ensures a.InsufficientFunds? <==> total < amount + Size(inputs, 2) * rate
    ensures a.Amounts? ==>
              && a.out == amount && a.out + a.fee + a.change == total
              && (a.change == 0 || a.change >= dust)
              && Size(inputs, a.outputs) * rate <= a.fee
              && a.fee <= Size(inputs, 2) * rate + (if dust == 0 then 0 else dust - 1)
  {
  }

  /** The outcome is a function of the inputs. */
  lemma BuildsOneOutcome(total: int, inputs: nat, amount: int, rate: int, dust: int, a: Amounts, b: Amounts)
    requires Builds(total, inputs, amount, rate, dust, a) && Builds(total, inputs, amount, rate, dust, b)
    ensures a == b
  {
    assert Size(inputs, 1) * rate == Size(inputs, 2) * rate - 34 * rate;
  }

  lemma MulMonotone(a: nat, b: nat, rate: nat)
    requires a <= b
    ensures a * rate <= b * rate
  {
  }

  /** Selection and building compose: a selection of at most ten coins is always sufficient. In
      general it is sufficient exactly when it pays for its own size. */
  lemma SelectionSuffices(coins: seq<Coin>, picked: seq<Coin>, amount: nat, rate: nat, default: nat, dust: nat,
                          a: Amounts)
    requires ShortestCover(coins, amount + RoughFee(rate), picked)
    requires Builds(Total(picked), |picked|, amount, EffectiveRate(rate, default), dust, a)
    ensures rate > 0 && |picked| <= 10 ==> a.Amounts?
    ensures a.Amounts? <==> Total(picked) >= amount + Size(|picked|, 2) * EffectiveRate(rate, default)
  {
    hide Builds;
    NonNegativeRate(Total(picked), |picked|, amount, EffectiveRate(rate, default), dust, a);
    if |picked| <= 10 {
      MulMonotone(Size(|picked|, 2), Size(10, 2), rate);
    }
  }

  /** Eleven coins can be selected and yet not pay for their own size. */
  lemma ElevenCoinsMayNotSuffice() returns (coins: seq<Coin>, amount: nat, rate: nat)
    ensures rate > 0 && Ascending(coins) && |coins| == 11
    ensures ShortestCover(coins, amount + RoughFee(rate), coins)
    ensures forall dust: nat :: Builds(Total(coins), 11, amount, rate, dust, InsufficientFunds)
  {
    amount, rate := 10_000, 1;
    var c := Coin(0, 1051);
    coins := seq(11, _ => c);
    EqualCoins(coins, c);
    forall j | 0 <= j < |coins| ensures Total(coins[..j]) < amount + RoughFee(rate) {
      EqualCoins(coins[..j], c);
    }
  }

  lemma {:induction false} EqualCoins(coins: seq<Coin>, c: Coin)
    requires forall i :: 0 <= i < |coins| ==> coins[i] == c
    ensures Total(coins) == |coins| * c.amount
  {
    if coins != [] {
      EqualCoins(coins[..|coins| - 1], c);
    }
  }
}
