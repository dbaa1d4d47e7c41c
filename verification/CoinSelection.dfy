/** Coin selection for payouts: smallest coins first until the need is covered. */
module CoinSelection {
  import opened ByteStrings

  /** An unspent output offered for spending, as the query returns it. */
  datatype Coin = Coin(id: nat, amount: nat)

  function Total(coins: seq<Coin>): nat {
    if coins == [] then 0 else Total(coins[..|coins| - 1]) + coins[|coins| - 1].amount
  }

  predicate Ascending(coins: seq<Coin>) {
    forall i, j :: 0 <= i <= j < |coins| ==> coins[i].amount <= coins[j].amount
  }

  lemma TotalExtends(coins: seq<Coin>, k: nat)
    requires k < |coins|
    ensures Total(coins[..k + 1]) == Total(coins[..k]) + coins[k].amount
  {
    assert coins[..k + 1][..k] == coins[..k];
  }

  lemma {:induction false} TotalGrows(coins: seq<Coin>, j: nat, k: nat)
    requires j <= k <= |coins|
    ensures Total(coins[..j]) <= Total(coins[..k])
    decreases k
  {
    if j < k {
      TotalGrows(coins, j, k - 1);
      TotalExtends(coins, k - 1);
    }
  }

  /** `picked` is the shortest prefix of the candidates that covers the need. */
  ghost predicate ShortestCover(coins: seq<Coin>, needed: int, picked: seq<Coin>) {
    && picked <= coins
    && Total(picked) >= needed
    && forall j :: 0 <= j < |picked| ==> Total(coins[..j]) < needed
  }

  /** How many coins are taken when `k` have been taken already. */
  function CoverLength(coins: seq<Coin>, needed: int, k: nat): (n: nat)
    requires k <= |coins|
    ensures k <= n <= |coins|
    decreases |coins| - k
  {
    if k == |coins| || Total(coins[..k]) >= needed then k else CoverLength(coins, needed, k + 1)
  }

  function Cover(coins: seq<Coin>, needed: int): Option<seq<Coin>> {
    if Total(coins) < needed then None else Some(coins[..CoverLength(coins, needed, 0)])
  }

  lemma {:induction false} CoverIsShortest(coins: seq<Coin>, needed: int, k: nat)
    requires k <= |coins| && Total(coins) >= needed
    requires forall j :: 0 <= j < k ==> Total(coins[..j]) < needed
    ensures ShortestCover(coins, needed, coins[..CoverLength(coins, needed, k)])
    decreases |coins| - k
  {
    if k == |coins| {
      assert coins[..k] == coins;
    } else if Total(coins[..k]) < needed {
      CoverIsShortest(coins, needed, k + 1);
    }
  }

  /** `_greedy`: `None` stands for `InsufficientUTXOError`. */
  method Greedy(candidates: seq<Coin>, needed: int) returns (res: Option<seq<Coin>>)
    ensures res.None? <==> Total(candidates) < needed
    ensures res.Some? ==> ShortestCover(candidates, needed, res.value)
    ensures res == Cover(candidates, needed)
  {
    var selected: seq<Coin> := [];
    var total := 0;
    var i := 0;
    while i < |candidates|
      invariant i <= |candidates| && selected == candidates[..i] && total == Total(selected)
      invariant forall j :: 0 <= j < i ==> Total(candidates[..j]) < needed
    {
      if total >= needed {
        break;
      }
      TotalExtends(candidates, i);
      selected := selected + [candidates[i]];
      total := total + candidates[i].amount;
      i := i + 1;
    }
    TotalGrows(candidates, i, |candidates|);
    assert candidates[..|candidates|] == candidates;
    if total < needed {
      return None;
    }
    CoverIsShortest(candidates, needed, 0);
    ShortestCoverIsUnique(candidates, needed, selected, candidates[..CoverLength(candidates, needed, 0)]);
    return Some(selected);
  }

  /** `select`, from the rows of the query on: no candidate at all is an error of its own. */
  method Select(candidates: seq<Coin>, target: nat, feeEstimate: int) returns (res: Option<seq<Coin>>)
    ensures res.None? <==> candidates == [] || Total(candidates) < target + feeEstimate
    ensures res.Some? ==> ShortestCover(candidates, target + feeEstimate, res.value)
    ensures res.Some? ==> res == Cover(candidates, target + feeEstimate)
  {
    var needed := target + feeEstimate;
    if candidates == [] {
      return None;
    }
    res := Greedy(candidates, needed);
  }

  /** The contract determines the result. */
  lemma ShortestCoverIsUnique(coins: seq<Coin>, needed: int, a: seq<Coin>, b: seq<Coin>)
    requires ShortestCover(coins, needed, a) && ShortestCover(coins, needed, b)
    ensures a == b
  {
    assert a == coins[..|a|] && b == coins[..|b|];
  }

  /** The position of the first candidate that is held, or the number of candidates. */
  function FirstHeld(coins: seq<Coin>, held: iset<nat>): (i: nat)
    ensures i <= |coins| && (i < |coins| ==> coins[i].id in held)
    ensures forall j :: 0 <= j < i ==> coins[j].id !in held
  {
    if coins == [] then 0
    else if coins[0].id in held then 0
    else
      var i := FirstHeld(coins[1..], held);
      assert forall j :: 0 < j < i + 1 ==> coins[j] == coins[1..][j - 1];
      i + 1
  }

  /** A selection contains a held coin exactly when one is offered and the free coins before it fall short. */
  lemma HeldCoinPicked(coins: seq<Coin>, needed: int, picked: seq<Coin>, held: iset<nat>)
    requires ShortestCover(coins, needed, picked)
    ensures
      var i := FirstHeld(coins, held);
      (exists j :: 0 <= j < |picked| && picked[j].id in held) <==> i < |coins| && Total(coins[..i]) < needed
  {
    var i, n := FirstHeld(coins, held), |picked|;
    assert picked == coins[..n];
    if n <= i {
      TotalGrows(coins, n, i);
    } else {
      assert picked[i] == coins[i];
    }
  }

  // ---------------------------------------------------------------------------
  // Against every other choice of coins
  // ---------------------------------------------------------------------------

  /** The sum of the coins that a choice marks, and their number. */
  function Chosen(coins: seq<Coin>, choice: seq<bool>): nat
    requires |choice| == |coins|
  {
    if coins == [] then 0 else
    var n := |coins| - 1;
    Chosen(coins[..n], choice[..n]) + if choice[n] then coins[n].amount else 0
  }

  function Count(choice: seq<bool>): nat {
    if choice == [] then 0 else
    var n := |choice| - 1;
    Count(choice[..n]) + if choice[n] then 1 else 0
  }

  /** A covering choice from which no coin can be left out. */
  ghost predicate Irredundant(coins: seq<Coin>, choice: seq<bool>, needed: int)
    requires |choice| == |coins|
  {
    && Chosen(coins, choice) >= needed
    && forall i :: 0 <= i < |coins| && choice[i] ==> Chosen(coins, choice[i := false]) < needed
  }

  lemma {:induction false} ChosenAtMostTotal(coins: seq<Coin>, choice: seq<bool>, m: nat)
    requires |choice| == |coins| && m <= |coins|
    requires forall i :: m <= i < |coins| ==> !choice[i]
    ensures Chosen(coins, choice) <= Total(coins[..m])
    decreases |coins|
  {
    if coins == [] {
    } else {
      var n := |coins| - 1;
      if m == |coins| {
        ChosenAtMostTotal(coins[..n], choice[..n], n);
        assert coins[..n][..n] == coins[..n];
        TotalExtends(coins, n);
      } else {
        ChosenAtMostTotal(coins[..n], choice[..n], m);
        assert coins[..n][..m] == coins[..m];
      }
    }
  }

  lemma {:induction false} EverythingChosen(coins: seq<Coin>)
    ensures Chosen(coins, seq(|coins|, _ => true)) == Total(coins)
  {
    if coins != [] {
      var n := |coins| - 1;
      EverythingChosen(coins[..n]);
      assert seq(|coins|, _ => true)[..n] == seq(n, _ => true);
    }
  }

  /** Of the ascending coins, no `k` weigh less than the first `k`. */
  lemma {:induction false} FirstAreLightest(coins: seq<Coin>, choice: seq<bool>, k: nat)
    requires |choice| == |coins| && Ascending(coins) && k <= Count(choice)
    ensures k <= |coins| && Total(coins[..k]) <= Chosen(coins, choice)
    decreases |coins|
  {
    if coins != [] && k != 0 {
      var n := |coins| - 1;
      if choice[n] {
        FirstAreLightest(coins[..n], choice[..n], k - 1);
        assert coins[..n][..k - 1] == coins[..k - 1];
        TotalExtends(coins, k - 1);
      } else {
        FirstAreLightest(coins[..n], choice[..n], k);
        assert coins[..n][..k] == coins[..k];
      }
    } else {
      assert coins[..0] == [];
    }
  }

  lemma {:induction false} LeaveOut(coins: seq<Coin>, choice: seq<bool>, i: nat)
    requires |choice| == |coins| && i < |coins| && choice[i]
    ensures Chosen(coins, choice[i := false]) == Chosen(coins, choice) - coins[i].amount
    ensures Count(choice[i := false]) == Count(choice) - 1
    decreases |coins|
  {
    var n := |coins| - 1;
    if i < n {
      LeaveOut(coins[..n], choice[..n], i);
      assert choice[i := false][..n] == choice[..n][i := false];
    } else {
      assert choice[i := false][..n] == choice[..n];
    }
  }

  lemma {:induction false} SomethingCounted(choice: seq<bool>)
    requires Count(choice) > 0
    ensures exists i :: 0 <= i < |choice| && choice[i]
  {
    var n := |choice| - 1;
    if !choice[n] {
      SomethingCounted(choice[..n]);
      var i :| 0 <= i < n && choice[..n][i];
      assert choice[i];
    }
  }

  /** Selection fails exactly when no choice of coins covers the need. */
  lemma SelectionComplete(coins: seq<Coin>, needed: int)
    ensures Total(coins) < needed <==>
            forall choice: seq<bool> | |choice| == |coins| :: Chosen(coins, choice) < needed
  {
    forall choice: seq<bool> | |choice| == |coins| ensures Chosen(coins, choice) <= Total(coins) {
      ChosenAtMostTotal(coins, choice, |coins|);
      assert coins[..|coins|] == coins;
    }
    EverythingChosen(coins);
    assert |seq(|coins|, _ => true)| == |coins|;
  }

  /** Every covering choice contains a coin at least as large as the largest one selected. */
  lemma SelectionMinimax(coins: seq<Coin>, needed: int, picked: seq<Coin>, choice: seq<bool>)
    requires Ascending(coins) && ShortestCover(coins, needed, picked) && picked != []
    requires |choice| == |coins| && Chosen(coins, choice) >= needed
    ensures exists i :: 0 <= i < |coins| && choice[i]
                        && forall j :: 0 <= j < |picked| ==> picked[j].amount <= coins[i].amount
  {
    var k := |picked|;
    if forall i :: k - 1 <= i < |coins| ==> !choice[i] {
      ChosenAtMostTotal(coins, choice, k - 1);
      assert false;
    }
    var i :| k - 1 <= i < |coins| && choice[i];
    assert forall j :: 0 <= j < k ==> picked[j] == coins[j];
  }

  /** No covering choice without superfluous coins has more coins than were selected. */
  lemma SelectionConsolidates(coins: seq<Coin>, needed: int, picked: seq<Coin>, choice: seq<bool>)
    requires Ascending(coins) && ShortestCover(coins, needed, picked)
    requires |choice| == |coins| && Irredundant(coins, choice, needed)
    ensures Count(choice) <= |picked|
  {
    assert picked == coins[..|picked|];
    if Count(choice) > |picked| {
      SomethingCounted(choice);
      var i :| 0 <= i < |choice| && choice[i];
      LeaveOut(coins, choice, i);
      FirstAreLightest(coins, choice[i := false], |picked|);
      assert false;
    }
  }
}
