/**
 Coinbase payouts.  A coinbase that passes the check made when a job is prepared also passes the
 funding check made when its winner is recovered, and neither check overflows.
 */
module Payout {
  import opened Common

  const I64_MIN: int := -0x8000_0000_0000_0000
  const I64_MAX: int := 0x7FFF_FFFF_FFFF_FFFF
  const COIN: int := 100_000_000
  const MAX_MONEY: int := I64_MAX / 2
  const MAX_WCASH_COINBASE_VALUE: int := 21_000_000 * COIN
  const FUND_NUMERATOR: nat := 3
  const FUND_DENOMINATOR: nat := 10

  type Amount = n: int | 0 <= n <= MAX_MONEY
  type i64 = n: int | I64_MIN <= n <= I64_MAX

  function CheckedAdd(a: int, b: int): Result<int> {
    if I64_MIN <= a + b <= I64_MAX then Ok(a + b) else Err
  }

  datatype Output = Output(value: Amount, script: string)

  /** One private action, as the incoming viewing key opens it. */
  datatype Action = Opened(recipient: string, value: u64) | Unopened

  /** A bundle has at least one action. */
  type Actions = a: seq<Action> | a != [] witness [Unopened]

  /** Without a bundle the balance is zero. */
  datatype Bundle = NoBundle | Bundle(actions: Actions, balance: i64, privateFromZeroKey: bool)

  datatype Coinbase = Coinbase(outputs: seq<Output>, sapling: bool, orchard: bool, ironwood: Bundle)

  datatype Block = Block(coinbase: Option<Coinbase>, isCoinbase: bool, height: Option<u32>, transactions: nat)

  /** The consensus parameters of one network at one height. */
  datatype Rules = Rules(gross: Result<Amount>, fundActive: bool, fundScript: string)

  datatype Payee = Transparent(script: string) | Private(recipient: string) | Unsupported

  predicate HasActions(c: Coinbase) { c.ironwood.Bundle? && c.ironwood.actions != [] }

  function Balance(c: Coinbase): i64 { if c.ironwood.Bundle? then c.ironwood.balance else 0 }

  /** The mandatory allocation: thirty percent of the gross subsidy, rounded down, while it is active. */
  function Fund(rules: Rules, gross: Amount): (fund: Amount)
    ensures fund <= gross
    ensures if rules.fundActive then 10 * fund <= 3 * gross < 10 * fund + 10 else fund == 0
  {
    if rules.fundActive then gross * FUND_NUMERATOR / FUND_DENOMINATOR else 0
  }

  function Position(outputs: seq<Output>, required: Output): (p: Option<nat>)
    ensures p.Some? ==> p.value < |outputs| && outputs[p.value] == required && required !in outputs[..p.value]
    ensures p.None? ==> required !in outputs
  {
    if outputs == [] then None
    else if outputs[0] == required then Some(0)
    else
      match Position(outputs[1..], required)
      case None => None
      case Some(i) => Some(i + 1)
  }

  /** Where the mandatory output is; an error when it is due and missing. */
  function FundIndex(rules: Rules, gross: Amount, outputs: seq<Output>): (r: Result<Option<nat>>)
    ensures r == Ok(None) <==> !rules.fundActive
    ensures r.Err? <==> rules.fundActive && Output(Fund(rules, gross), rules.fundScript) !in outputs
    ensures r.Ok? && r.value.Some? ==>
              var i, required := r.value.value, Output(Fund(rules, gross), rules.fundScript);
              i < |outputs| && outputs[i] == required && required !in outputs[..i]
    ensures r == Ok(None) ==> Fund(rules, gross) == 0
  {
    if !rules.fundActive then Ok(None)
    else
      match Position(outputs, Output(Fund(rules, gross), rules.fundScript))
      case None => Err
      case Some(i) => Ok(Some(i))
  }

  /** All outputs except the mandatory one. */
  function MinerOutputs(outputs: seq<Output>, fund: Option<nat>): seq<Output>
    requires fund.Some? ==> fund.value < |outputs|
  {
    if fund.None? then outputs else outputs[..fund.value] + outputs[fund.value + 1..]
  }

  /** A sum with 64-bit overflow checks at every step, as a fold computes it. */
  function CheckedSum(outputs: seq<Output>): Result<int> {
    if outputs == [] then Ok(0)
    else
      var before :- CheckedSum(outputs[..|outputs| - 1]);
      CheckedAdd(before, outputs[|outputs| - 1].value)
  }

  function Total(outputs: seq<Output>): nat {
    if outputs == [] then 0 else Total(outputs[..|outputs| - 1]) + outputs[|outputs| - 1].value
  }

  /* ----- the check at preparation ----- */

  function TransparentPayout(c: Coinbase, script: string, advertised: i64, fund: Option<nat>): Result<nat>
    requires fund.Some? ==> fund.value < |c.outputs|
  {
    var miner := MinerOutputs(c.outputs, fund);
    if miner == [] || c.sapling || c.orchard || c.ironwood.Bundle? then Err
    else if exists i :: 0 <= i < |miner| && miner[i].script != script then Err
    else
      var actual :- CheckedSum(miner);
      if actual != advertised || actual < 0 then Err else Ok(actual)
  }

  /** The value that a list of actions pays to one receiver; any other action is an error. */
  function Attributed(actions: seq<Action>, recipient: string): Result<nat> {
    if actions == [] then Ok(0)
    else
      var before :- Attributed(actions[..|actions| - 1], recipient);
      match actions[|actions| - 1]
      case Unopened => Err
      case Opened(to, value) => if to != recipient || before + value > U64_MAX then Err else Ok(before + value)
  }

  method AttributedValue(actions: seq<Action>, recipient: string) returns (r: Result<nat>)
    ensures r == Attributed(actions, recipient)
  {
    var attributed: nat := 0;
    for i := 0 to |actions|
      invariant Attributed(actions[..i], recipient) == Ok(attributed)
    {
      assert actions[..i + 1][..i] == actions[..i];
      if actions[i].Unopened? || actions[i].recipient != recipient || attributed + actions[i].value > U64_MAX {
        AttributedFails(actions, i + 1, recipient);
        return Err;
      }
      attributed := attributed + actions[i].value;
    }
    assert actions[..|actions|] == actions;
    return Ok(attributed);
  }

  lemma {:induction false} AttributedFails(actions: seq<Action>, n: nat, recipient: string)
    requires n <= |actions| && Attributed(actions[..n], recipient).Err?
    ensures Attributed(actions, recipient).Err?
    decreases |actions| - n
  {
    if n == |actions| {
      assert actions[..n] == actions;
    } else {
      assert actions[..n + 1][..n] == actions[..n];
      AttributedFails(actions, n + 1, recipient);
    }
  }

  function PrivatePayout(c: Coinbase, recipient: string, advertised: i64, fund: Option<nat>): Result<nat> {
    if |c.outputs| != (if fund.Some? then 1 else 0) || c.sapling || c.orchard || !HasActions(c) then Err
    else if Balance(c) == I64_MIN then Err
    else
      var actual := -Balance(c);
      if actual != advertised || !c.ironwood.privateFromZeroKey || actual < 0 then Err
      else
        var attributed :- Attributed(c.ironwood.actions, recipient);
        if attributed != actual then Err else Ok(attributed)
  }

  function ValidateCandidatePayout(b: Block, payee: Payee, rules: Rules, advertised: i64, height: u32): Result<nat> {
    if advertised < 0 || b.coinbase.None? || !b.isCoinbase then Err
    else
      var c := b.coinbase.value;
      var gross :- rules.gross;
      if b.height != Some(height) then Err
      else
        var index :- FundIndex(rules, gross, c.outputs);
        var fund := Fund(rules, gross);
        var total :- CheckedAdd(advertised, fund);
        if total > MAX_WCASH_COINBASE_VALUE || advertised < gross - fund then Err
        else if advertised == 0 && b.transactions != 1 then Err
        else
          match payee
          case Transparent(script) => TransparentPayout(c, script, advertised, index)
          case Private(recipient) => PrivatePayout(c, recipient, advertised, index)
          case Unsupported => Err
  }

  /* ----- the check at recovery ----- */

  /** The total coinbase value that a recovered winner claims. */
  function RecoveredTotal(c: Coinbase): Result<int> {
    var transparent :- CheckedSum(c.outputs);
    if I64_MIN <= transparent - Balance(c) <= I64_MAX then Ok(transparent - Balance(c)) else Err
  }

  predicate RecoveredFundingValid(b: Block, rules: Rules) {
    && b.height.Some?
    && (b.height == Some(0) ||
        (&& b.coinbase.Some?
         && rules.gross.Ok?
         && var c, gross := b.coinbase.value, rules.gross.value;
            var index := FundIndex(rules, gross, c.outputs);
            && index.Ok?
            && var hasMiner := |c.outputs| > if index.value.Some? then 1 else 0;
               && !c.sapling && !c.orchard && hasMiner != HasActions(c)
               && RecoveredTotal(c).Ok?
               && gross <= RecoveredTotal(c).value <= MAX_WCASH_COINBASE_VALUE
               && (HasActions(c) ==> Balance(c) <= 0 && c.ironwood.privateFromZeroKey)))
  }

  /* ----- preparation implies recovery ----- */

  lemma {:induction false} TotalAppend(a: seq<Output>, b: seq<Output>)
    ensures Total(a + b) == Total(a) + Total(b)
  {
    if b == [] {
      assert a + b == a;
    } else {
      var n := |b| - 1;
      assert (a + b)[..|a + b| - 1] == a + b[..n] && (a + b)[|a + b| - 1] == b[n];
      TotalAppend(a, b[..n]);
    }
  }

  /** The mandatory output and the miner's outputs make up the whole. */
  lemma {:induction false} TotalSplits(outputs: seq<Output>, fund: Option<nat>)
    requires fund.Some? ==> fund.value < |outputs|
    ensures Total(outputs) == Total(MinerOutputs(outputs, fund)) + if fund.Some? then outputs[fund.value].value else 0
  {
    if fund.Some? {
      var i := fund.value;
      assert outputs == outputs[..i] + ([outputs[i]] + outputs[i + 1..]);
      TotalAppend(outputs[..i], [outputs[i]] + outputs[i + 1..]);
      TotalAppend([outputs[i]], outputs[i + 1..]);
      assert [outputs[i]][..0] == [];
      TotalAppend(outputs[..i], outputs[i + 1..]);
    }
  }

  /** Amounts are not negative, so a checked sum overflows exactly when the whole does not fit. */
  lemma {:induction false} CheckedSumIsTotal(outputs: seq<Output>)
    ensures CheckedSum(outputs) == if Total(outputs) <= I64_MAX then Ok(Total(outputs)) else Err
  {
    if outputs == [] {
    } else {
      CheckedSumIsTotal(outputs[..|outputs| - 1]);
    }
  }

  lemma {:induction false} OneOutput(outputs: seq<Output>)
    requires |outputs| == 1
    ensures Total(outputs) == outputs[0].value
  {
    assert outputs[..0] == [];
  }

  lemma {:induction false} TransparentTotal(c: Coinbase, script: string, advertised: i64, rules: Rules, gross: Amount)
    requires FundIndex(rules, gross, c.outputs).Ok?
    requires TransparentPayout(c, script, advertised, FundIndex(rules, gross, c.outputs).value).Ok?
    ensures Total(c.outputs) == advertised + Fund(rules, gross) && Balance(c) == 0
  {
    var index := FundIndex(rules, gross, c.outputs).value;
    CheckedSumIsTotal(MinerOutputs(c.outputs, index));
    TotalSplits(c.outputs, index);
  }

  lemma {:induction false} PrivateTotal(c: Coinbase, recipient: string, advertised: i64, rules: Rules, gross: Amount)
    requires FundIndex(rules, gross, c.outputs).Ok?
    requires PrivatePayout(c, recipient, advertised, FundIndex(rules, gross, c.outputs).value).Ok?
    ensures Total(c.outputs) == Fund(rules, gross) && Balance(c) == -advertised
  {
    var index := FundIndex(rules, gross, c.outputs).value;
    if index.Some? { OneOutput(c.outputs); }
  }

  /**
   Prepare implies recover.  Every coinbase that the preparation check accepts, transparent or private, is
   accepted by the recovered-winner check on the same network and height.  No 64-bit sum overflows, and the
   recovered total is the advertised value plus the mandatory allocation.
   */
  lemma {:induction false} PrepareImpliesRecover(b: Block, payee: Payee, rules: Rules, advertised: i64, height: u32)
    requires ValidateCandidatePayout(b, payee, rules, advertised, height).Ok?
    ensures RecoveredFundingValid(b, rules)
    ensures b.coinbase.Some? && rules.gross.Ok?
    ensures RecoveredTotal(b.coinbase.value) == Ok(advertised + Fund(rules, rules.gross.value))
  {
    var c, gross := b.coinbase.value, rules.gross.value;
    var index := FundIndex(rules, gross, c.outputs).value;
    CheckedSumIsTotal(c.outputs);
    match payee
    case Transparent(script) =>
      TransparentTotal(c, script, advertised, rules, gross);
      MinerCount(c.outputs, index);
    case Private(recipient) => PrivateTotal(c, recipient, advertised, rules, gross);
  }

  lemma {:induction false} MinerCount(outputs: seq<Output>, fund: Option<nat>)
    requires fund.Some? ==> fund.value < |outputs|
    ensures |MinerOutputs(outputs, fund)| == |outputs| - if fund.Some? then 1 else 0
  {
  }

  /** What a recovered coinbase must satisfy, in plain unbounded numbers. */
  predicate Funded(c: Coinbase, rules: Rules, gross: Amount) {
    && (rules.fundActive ==> Output(3 * gross / 10, rules.fundScript) in c.outputs)
    && !c.sapling && !c.orchard
    && (c.ironwood.NoBundle? <==> |c.outputs| > if rules.fundActive then 1 else 0)
    && gross <= Total(c.outputs) - Balance(c) <= 2_100_000_000_000_000
    && (c.ironwood.Bundle? ==> c.ironwood.balance <= 0 && c.ironwood.privateFromZeroKey)
  }

  /**
   The recovery check in one line: above height zero it accepts exactly the coinbases that hold the mandatory
   output when it is due, pay in one mode, claim between the gross subsidy and the maximum, and keep a private
   payout private.  No overflow check inside it ever decides.
   */
  lemma {:induction false} RecoveredIffFunded(b: Block, rules: Rules)
    ensures RecoveredFundingValid(b, rules) <==>
            b.height.Some? && (b.height.value > 0 ==>
              b.coinbase.Some? && rules.gross.Ok? && Funded(b.coinbase.value, rules, rules.gross.value))
  {
    if b.coinbase.Some? { CheckedSumIsTotal(b.coinbase.value.outputs); }
  }

  /** What a payee receives: the value of the outputs or actions that are theirs alone. */
  predicate PaysOnly(c: Coinbase, payee: Payee, fund: Option<nat>, value: nat)
    requires fund.Some? ==> fund.value < |c.outputs|
  {
    match payee
    case Transparent(script) =>
      Total(MinerOutputs(c.outputs, fund)) == value
      && forall i :: 0 <= i < |MinerOutputs(c.outputs, fund)| ==> MinerOutputs(c.outputs, fund)[i].script == script
    case Private(recipient) =>
      HasActions(c) && ActionTotal(c.ironwood.actions) == value && AllOpenedTo(c.ironwood.actions, recipient)
    case Unsupported => false
  }

  function ActionTotal(actions: seq<Action>): nat {
    if actions == [] then 0
    else
      ActionTotal(actions[..|actions| - 1])
      + match actions[|actions| - 1] case Opened(_, value) => value case Unopened => 0
  }

  predicate AllOpenedTo(actions: seq<Action>, recipient: string) {
    forall i :: 0 <= i < |actions| ==> actions[i].Opened? && actions[i].recipient == recipient
  }

  lemma {:induction false} OpenedToLast(actions: seq<Action>, recipient: string)
    requires actions != []
    ensures var n := |actions| - 1;
            AllOpenedTo(actions, recipient) <==>
            AllOpenedTo(actions[..n], recipient) && actions[n].Opened? && actions[n].recipient == recipient
  {
    var n := |actions| - 1;
    if AllOpenedTo(actions, recipient) {
      forall i | 0 <= i < n ensures actions[..n][i].Opened? && actions[..n][i].recipient == recipient {
        assert actions[..n][i] == actions[i];
      }
    } else if actions[n].Opened? && actions[n].recipient == recipient {
      var i :| 0 <= i < |actions| && !(actions[i].Opened? && actions[i].recipient == recipient);
      assert actions[..n][i] == actions[i];
    }
  }

  /** The loop over private actions succeeds exactly when each opens to the receiver and the sum fits 64 bits. */
  lemma {:induction false} AttributedIsTotal(actions: seq<Action>, recipient: string)
    ensures Attributed(actions, recipient)
         == if AllOpenedTo(actions, recipient) && ActionTotal(actions) <= U64_MAX then Ok(ActionTotal(actions)) else Err
  {
    if actions == [] {
    } else {
      var n := |actions| - 1;
      AttributedIsTotal(actions[..n], recipient);
      OpenedToLast(actions, recipient);
    }
  }

  /** A prepared coinbase pays the whole advertised value to the payee, and nothing to anyone else but the fund. */
  lemma {:induction false} PreparedPaysPayee(b: Block, payee: Payee, rules: Rules, advertised: i64, height: u32)
    requires ValidateCandidatePayout(b, payee, rules, advertised, height).Ok?
    ensures ValidateCandidatePayout(b, payee, rules, advertised, height).value == advertised
    ensures b.coinbase.Some? && rules.gross.Ok? && FundIndex(rules, rules.gross.value, b.coinbase.value.outputs).Ok?
    ensures PaysOnly(b.coinbase.value, payee, FundIndex(rules, rules.gross.value, b.coinbase.value.outputs).value,
                     advertised)
  {
    var c, gross := b.coinbase.value, rules.gross.value;
    var index := FundIndex(rules, gross, c.outputs).value;
    match payee
    case Transparent(script) => CheckedSumIsTotal(MinerOutputs(c.outputs, index));
    case Private(recipient) => AttributedIsTotal(c.ironwood.actions, recipient);
  }

  /** The form of a payout beside its value: one mode only, and a private one really private and balanced. */
  predicate PayoutForm(c: Coinbase, payee: Payee, fund: Option<nat>, advertised: i64)
    requires fund.Some? ==> fund.value < |c.outputs|
  {
    && !c.sapling && !c.orchard
    && match payee
       case Transparent(_) => c.ironwood.NoBundle? && MinerOutputs(c.outputs, fund) != []
       case Private(_) =>
         HasActions(c) && |c.outputs| == (if fund.Some? then 1 else 0) && Balance(c) + advertised == 0
         && c.ironwood.privateFromZeroKey
       case Unsupported => false
  }

  /** What a candidate must satisfy whoever is paid, in plain unbounded numbers. */
  predicate Fundable(b: Block, rules: Rules, advertised: i64, height: u32) {
    && advertised >= 0 && b.coinbase.Some? && b.isCoinbase && b.height == Some(height) && rules.gross.Ok?
    && FundIndex(rules, rules.gross.value, b.coinbase.value.outputs).Ok?
    && rules.gross.value - Fund(rules, rules.gross.value) <= advertised
    && advertised + Fund(rules, rules.gross.value) <= MAX_WCASH_COINBASE_VALUE
    && (advertised == 0 ==> b.transactions == 1)
  }

  /**
   The preparation check in one line: it accepts exactly the fundable candidates that pay the advertised value
   to the payee alone, in one mode.  No overflow check inside it ever decides.
   */
  lemma {:induction false} AcceptedIffPaysPayee(b: Block, payee: Payee, rules: Rules, advertised: i64, height: u32)
    ensures ValidateCandidatePayout(b, payee, rules, advertised, height).Ok? <==>
            && Fundable(b, rules, advertised, height)
            && var index := FundIndex(rules, rules.gross.value, b.coinbase.value.outputs).value;
               PayoutForm(b.coinbase.value, payee, index, advertised)
               && PaysOnly(b.coinbase.value, payee, index, advertised)
  {
    if Fundable(b, rules, advertised, height) {
      var c := b.coinbase.value;
      var index := FundIndex(rules, rules.gross.value, c.outputs).value;
      CheckedSumIsTotal(MinerOutputs(c.outputs, index));
      if payee.Private? && HasActions(c) { AttributedIsTotal(c.ironwood.actions, payee.recipient); }
    }
  }
}
