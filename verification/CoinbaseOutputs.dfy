/** The outputs of build_session_coinbase2 and the whole coinbase around the miner's extranonce. */
module CoinbaseOutputs {
  import opened Coinbase
  import opened LittleEndian
  import opened Options
  import opened Transactions

  // ---------- who is paid what ----------

  /**
    * The template fields of a job. Amounts are satoshis; donationScript and fundScript are the scripts of the
    * configured addresses when they decode; floating-point products are taken exactly.
    */
  datatype Job = Job(
    value: int, eCash: bool, fundValue: int, fundScript: Option<seq<octet>>, stakingValue: int, stakingScript: seq<octet>,
    donationPercent: real, donationScript: Option<seq<octet>>, segwit: bool, commitment: seq<octet>)

  datatype Payment = Payment(amount: int, script: seq<octet>)

  const FALLBACK_FUND: seq<octet> :=
    [0xa9, 0x14, 0xd3, 0x7c, 0x4c, 0x80, 0x9f, 0xe9, 0x84, 0x0e, 0x7b, 0xfa, 0x77, 0xb8, 0x6b, 0xd4, 0x71, 0x63, 0xf6, 0xfb,
     0x6c, 0x60, 0x87]

  const FALLBACK_STAKING: seq<octet> :=
    [0x76, 0xa9, 0x14, 0x0e, 0x1c, 0xe9, 0x66, 0x92, 0xcf, 0x15, 0x15, 0x59, 0x85, 0xbf, 0x01, 0x02, 0x64, 0x72, 0x54, 0x28,
     0xd3, 0x23, 0x3e, 0x88, 0xac]

  /** To the nearest integer, halves away from zero. */
  function Round(x: real): int
  {
    if x >= 0.0 then (x + 0.5).Floor else -((0.5 - x).Floor)
  }

  /** llround((double)v * percent / 100.0) */
  function Percent(v: int, percent: real): int
  {
    Round(v as real * percent / 100.0)
  }

  function Fund(job: Job): int
  {
    if !job.eCash then 0 else if job.fundValue > 0 then job.fundValue else Percent(job.value, 32.0)
  }

  function Staking(job: Job): int
  {
    if !job.eCash then 0 else if job.stakingValue > 0 then job.stakingValue else Percent(job.value, 10.0)
  }

  function Remaining(job: Job): int
  {
    job.value - Fund(job) - Staking(job)
  }

  function Donation(job: Job): int
  {
    if job.donationPercent > 0.0 && job.donationScript.Some? then
      var donation := Percent(Remaining(job), job.donationPercent);
      if donation > Remaining(job) then 0 else donation
    else 0
  }

  predicate HasCommitment(job: Job)
  {
    job.segwit && job.commitment != []
  }

  function FundScript(job: Job): seq<octet>
  {
    if job.fundScript.Some? then job.fundScript.value else FALLBACK_FUND
  }

  function StakingScript(job: Job): seq<octet>
  {
    if job.stakingScript != [] then job.stakingScript else FALLBACK_STAKING
  }

  /** The outputs in the order they are appended. */
  function Payments(job: Job, miner: seq<octet>): (ps: seq<Payment>)
  {
    [Payment(Remaining(job) - Donation(job), miner)]
    + (if Donation(job) > 0 then [Payment(Donation(job), job.donationScript.value)] else [])
    + (if job.eCash then [Payment(Fund(job), FundScript(job)), Payment(Staking(job), StakingScript(job))] else [])
    + (if HasCommitment(job) then [Payment(0, job.commitment)] else [])
  }

  function Declared(job: Job): (n: nat)
  {
    if job.eCash then (if Donation(job) > 0 then 2 else 1) + 2
    else (if Donation(job) > 0 then 2 else 1) + (if HasCommitment(job) then 1 else 0)
  }

  /** The declared output count is wrong in exactly one case. */
  lemma CountIsRight(job: Job, miner: seq<octet>)
    ensures |Payments(job, miner)| == Declared(job) + if job.eCash && HasCommitment(job) then 1 else 0
  {
    hide Donation, Remaining, Fund, Staking;
  }

  function Sum(ps: seq<Payment>): int
  {
    if ps == [] then 0 else ps[0].amount + Sum(ps[1..])
  }

  lemma {:induction false} SumConcat(a: seq<Payment>, b: seq<Payment>)
    ensures Sum(a + b) == Sum(a) + Sum(b)
    decreases |a|
  {
    if a == [] {
      assert a + b == b;
    } else {
      assert (a + b)[1..] == a[1..] + b;
      SumConcat(a[1..], b);
    }
  }

  lemma PaymentsSum(job: Job, miner: seq<octet>)
    ensures Sum(Payments(job, miner)) == job.value - if Donation(job) < 0 then Donation(job) else 0
  {
    hide FundScript, StakingScript;
    var d, f, s, r := Donation(job), Fund(job), Staking(job), Remaining(job);
    assert r == job.value - f - s;
    if !job.eCash {
      assert f == 0 && s == 0;
    }
    var a := [Payment(r - d, miner)];
    assert d > 0 ==> job.donationScript.Some?;
    var b := if d > 0 then [Payment(d, job.donationScript.value)] else [];
    var c := if job.eCash then [Payment(f, FundScript(job)), Payment(s, StakingScript(job))] else [];
    var e := if HasCommitment(job) then [Payment(0, job.commitment)] else [];
    SumConcat(a + b + c, e);
    SumConcat(a + b, c);
    SumConcat(a, b);
    SumShort(a);
    SumShort(b);
    SumShort(c);
    SumShort(e);
  }

  lemma SumShort(ps: seq<Payment>)
    ensures |ps| == 0 ==> Sum(ps) == 0
    ensures |ps| == 1 ==> Sum(ps) == ps[0].amount
    ensures |ps| == 2 ==> Sum(ps) == ps[0].amount + ps[1].amount
  {
  }

  ghost predicate Conserves(ps: seq<Payment>, value: int)
  {
    Sum(ps) == value && forall i | 0 <= i < |ps| :: ps[i].amount >= 0
  }

  /** No output is negative and nothing is lost or made up, exactly when fund and staking fit in the template's value. */
  lemma ValueConserved(job: Job, miner: seq<octet>)
    requires job.value >= 0
    ensures Conserves(Payments(job, miner), job.value) <==> Fund(job) + Staking(job) <= job.value
  {
    hide Fund, Staking, FundScript, StakingScript, Sum;
    var ps, d, r := Payments(job, miner), Donation(job), Remaining(job);
    PaymentsSum(job, miner);
    SharesPositive(job);
    assert ps[0].amount == r - d;
    if r >= 0 {
      if job.donationPercent > 0.0 {
        RoundPositive(r, job.donationPercent);
      }
      assert 0 <= d <= r;
      hide Donation, Remaining;
    } else {
      assert d <= 0;
    }
  }

  lemma SharesPositive(job: Job)
    requires job.value >= 0
    ensures Fund(job) >= 0 && Staking(job) >= 0
  {
    RoundPositive(job.value, 32.0);
    RoundPositive(job.value, 10.0);
  }

  lemma RoundPositive(r: int, percent: real)
    requires r >= 0 && percent > 0.0
    ensures Percent(r, percent) >= 0
  {
    assert r as real * percent >= 0.0;
  }

  // ---------- bytes ----------

  /** static_cast to an unsigned 64-bit integer */
  function U64(v: int): (u: nat)
    ensures u < 0x1_0000_0000_0000_0000
  {
    v % 0x1_0000_0000_0000_0000
  }

  /** Every script is short enough for a one-byte length. */
  predicate ShortScripts(job: Job, miner: seq<octet>)
  {
    && |miner| < 0xfd && |job.stakingScript| < 0xfd && |job.commitment| < 0xfd
    && (job.fundScript.Some? ==> |job.fundScript.value| < 0xfd)
    && (job.donationScript.Some? ==> 0 < |job.donationScript.value| < 0xfd)
  }

  function AsOutput(p: Payment): Output
  {
    Output(U64(p.amount), p.script)
  }

  function AsOutputs(ps: seq<Payment>): (os: seq<Output>)
    ensures |os| == |ps|
  {
    seq(|ps|, i requires 0 <= i < |ps| => AsOutput(ps[i]))
  }

  predicate Short(ps: seq<Payment>)
  {
    forall i | 0 <= i < |ps| :: |ps[i].script| < 0xfd
  }

  lemma PaymentsShort(job: Job, miner: seq<octet>)
    requires ShortScripts(job, miner)
    ensures Short(Payments(job, miner))
  {
    hide Remaining, Fund, Staking;
  }

  function PaymentsBytes(ps: seq<Payment>): (b: seq<octet>)
    requires Short(ps)
  {
    OutputsBytes(AsOutputs(ps))
  }

  /** Sequence, output count, outputs, locktime; nothing without a miner script. */
  function SecondHalf(job: Job, miner: seq<octet>): (b: seq<octet>)
    requires ShortScripts(job, miner)
  {
    PaymentsShort(job, miner);
    if miner == [] then []
    else [255, 255, 255, 255] + [Declared(job)] + PaymentsBytes(Payments(job, miner)) + [0, 0, 0, 0]
  }

  lemma {:induction false} OutputsConcat(a: seq<Output>, b: seq<Output>)
    requires (forall i | 0 <= i < |a| :: EncodableOutput(a[i])) && forall i | 0 <= i < |b| :: EncodableOutput(b[i])
    ensures OutputsBytes(a + b) == OutputsBytes(a) + OutputsBytes(b)
    decreases |a|
  {
    hide OutputBytes, EncodableOutput;
    if a == [] {
      assert a + b == b;
    } else {
      assert (a + b)[1..] == a[1..] + b;
      OutputsConcat(a[1..], b);
    }
  }

  lemma PaymentsSnoc(ps: seq<Payment>, p: Payment)
    requires Short(ps) && |p.script| < 0xfd
    ensures Short(ps + [p]) && PaymentsBytes(ps + [p]) == PaymentsBytes(ps) + OutputBytes(AsOutput(p))
  {
    hide OutputBytes;
    assert AsOutputs(ps + [p]) == AsOutputs(ps) + [AsOutput(p)];
    OutputsConcat(AsOutputs(ps), [AsOutput(p)]);
    assert [AsOutput(p)][1..] == [];
  }

  method AppendOutput(cb: seq<octet>, amount: int, script: seq<octet>, ghost ps: seq<Payment>, ghost head: seq<octet>)
    returns (out: seq<octet>, ghost more: seq<Payment>)
    requires |script| < 0xfd && Short(ps) && cb == head + PaymentsBytes(ps)
    ensures more == ps + [Payment(amount, script)] && Short(more) && out == head + PaymentsBytes(more)
  {
    hide PaymentsBytes, LE, Short;
    more := ps + [Payment(amount, script)];
    assert |script| < 0xfd;
    PaymentsSnoc(ps, Payment(amount, script));
    out := cb + LE(U64(amount), 8);
    out := out + [|script|];
    out := out + script;
    assert out == cb + OutputBytes(AsOutput(Payment(amount, script)));
  }

  /** build_session_coinbase2 */
  method BuildSecondHalf(job: Job, miner: seq<octet>) returns (cb: seq<octet>)
    requires ShortScripts(job, miner)
    ensures cb == SecondHalf(job, miner)
  {
    if miner == [] {
      return [];
    }
    hide Fund, Staking, PaymentsBytes, Percent;
    var fund, staking := Fund(job), Staking(job);
    var remaining := job.value - fund - staking;
    var donation := 0;
    if job.donationPercent > 0.0 && job.donationScript.Some? {
      donation := Percent(remaining, job.donationPercent);
      if donation > remaining {
        donation := 0;
      }
    }
    var outputs := if donation > 0 then 2 else 1;
    if job.eCash {
      outputs := outputs + 2;
    } else if HasCommitment(job) {
      outputs := outputs + 1;
    }
    assert donation == Donation(job) && outputs == Declared(job);
    cb := [255, 255, 255, 255];
    cb := cb + [outputs];
    cb := AppendAll(cb, job, miner, fund, staking, remaining, donation);
    cb := cb + [0, 0, 0, 0];
  }

  method AppendAll(cb0: seq<octet>, job: Job, miner: seq<octet>, fund: int, staking: int, remaining: int, donation: int)
    returns (cb: seq<octet>)
    requires ShortScripts(job, miner) && miner != []
    requires fund == Fund(job) && staking == Staking(job) && remaining == Remaining(job) && donation == Donation(job)
    ensures Short(Payments(job, miner)) && cb == cb0 + PaymentsBytes(Payments(job, miner))
  {
    hide Fund, Staking, Remaining, FundScript, StakingScript, HasCommitment;
    SharesShort(job, miner);
    DonationScript(job);
    hide Donation;
    ghost var ps: seq<Payment> := [];
    assert Short(ps) && cb0 + PaymentsBytes(ps) == cb0;
    cb, ps := AppendOutput(cb0, remaining - donation, miner, ps, cb0);
    if donation > 0 {
      cb, ps := AppendOutput(cb, donation, job.donationScript.value, ps, cb0);
    }
    if job.eCash {
      cb, ps := AppendOutput(cb, fund, FundScript(job), ps, cb0);
      cb, ps := AppendOutput(cb, staking, StakingScript(job), ps, cb0);
    }
    if HasCommitment(job) {
      cb, ps := AppendOutput(cb, 0, job.commitment, ps, cb0);
    }
    assert ps == Payments(job, miner);
  }

  lemma SharesShort(job: Job, miner: seq<octet>)
    requires ShortScripts(job, miner)
    ensures |FundScript(job)| < 0xfd && |StakingScript(job)| < 0xfd
  {
  }

  lemma CommitmentWhen(job: Job)
    ensures HasCommitment(job) <==> job.segwit && job.commitment != []
  {
  }

  lemma DonationScript(job: Job)
    ensures Donation(job) > 0 ==> job.donationScript.Some?
  {
  }

  // ---------- the whole coinbase ----------

  /** The transaction meant by the two halves and the extranonce. */
  function CoinbaseTx(head: seq<octet>, extranonce: seq<octet>, ps: seq<Payment>): (tx: Tx)
  {
    Tx([1, 0, 0, 0], NullInput(), head + extranonce, [255, 255, 255, 255], AsOutputs(ps), [0, 0, 0, 0])
  }

  /** rebuild_coinbase */
  function Rebuilt(first: seq<octet>, extranonce: seq<octet>, second: seq<octet>): (cb: seq<octet>)
  {
    first + extranonce + second
  }

  lemma HalvesMeet(head: seq<octet>, extranonce: seq<octet>, outputs: seq<octet>, n: octet, tail: seq<octet>, tx: Tx)
    requires |extranonce| == EXTRANONCE && |head| + EXTRANONCE < 0xfd && Encodable(tx)
    requires tx == Tx([1, 0, 0, 0], NullInput(), head + extranonce, [255, 255, 255, 255], tx.outputs, tx.locktime)
    requires n == |tx.outputs| && outputs == OutputsBytes(tx.outputs)
    ensures Rebuilt(FirstHalf(head), extranonce, [255, 255, 255, 255] + [n] + outputs + tail) == tx.version + Body(tx) + tail
  {
    hide OutputsBytes, NullInput;
    var first, second := FirstHalf(head), [255, 255, 255, 255] + [n] + outputs + tail;
    assert first + extranonce == [1, 0, 0, 0] + [1] + NullInput() + [|head| + EXTRANONCE] + (head + extranonce);
    assert first + extranonce + second == first + extranonce + [255, 255, 255, 255] + [n] + outputs + tail;
  }

  /**
    * The halves around any 12-byte extranonce parse as one transaction with the intended script and outputs,
    * exactly when the job is not an eCash job with a witness commitment.
    */
  lemma CoinbaseParses(head: seq<octet>, extranonce: seq<octet>, job: Job, miner: seq<octet>)
    requires |extranonce| == EXTRANONCE && |head| + EXTRANONCE < 0xfd && ShortScripts(job, miner) && miner != []
    ensures Parse(Rebuilt(FirstHalf(head), extranonce, SecondHalf(job, miner)))
         == if job.eCash && HasCommitment(job) then None else Some(CoinbaseTx(head, extranonce, Payments(job, miner)))
  {
    hide Parse, Body, Rebuilt, FirstHalf, Payments, Declared, OutputsBytes, HasCommitment;
    var ps, n := Payments(job, miner), Declared(job);
    PaymentsShort(job, miner);
    CountIsRight(job, miner);
    DeclaredIsSmall(job);
    var counted, extra := ps[..n], ps[n..];
    var tx := CoinbaseTx(head, extranonce, counted);
    var tail := PaymentsBytes(extra) + [0, 0, 0, 0];
    PaymentsSplit(ps, n);
    HalvesMeet(head, extranonce, PaymentsBytes(counted), n, tail, tx);
    assert SecondHalf(job, miner) == [255, 255, 255, 255] + [n] + PaymentsBytes(counted) + tail;
    ParseWithTail(tx, tail);
    TailLength(extra);
    if !(job.eCash && HasCommitment(job)) {
      assert counted == ps && extra == [];
    }
  }

  // ---------- the value of the bytes ----------

  /** Amounts are signed 64-bit integers. */
  predicate Int64(v: int)
  {
    -0x8000_0000_0000_0000 <= v < 0x8000_0000_0000_0000
  }

  predicate Amounts(job: Job)
  {
    job.value >= 0 && Int64(job.value) && Int64(job.fundValue) && Int64(job.stakingValue)
  }

  function Total(os: seq<Output>): (sum: nat)
  {
    if os == [] then 0 else os[0].value + Total(os[1..])
  }

  lemma {:induction false} TotalOfSum(ps: seq<Payment>)
    requires forall i | 0 <= i < |ps| :: ps[i].amount >= 0
    ensures Sum(ps) >= 0 && (Sum(ps) < 0x1_0000_0000_0000_0000 ==> Total(AsOutputs(ps)) == Sum(ps))
  {
    if ps != [] {
      TotalOfSum(ps[1..]);
      assert AsOutputs(ps)[1..] == AsOutputs(ps[1..]);
    }
  }

  lemma TotalOfThree(a: Output, b: Output, c: Output)
    ensures Total([a, b, c]) == a.value + b.value + c.value
  {
    assert [a, b, c][1..] == [b, c] && [b, c][1..] == [c];
    assert Total([b, c]) == b.value + Total([c]) && Total([c]) == c.value + Total([]);
  }

  lemma PercentBelow(v: int, percent: real)
    requires v >= 0 && 0.0 < percent <= 100.0
    ensures Percent(v, percent) <= v
  {
    assert v as real * percent <= v as real * 100.0;
  }

  lemma SharesFit(job: Job)
    requires Amounts(job)
    ensures 0 <= Fund(job) < 0x1_0000_0000_0000_0000 && 0 <= Staking(job) < 0x1_0000_0000_0000_0000
  {
    hide Percent;
    SharesPositive(job);
    PercentBelow(job.value, 32.0);
    PercentBelow(job.value, 10.0);
  }

  /** Fund and staking above the template's value: the miner's amount is cast from a negative number or pays a negative donation. */
  lemma TooMuch(job: Job, miner: seq<octet>)
    requires Amounts(job) && Fund(job) + Staking(job) > job.value && !HasCommitment(job)
    ensures Total(AsOutputs(Payments(job, miner))) > job.value
  {
    hide FundScript, StakingScript, HasCommitment, Donation, Fund, Staking, Total;
    var d, f, s, r := Donation(job), Fund(job), Staking(job), Remaining(job);
    SharesFit(job);
    NoShares(job);
    NoDonation(job);
    var a, b, c := Payment(r - d, miner), Payment(f, FundScript(job)), Payment(s, StakingScript(job));
    ThreePayments(job, miner);
    TotalOfThree(AsOutput(a), AsOutput(b), AsOutput(c));
    assert AsOutputs([a, b, c]) == [AsOutput(a), AsOutput(b), AsOutput(c)];
  }

  lemma NoShares(job: Job)
    ensures !job.eCash ==> Fund(job) == 0 && Staking(job) == 0
  {
  }

  lemma NoDonation(job: Job)
    requires Remaining(job) < 0
    ensures Donation(job) <= 0
  {
    hide Remaining;
    var r := Remaining(job);
    if job.donationPercent > 0.0 {
      assert r as real * job.donationPercent <= 0.0;
    }
  }

  lemma ThreePayments(job: Job, miner: seq<octet>)
    requires job.eCash && !HasCommitment(job) && Donation(job) <= 0
    ensures Payments(job, miner)
         == [Payment(Remaining(job) - Donation(job), miner), Payment(Fund(job), FundScript(job)), Payment(Staking(job), StakingScript(job))]
  {
    hide FundScript, StakingScript, Fund, Staking, Remaining, HasCommitment, Donation;
  }

  /** The outputs read back from the coinbase add up to the template's value exactly when fund and staking fit in it. */
  lemma CoinbaseConserves(head: seq<octet>, extranonce: seq<octet>, job: Job, miner: seq<octet>)
    requires |extranonce| == EXTRANONCE && |head| + EXTRANONCE < 0xfd && ShortScripts(job, miner) && miner != []
    requires Amounts(job) && !(job.eCash && HasCommitment(job))
    ensures var tx := Parse(Rebuilt(FirstHalf(head), extranonce, SecondHalf(job, miner)));
      tx.Some? && (Total(tx.value.outputs) == job.value <==> Fund(job) + Staking(job) <= job.value)
  {
    hide Parse, Rebuilt, FirstHalf, SecondHalf, Payments, HasCommitment, Percent, Total, AsOutputs;
    CoinbaseParses(head, extranonce, job, miner);
    ValueConserved(job, miner);
    if Fund(job) + Staking(job) <= job.value {
      TotalOfSum(Payments(job, miner));
    } else {
      assert job.eCash;
      TooMuch(job, miner);
    }
  }

  /** An eCash job with a one-byte commitment: its coinbase does not parse. */
  lemma CommitmentUncounted()
    ensures var job := Job(100, true, 0, None, 0, [], 0.0, None, true, [0x6a]);
      Parse(Rebuilt(FirstHalf([]), ZeroBytes(EXTRANONCE), SecondHalf(job, [0x51]))) == None
  {
    hide Parse, Rebuilt, FirstHalf, SecondHalf, CoinbaseTx, Payments;
    CoinbaseParses([], ZeroBytes(EXTRANONCE), Job(100, true, 0, None, 0, [], 0.0, None, true, [0x6a]), [0x51]);
  }

  /** A fund of 101 and a reward of 10 out of a value of 100: the outputs claim 2^64 + 100. */
  lemma FundTooLarge()
    ensures var job := Job(100, true, 101, None, 10, [], 0.0, None, false, []);
      var tx := Parse(Rebuilt(FirstHalf([]), ZeroBytes(EXTRANONCE), SecondHalf(job, [0x51])));
      tx.Some? && Total(tx.value.outputs) == 0x1_0000_0000_0000_0064
  {
    hide Parse, Rebuilt, FirstHalf, SecondHalf, Total, FundScript, StakingScript;
    var job := Job(100, true, 101, None, 10, [], 0.0, None, false, []);
    CoinbaseParses([], ZeroBytes(EXTRANONCE), job, [0x51]);
    assert Remaining(job) == -11 && Donation(job) == 0;
    ThreePayments(job, [0x51]);
    var a, b, c := Payment(-11, [0x51]), Payment(101, FundScript(job)), Payment(10, StakingScript(job));
    TotalOfThree(AsOutput(a), AsOutput(b), AsOutput(c));
    assert AsOutputs([a, b, c]) == [AsOutput(a), AsOutput(b), AsOutput(c)];
  }

  // ---------- who gets what, read from the bytes ----------

  /** v is the nearest satoshi to p percent of r. */
  predicate Nearest(v: int, r: int, p: real)
  {
    -0.5 <= v as real - r as real * p / 100.0 <= 0.5
  }

  predicate Template(o: Output, amount: int, p: real, value: int, script: Option<seq<octet>>, fallback: seq<octet>)
  {
    && (if amount > 0 then o.value == amount else Nearest(o.value, value, p))
    && o.script == if script.Some? then script.value else fallback
  }

  /** How the outputs of a coinbase divide r between the miner and the operator, with n outputs for others behind them. */
  predicate Divides(os: seq<Output>, n: nat, r: int, percent: real, miner: seq<octet>, operator: Option<seq<octet>>)
  {
    var paid := percent > 0.0 && operator.Some? && r as real * percent / 100.0 >= 0.5;
    && |os| == n + (if paid then 2 else 1) && os[0].script == miner
    && (if paid then os[1].script == operator.value && Nearest(os[1].value, r, percent) && os[0].value + os[1].value == r
        else os[0].value == r)
  }

  /** The outputs for others: fund and staking of an eCash job by the template where it gives them, then the commitment. */
  predicate Others(os: seq<Output>, job: Job)
  {
    if job.eCash then
      && |os| >= 2 && Template(os[0], job.fundValue, 32.0, job.value, job.fundScript, FALLBACK_FUND)
      && Template(os[1], job.stakingValue, 10.0, job.value,
                  if job.stakingScript != [] then Some(job.stakingScript) else None, FALLBACK_STAKING)
    else job.segwit && job.commitment != [] ==> |os| >= 1 && os[0] == Output(0, job.commitment)
  }

  /**
    * Read back from the bytes of the coinbase: the miner's script has what the others leave, an operator's output of the
    * configured share rounded to the nearest satoshi included, and fund and staking have the template's amounts and scripts.
    */
  lemma EveryoneIsPaid(head: seq<octet>, extranonce: seq<octet>, job: Job, miner: seq<octet>)
    requires |extranonce| == EXTRANONCE && |head| + EXTRANONCE < 0xfd && ShortScripts(job, miner) && miner != []
    requires Amounts(job) && !(job.eCash && job.segwit && job.commitment != []) && job.donationPercent <= 100.0
    requires Fund(job) + Staking(job) <= job.value
    ensures var tx := Parse(Rebuilt(FirstHalf(head), extranonce, SecondHalf(job, miner)));
      && tx.Some?
      && var os := tx.value.outputs;
         var n := (if job.eCash then 2 else 0) + (if job.segwit && job.commitment != [] then 1 else 0);
         var others := os[if |os| >= n then |os| - n else 0..];
         var r := job.value - if job.eCash && |others| >= 2 then others[0].value + others[1].value else 0;
         Others(others, job) && Divides(os, n, r, job.donationPercent, miner, job.donationScript)
  {
    hide Parse, Rebuilt, FirstHalf, SecondHalf, Payments, HasCommitment, Percent, Others, Divides;
    CoinbaseParses(head, extranonce, job, miner);
    CommitmentWhen(job);
    OutputsDivide(job, miner);
  }

  lemma OutputsDivide(job: Job, miner: seq<octet>)
    requires Amounts(job) && !(job.eCash && HasCommitment(job)) && job.donationPercent <= 100.0
    requires Fund(job) + Staking(job) <= job.value
    ensures var os := AsOutputs(Payments(job, miner));
      var n := (if job.eCash then 2 else 0) + (if HasCommitment(job) then 1 else 0);
      && |os| > n
      && var others := os[|os| - n..];
         var r := job.value - if job.eCash then others[0].value + others[1].value else 0;
         Others(others, job) && Divides(os, n, r, job.donationPercent, miner, job.donationScript)
  {
    hide Fund, Staking, Percent, HasCommitment, Donation, Remaining, Payments, Front, Back, AsOutputs, Others, Divides;
    var front, back := AsOutputs(Front(job, miner)), AsOutputs(Back(job));
    FrontAndBack(job, miner);
    OthersPaid(job);
    FrontDivides(job, miner);
    Longer(front, back, job, miner);
  }

  /** With a share below one half the miner gets at least what the operator gets, up to one satoshi. */
  lemma MinerGetsMore(os: seq<Output>, n: nat, r: nat, percent: real, miner: seq<octet>, operator: Option<seq<octet>>)
    requires Divides(os, n, r, percent, miner, operator) && percent < 50.0 && |os| == n + 2
    ensures os[0].value + 1 >= os[1].value
  {
    hide Nearest;
    RoundedHalf(os[0].value, os[1].value, r, percent);
  }

  lemma RoundedHalf(a: int, b: int, r: nat, percent: real)
    requires Nearest(b, r, percent) && percent <= 50.0 && a + b == r
    ensures a + 1 >= b
  {
    AtMostHalf(r as real, percent);
    var x := r as real * percent / 100.0;
    assert b as real <= x + 0.5 && x <= r as real / 2.0;
    assert (2 * b) as real <= (r + 1) as real;
  }

  lemma AtMostHalf(r: real, percent: real)
    requires r >= 0.0 && percent <= 50.0
    ensures r * percent <= r * 50.0 && r * percent / 100.0 <= r / 2.0
  {
  }

  function Front(job: Job, miner: seq<octet>): (ps: seq<Payment>)
  {
    [Payment(Remaining(job) - Donation(job), miner)]
    + if Donation(job) > 0 && job.donationScript.Some? then [Payment(Donation(job), job.donationScript.value)] else []
  }

  function Back(job: Job): (ps: seq<Payment>)
  {
    (if job.eCash then [Payment(Fund(job), FundScript(job)), Payment(Staking(job), StakingScript(job))] else [])
    + if HasCommitment(job) then [Payment(0, job.commitment)] else []
  }

  lemma FrontAndBack(job: Job, miner: seq<octet>)
    ensures AsOutputs(Payments(job, miner)) == AsOutputs(Front(job, miner)) + AsOutputs(Back(job))
  {
    hide Fund, Staking, FundScript, StakingScript, HasCommitment, Donation, Remaining, AsOutput;
    DonationScript(job);
    assert Payments(job, miner) == Front(job, miner) + Back(job);
  }

  lemma OthersPaid(job: Job)
    requires Amounts(job) && !(job.eCash && HasCommitment(job))
    ensures var others := AsOutputs(Back(job));
      && |others| == (if job.eCash then 2 else 0) + (if HasCommitment(job) then 1 else 0) && Others(others, job)
      && (job.eCash ==> others[0].value == Fund(job) && others[1].value == Staking(job))
  {
    hide Fund, Staking, Percent, FundScript, StakingScript, Template;
    SharesFit(job);
    SharesOfTemplate(job);
  }

  lemma FrontDivides(job: Job, miner: seq<octet>)
    requires Amounts(job) && job.donationPercent <= 100.0 && Fund(job) + Staking(job) <= job.value
    ensures Divides(AsOutputs(Front(job, miner)), 0, Remaining(job), job.donationPercent, miner, job.donationScript)
  {
    hide Fund, Staking, Percent, Donation, Remaining, Nearest;
    ShareOfDonation(job);
  }

  lemma Longer(front: seq<Output>, back: seq<Output>, job: Job, miner: seq<octet>)
    requires Divides(front, 0, Remaining(job), job.donationPercent, miner, job.donationScript)
    requires job.eCash ==> |back| >= 2 && back[0].value == Fund(job) && back[1].value == Staking(job)
    ensures var os := front + back;
      && |os| > |back| && os[|os| - |back|..] == back
      && var r := job.value - if job.eCash then back[0].value + back[1].value else 0;
         Divides(os, |back|, r, job.donationPercent, miner, job.donationScript)
  {
    hide Fund, Staking, Nearest;
    NoShares(job);
  }

  lemma RemainingIs(job: Job)
    ensures Remaining(job) == job.value - Fund(job) - Staking(job)
  {
  }

  lemma ShareOfDonation(job: Job)
    requires Amounts(job) && job.donationPercent <= 100.0 && Fund(job) + Staking(job) <= job.value
    ensures 0 <= Donation(job) <= Remaining(job) < 0x1_0000_0000_0000_0000
    ensures Donation(job) > 0 <==>
      job.donationPercent > 0.0 && job.donationScript.Some? && Remaining(job) as real * job.donationPercent / 100.0 >= 0.5
    ensures Donation(job) > 0 ==> Nearest(Donation(job), Remaining(job), job.donationPercent)
  {
    hide Fund, Staking;
    var r, p := Remaining(job), job.donationPercent;
    SharesFit(job);
    if p > 0.0 {
      PercentNearest(r, p);
      PercentBelow(r, p);
    }
  }

  lemma PercentNearest(r: int, p: real)
    requires r >= 0 && p > 0.0
    ensures Nearest(Percent(r, p), r, p) && Percent(r, p) >= 0
    ensures Percent(r, p) > 0 <==> r as real * p / 100.0 >= 0.5
  {
    RoundPositive(r, p);
  }

  lemma SharesOfTemplate(job: Job)
    requires Amounts(job)
    ensures job.eCash ==> Template(Output(Fund(job) % 0x1_0000_0000_0000_0000, FundScript(job)), job.fundValue, 32.0, job.value, job.fundScript,
                     FALLBACK_FUND)
    ensures job.eCash ==> Template(Output(Staking(job) % 0x1_0000_0000_0000_0000, StakingScript(job)), job.stakingValue, 10.0, job.value,
                     if job.stakingScript != [] then Some(job.stakingScript) else None, FALLBACK_STAKING)
  {
    hide Percent, Nearest, FundScript, StakingScript;
    SharesFit(job);
    ScriptsGiven(job);
    PercentNearest(job.value, 32.0);
    PercentNearest(job.value, 10.0);
    InRange(Fund(job));
    InRange(Staking(job));
  }

  lemma ScriptsGiven(job: Job)
    ensures FundScript(job) == if job.fundScript.Some? then job.fundScript.value else FALLBACK_FUND
    ensures StakingScript(job) == if job.stakingScript != [] then job.stakingScript else FALLBACK_STAKING
  {
  }

  lemma InRange(v: int)
    ensures 0 <= v < 0x1_0000_0000_0000_0000 ==> v % 0x1_0000_0000_0000_0000 == v
  {
  }

  lemma DeclaredIsSmall(job: Job)
    ensures Declared(job) <= 4
  {
    hide Donation;
  }

  lemma PaymentsSplit(ps: seq<Payment>, n: nat)
    requires Short(ps) && n <= |ps|
    ensures Short(ps[..n]) && Short(ps[n..]) && PaymentsBytes(ps) == PaymentsBytes(ps[..n]) + PaymentsBytes(ps[n..])
  {
    hide OutputsBytes;
    assert AsOutputs(ps) == AsOutputs(ps[..n]) + AsOutputs(ps[n..]);
    OutputsConcat(AsOutputs(ps[..n]), AsOutputs(ps[n..]));
  }

  lemma TailLength(extra: seq<Payment>)
    requires Short(extra)
    ensures extra == [] ==> PaymentsBytes(extra) + [0, 0, 0, 0] == [0, 0, 0, 0]
    ensures extra != [] ==> |PaymentsBytes(extra) + [0, 0, 0, 0]| > 4
  {
  }

  /** With the witness added for submission the transaction, hence its id, is the same. */
  lemma WitnessedCoinbase(head: seq<octet>, extranonce: seq<octet>, job: Job, miner: seq<octet>)
    requires |extranonce| == EXTRANONCE && |head| + EXTRANONCE < 0xfd && ShortScripts(job, miner) && miner != []
    requires !(job.eCash && HasCommitment(job))
    ensures var cb := Rebuilt(FirstHalf(head), extranonce, SecondHalf(job, miner));
      && Parse(cb).Some?
      && ParseWitnessed(Segwitified(cb)) == Some(Witnessed(Parse(cb).value, ZeroBytes(32)))
  {
    hide Parse, ParseWitnessed, Segwitified, Rebuilt, FirstHalf, SecondHalf, CoinbaseTx;
    var cb := Rebuilt(FirstHalf(head), extranonce, SecondHalf(job, miner));
    CoinbaseParses(head, extranonce, job, miner);
    SerializeParse(cb);
    WitnessKeepsTx(Parse(cb).value);
  }
}
