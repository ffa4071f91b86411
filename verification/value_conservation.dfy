/** What is signed away is what was staked, less the fee: per signature and over whole runs. */
module ValueConservation {
  import opened Bitcoin
  import opened BtcStaking
  import opened Integers
  import opened Parsing
  import opened Service
  import opened ServiceInvariants
  import opened ServiceSafety
  import opened SignerApp
  import opened SignerGate
  import opened UnbondingAgreement

  /** The amounts of a signed request: what was staked, the fee, and what the signed transaction pays out. */
  datatype Amounts = Amounts(staked: int64, fee: int64, paid: int64)

  function AmountsOf(app: SignerApp, sg: Signing): Amounts {
    var p, s := InclusionParams(app, sg.io), Staking(app, sg.io);
    if p.Success? && s.Success? && sg.req.tx.txOut != [] then
      Amounts(s.value.stakingOutput.value, p.value.unbondingFee, sg.req.tx.txOut[0].value)
    else Amounts(0, 0, 0)
  }

  /** One signature: the payout is positive, the stake lies within the bounds of its version, and the stake is the payout
      plus the fee exactly when that subtraction stays within `int64`. */
  lemma SignedAmounts(app: SignerApp, sg: Signing)
    requires Signs(app, sg.req, sg.io)
    ensures var a := AmountsOf(app, sg);
            && InclusionParams(app, sg.io).Success? && Staking(app, sg.io).Success? && |sg.req.tx.txOut| == 1
            && a.paid > 0
            && InclusionParams(app, sg.io).value.minStakingAmount <= a.staked <= InclusionParams(app, sg.io).value.maxStakingAmount
            && a.staked <= a.paid + a.fee
            && (a.staked == a.paid + a.fee <==> FitsInt64(a.staked - a.fee))
            && (a.staked >= 0 ==> a.staked == a.paid + a.fee)
  {
    hide Signs, SignUnbondingTransaction, IsDeepEnough, IsUnbondingPathBuilt, IsSignedByStaker, SpendsStakingOutput;
    SignedSteps(app, sg.req, sg.io);
    FeeSubtraction(AmountsOf(app, sg).staked, AmountsOf(app, sg).fee);
  }

  /** The outpoints a signed transaction spends; of an unbonding transaction, the one. */
  function Spent(sg: Signing): seq<OutPoint> {
    Map((i: TxIn) => i.previousOutPoint, sg.req.tx.txIn)
  }

  ghost function AllSpent(sgs: seq<Signing>): set<seq<OutPoint>> {
    set sg | sg in sgs :: Spent(sg)
  }

  /** The first signature for each staking output. */
  ghost function Distinct(sgs: seq<Signing>): seq<Signing> {
    if sgs == [] then []
    else
      var n := |sgs| - 1;
      Distinct(sgs[..n]) + (if Spent(sgs[n]) in AllSpent(sgs[..n]) then [] else [sgs[n]])
  }

  lemma AllSpentOfAppend(sgs: seq<Signing>, sg: Signing)
    ensures AllSpent(sgs + [sg]) == AllSpent(sgs) + {Spent(sg)}
  {
    hide Spent;
    assert forall x :: x in sgs + [sg] <==> x in sgs || x == sg;
  }

  lemma MemberIsSpent(sgs: seq<Signing>, i: nat)
    requires i < |sgs|
    ensures Spent(sgs[i]) in AllSpent(sgs)
  {
    hide Spent;
  }

  /** `Distinct` keeps a signature for every staking output signed for, and no two for the same. */
  lemma {:induction false} DistinctCovers(sgs: seq<Signing>)
    ensures forall sg | sg in Distinct(sgs) :: sg in sgs
    ensures AllSpent(Distinct(sgs)) == AllSpent(sgs)
    ensures forall i, j | 0 <= i < j < |Distinct(sgs)| :: Spent(Distinct(sgs)[i]) != Spent(Distinct(sgs)[j])
  {
    hide Spent, AllSpent;
    if sgs != [] {
      var n := |sgs| - 1;
      var before := Distinct(sgs[..n]);
      DistinctCovers(sgs[..n]);
      AllSpentOfAppend(sgs[..n], sgs[n]);
      assert sgs == sgs[..n] + [sgs[n]];
      if Spent(sgs[n]) !in AllSpent(sgs[..n]) {
        AllSpentOfAppend(before, sgs[n]);
        forall i | 0 <= i < |before| ensures Spent(before[i]) != Spent(sgs[n]) {
          MemberIsSpent(before, i);
        }
      } else {
        assert Distinct(sgs) == before;
      }
    }
  }

  function TotalStaked(app: SignerApp, sgs: seq<Signing>): int {
    if sgs == [] then 0 else AmountsOf(app, sgs[0]).staked + TotalStaked(app, sgs[1..])
  }

  function TotalPaid(app: SignerApp, sgs: seq<Signing>): int {
    if sgs == [] then 0 else AmountsOf(app, sgs[0]).paid + TotalPaid(app, sgs[1..])
  }

  function TotalFees(app: SignerApp, sgs: seq<Signing>): int {
    if sgs == [] then 0 else AmountsOf(app, sgs[0]).fee + TotalFees(app, sgs[1..])
  }

  /** The payout and the fee are together at least the stake, and equal it when the subtraction of the fee is exact. */
  ghost predicate Balances(app: SignerApp, sg: Signing) {
    var a := AmountsOf(app, sg);
    a.staked <= a.paid + a.fee && (a.staked == a.paid + a.fee <==> FitsInt64(a.staked - a.fee))
  }

  lemma {:induction false} TotalsBalance(app: SignerApp, sgs: seq<Signing>)
    requires forall sg | sg in sgs :: Balances(app, sg)
    ensures TotalStaked(app, sgs) <= TotalPaid(app, sgs) + TotalFees(app, sgs)
    ensures TotalStaked(app, sgs) == TotalPaid(app, sgs) + TotalFees(app, sgs)
       <==> forall sg | sg in sgs :: FitsInt64(AmountsOf(app, sg).staked - AmountsOf(app, sg).fee)
  {
    hide AmountsOf, FitsInt64;
    if sgs != [] {
      assert sgs == [sgs[0]] + sgs[1..];
      assert forall sg :: sg in sgs <==> sg == sgs[0] || sg in sgs[1..];
      TotalsBalance(app, sgs[1..]);
      assert Balances(app, sgs[0]);
    }
  }

  /** No version allows a negative stake. */
  ghost predicate StakesAreNotNegative(app: SignerApp) {
    forall h :: app.paramsByHeight(h).Success? ==> app.paramsByHeight(h).value.minStakingAmount >= 0
  }

  lemma SignedBalances(app: SignerApp, sg: Signing)
    requires Signs(app, sg.req, sg.io)
    ensures Balances(app, sg) && AmountsOf(app, sg).paid > 0
    ensures StakesAreNotNegative(app) ==> FitsInt64(AmountsOf(app, sg).staked - AmountsOf(app, sg).fee)
  {
    hide Signs, SignUnbondingTransaction, AmountsOf, InclusionParams, Staking;
    SignedAmounts(app, sg);
    if StakesAreNotNegative(app) {
      MinimumIsNotNegative(app, sg.io);
    }
  }

  /** Over any run at all, re-organised in whatever way and however often a staking output was signed for: the stakes of the
      distinct outputs signed for are never more than the payouts and the fees together, and they are the same exactly when
      no subtraction of a fee wrapped. None does when no version allows a negative stake. */
  lemma ValueIsConserved(d: Deployment, states: seq<State>, actions: seq<Action>)
    requires IsRun(d, states, actions)
    ensures states != []
    ensures var sgs := Distinct(Last(states).signings);
            && (forall sg | sg in Last(states).signings :: AmountsOf(d.app, sg).paid > 0)
            && TotalStaked(d.app, sgs) <= TotalPaid(d.app, sgs) + TotalFees(d.app, sgs)
            && (TotalStaked(d.app, sgs) == TotalPaid(d.app, sgs) + TotalFees(d.app, sgs)
                <==> forall sg | sg in sgs :: FitsInt64(AmountsOf(d.app, sg).staked - AmountsOf(d.app, sg).fee))
            && (StakesAreNotNegative(d.app) ==> TotalStaked(d.app, sgs) == TotalPaid(d.app, sgs) + TotalFees(d.app, sgs))
  {
    hide IsRun, Signs, SignUnbondingTransaction, AmountsOf, SigningOk, Distinct, Balances, StakesAreNotNegative;
    LastStateOk(d, states, actions);
    var sgs := Last(states).signings;
    forall sg | sg in sgs
      ensures Balances(d.app, sg) && AmountsOf(d.app, sg).paid > 0
      ensures StakesAreNotNegative(d.app) ==> FitsInt64(AmountsOf(d.app, sg).staked - AmountsOf(d.app, sg).fee)
    {
      SigningsAreOk(d, states, actions, sg);
      SigningOkSigns(d, sg);
      SignedBalances(d.app, sg);
    }
    DistinctCovers(sgs);
    TotalsBalance(d.app, Distinct(sgs));
  }

  /** When no deep block is lost and no read goes stale, every further signature for an output has the same three amounts
      as the one that is counted. */
  lemma RepeatedSignaturesAgree(d: Deployment, states: seq<State>, actions: seq<Action>)
    requires GoodRun(d, states, actions)
    ensures states != []
    ensures var sgs := Last(states).signings;
            forall a, b | a in sgs && b in sgs && Spent(a) == Spent(b) :: AmountsOf(d.app, a) == AmountsOf(d.app, b)
  {
    hide GoodRun, Signs, SignUnbondingTransaction, AmountsOf, SigningOk;
    RunOfGoodRun(d, states, actions);
    LastStateOk(d, states, actions);
    var sgs := Last(states).signings;
    forall a, b | a in sgs && b in sgs && Spent(a) == Spent(b)
      ensures AmountsOf(d.app, a) == AmountsOf(d.app, b)
    {
      SigningsAreOk(d, states, actions, a);
      SigningsAreOk(d, states, actions, b);
      SigningOkSigns(d, a);
      SigningOkSigns(d, b);
      SameAmounts(d, states, actions, a, b);
    }
  }

  lemma MinimumIsNotNegative(app: SignerApp, io: Answers)
    requires StakesAreNotNegative(app) && InclusionParams(app, io).Success?
    ensures InclusionParams(app, io).value.minStakingAmount >= 0
  {
  }

  lemma SameAmounts(d: Deployment, states: seq<State>, actions: seq<Action>, a: Signing, b: Signing)
    requires GoodRun(d, states, actions) && a in Last(states).signings && b in Last(states).signings
    requires SigningOk(d, a) && SigningOk(d, b) && UnbondingShape(a.req.tx) && UnbondingShape(b.req.tx)
    requires Spent(a) == Spent(b)
    ensures AmountsOf(d.app, a) == AmountsOf(d.app, b)
  {
    hide GoodRun, SignUnbondingTransaction;
    assert Spent(a)[0] == Spent(b)[0];
    SameStakingTx(d, states, actions, a, b);
    NoConflictingSignatures(d, states, actions, a, b);
    assert FieldsOf(a.req.tx).output == FieldsOf(b.req.tx).output;
  }
}
