/** What a wallet may be topped up with, and the reserve it must keep once it is established. Amounts in rupees. */
module TopupPolicy {
  import opened Prelude

  const WALLET_RESERVE_AMOUNT := 1000.0
  const WALLET_TRAINING_TOPUP_MIN := 200.0
  const WALLET_TRAINING_TOPUP_MAX := 2000.0
  const WALLET_RESERVE_START_BALANCE := 1200.0

  datatype Role = SUPER_ADMIN | DISTRIBUTOR | MERCHANT | WAREHOUSE

  datatype PolicyPhase = Standard | TrainingFirstTopup | ReserveCompletionTopup

  datatype Policy = Policy(phase: PolicyPhase, completedTopups: nat, reserveEstablished: bool, reserveAmount: real,
                           minAmount: real, maxAmount: Option<real>)

  datatype PolicyError = NotPositive | OutsideTrainingRange | BelowReserveCompletion(minAmount: real)

  predicate IsTrainingWalletRole(role: Role) {
    role == MERCHANT || role == DISTRIBUTOR
  }

  /** `completed` counts the wallet's recharges; other roles report none. */
  function GetWalletTopupPolicy(balance: real, completed: nat, role: Role): Policy {
    if !IsTrainingWalletRole(role) then Policy(Standard, 0, false, 0.0, 1.0, None)
    else
      var reserveEstablished := completed >= 2 || (completed >= 1 && balance >= WALLET_RESERVE_START_BALANCE);
      if completed == 0 && !reserveEstablished then
        Policy(TrainingFirstTopup, completed, false, 0.0, WALLET_TRAINING_TOPUP_MIN, Some(WALLET_TRAINING_TOPUP_MAX))
      else if !reserveEstablished then
        Policy(ReserveCompletionTopup, completed, false, 0.0, MaxReal(1.0, WALLET_RESERVE_START_BALANCE - balance), None)
      else
        Policy(Standard, completed, true, WALLET_RESERVE_AMOUNT, 1.0, None)
  }

  function ValidateTopupAmount(balance: real, completed: nat, role: Role, amount: real): Result<Policy, PolicyError> {
    if amount <= 0.0 then Err(NotPositive)
    else
      var policy := GetWalletTopupPolicy(balance, completed, role);
      if policy.phase == TrainingFirstTopup && (amount < policy.minAmount || amount > policy.maxAmount.GetOr(amount)) then
        Err(OutsideTrainingRange)
      else if policy.phase == ReserveCompletionTopup && amount < policy.minAmount then
        Err(BelowReserveCompletion(policy.minAmount))
      else Ok(policy)
  }

  datatype DecoratedWallet = DecoratedWallet(balance: real, reservedBalance: real, availableBalance: real, policy: Policy)

  function DecorateWalletForRole(balance: real, completed: nat, role: Role): DecoratedWallet {
    var policy := GetWalletTopupPolicy(balance, completed, role);
    var reserve := if policy.reserveEstablished then WALLET_RESERVE_AMOUNT else 0.0;
    DecoratedWallet(balance, reserve, MaxReal(0.0, balance - reserve), policy)
  }

  /** getWalletReserveAmount, for a user whose record was found */
  function ReserveAmount(balance: real, completed: nat, role: Role): real {
    var policy := GetWalletTopupPolicy(balance, completed, role);
    if IsTrainingWalletRole(role) && policy.reserveEstablished then policy.reserveAmount else 0.0
  }

  /** The rule behind the phases: a first recharge of 200 to 2000, then a second that makes 1200, and how much it is short of that. */
  lemma TopupRule(balance: real, completed: nat, role: Role, amount: real)
    ensures ValidateTopupAmount(balance, completed, role, amount).Ok? <==>
      && amount > 0.0
      && (IsTrainingWalletRole(role) && completed == 0 ==> 200.0 <= amount <= 2000.0)
      && (IsTrainingWalletRole(role) && completed == 1 && balance < 1200.0 ==> amount >= 1.0 && balance + amount >= 1200.0)
    ensures var r := ValidateTopupAmount(balance, completed, role, amount);
      r.Err? && r.error.BelowReserveCompletion? ==> r.error.minAmount == (if balance > 1199.0 then 1.0 else 1200.0 - balance)
  {
  }
}
