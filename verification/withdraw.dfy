/**
  `POST /currency/withdraw`: debit `count` notes of `denomination` from the
  caller's account in the group of the caller's server.
 */
module WithdrawRoute {
  import opened Wrappers
  import opened Store

  /** The denomination used when the body gives none. */
  const DefaultDenomination: int := 1000

  /** The success payload: `withdrawn`, `new_balance`, `denomination`, `count`. */
  datatype Withdrawal = Withdrawal(withdrawn: int, newBalance: int, denomination: int, count: int)

  /** The first guard: a server id, a holder uuid and a positive count. */
  predicate WellFormed(serverId: Option<ServerId>, uuid: Option<Uuid>, count: Option<int>) {
    TruthyId(serverId) && Truthy(uuid) && count.Some? && count.value > 0
  }

  /** The handler's transaction. The account row inserted by the
      ensure-account step is rolled back with everything else on failure. */
  function Withdraw(st: State, serverId: Option<ServerId>, bodyUuid: Option<Uuid>, jwtUuid: Option<Uuid>,
                    count: Option<int>, denomination: Option<int>): (r: Step<Withdrawal>)
    ensures r.out.Err? ==> r.post == st
    ensures r.out == Err(InvalidInput) <==> !WellFormed(serverId, Coalesce(bodyUuid, jwtUuid), count)
    ensures r.out == Err(ServerNotFound)
            <==> WellFormed(serverId, Coalesce(bodyUuid, jwtUuid), count) && GroupOf(st, serverId.value).None?
    ensures r.out == Err(InsufficientFunds)
            <==> && WellFormed(serverId, Coalesce(bodyUuid, jwtUuid), count)
                 && GroupOf(st, serverId.value).Some?
                 && BalanceOrZero(st.accounts, (GroupOf(st, serverId.value).value, Coalesce(bodyUuid, jwtUuid).value))
                    < count.value * denomination.ValueOr(DefaultDenomination)
    ensures r.out.Err? ==> r.out.failure in {InvalidInput, ServerNotFound, InsufficientFunds}
    ensures r.out.Ok? ==>
              && WellFormed(serverId, Coalesce(bodyUuid, jwtUuid), count)
              && GroupOf(st, serverId.value).Some?
    ensures r.out.Ok? ==>
              var key := (GroupOf(st, serverId.value).value, Coalesce(bodyUuid, jwtUuid).value);
              var w := r.out.value;
              && w.denomination == denomination.ValueOr(DefaultDenomination)
              && w.count == count.value
              && w.withdrawn == w.count * w.denomination
              && BalanceOrZero(st.accounts, key) >= w.withdrawn
              && r.post == st.(accounts := r.post.accounts)
              && key in r.post.accounts
              && r.post.accounts[key] == BalanceOrZero(st.accounts, key) - w.withdrawn
              && w.newBalance == r.post.accounts[key]
              && AgreeExcept(st.accounts, r.post.accounts, {key})
  {
    var uuid := Coalesce(bodyUuid, jwtUuid);
    if !WellFormed(serverId, uuid, count) then Step(Err(InvalidInput), st)
    else
      var denom := denomination.ValueOr(DefaultDenomination);
      var amount := count.value * denom;
      match GroupOf(st, serverId.value)
      case None => Step(Err(ServerNotFound), st)
      case Some(g) =>
        var key := (g, uuid.value);
        // INSERT ... VALUES (g, uuid, 0) ON CONFLICT DO NOTHING, then SELECT ... FOR UPDATE
        var ensured := EnsureAccount(st.accounts, key);
        var current := ensured[key];
        if current < amount then Step(Err(InsufficientFunds), st)
        else
          var balance := current - amount;
          Step(Ok(Withdrawal(amount, balance, denom, count.value)), st.(accounts := ensured[key := balance]))
  }

  /** The withdrawal with the denomination check the handler lacks: a
      denomination that is not positive is invalid input. Every withdrawal
      it commits is one the handler commits, and it takes money out. */
  function WithdrawChecked(st: State, serverId: Option<ServerId>, bodyUuid: Option<Uuid>, jwtUuid: Option<Uuid>,
                           count: Option<int>, denomination: Option<int>): (r: Step<Withdrawal>)
    ensures r.out.Err? ==> r.post == st
    ensures denomination.ValueOr(DefaultDenomination) <= 0 ==> r.out == Err(InvalidInput)
    ensures denomination.ValueOr(DefaultDenomination) > 0 ==>
              r == Withdraw(st, serverId, bodyUuid, jwtUuid, count, denomination)
    ensures r.out.Ok? ==>
              && WellFormed(serverId, Coalesce(bodyUuid, jwtUuid), count)
              && GroupOf(st, serverId.value).Some?
              && var key := (GroupOf(st, serverId.value).value, Coalesce(bodyUuid, jwtUuid).value);
                 && r.out.value.withdrawn > 0
                 && key in r.post.accounts
                 && r.post.accounts[key] < BalanceOrZero(st.accounts, key)
  {
    if denomination.ValueOr(DefaultDenomination) <= 0 then Step(Err(InvalidInput), st)
    else Withdraw(st, serverId, bodyUuid, jwtUuid, count, denomination)
  }

  /** A committed withdrawal never leaves a negative balance, whatever the
      sign of the denomination, and keeps every account inside an existing
      group. */
  lemma WithdrawPreservesValid(st: State, serverId: Option<ServerId>, bodyUuid: Option<Uuid>,
                               jwtUuid: Option<Uuid>, count: Option<int>, denomination: Option<int>)
    requires Valid(st)
    ensures Valid(Withdraw(st, serverId, bodyUuid, jwtUuid, count, denomination).post)
    ensures var r := Withdraw(st, serverId, bodyUuid, jwtUuid, count, denomination);
            r.out.Ok? ==> r.out.value.newBalance >= 0
  {
  }

  /** Nothing rejects a negative denomination: such a "withdrawal" always
      commits, and it raises the balance by `count * -denomination`. */
  lemma NegativeDenominationCredits(st: State, serverId: ServerId, uuid: Uuid, count: int, denomination: int)
    requires Valid(st)
    requires serverId != 0 && uuid != "" && count > 0 && denomination < 0
    requires GroupOf(st, serverId).Some?
    ensures var r := Withdraw(st, Some(serverId), Some(uuid), None, Some(count), Some(denomination));
            var key := (GroupOf(st, serverId).value, uuid);
            && r.out.Ok?
            && r.post.accounts[key] == BalanceOrZero(st.accounts, key) + count * -denomination
            && r.post.accounts[key] > BalanceOrZero(st.accounts, key)
  {
    var key := (GroupOf(st, serverId).value, uuid);
    assert count * denomination < 0;
    assert BalanceOrZero(st.accounts, key) >= 0;
  }
}
