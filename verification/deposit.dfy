/**
  `POST /currency/deposit`: credit `amount` to the caller's account in the
  group of the caller's server, creating the account when it is missing.
 */
module DepositRoute {
  import opened Wrappers
  import opened Store

  /** The first guard: a holder uuid (the body's, else the token's), a
      server id and a numeric amount. */
  predicate WellFormed(serverId: Option<ServerId>, uuid: Option<Uuid>, amount: Option<int>) {
    Truthy(uuid) && TruthyId(serverId) && amount.Some?
  }

  /** The handler's transaction. The result carries `new_balance`. */
  function Deposit(st: State, serverId: Option<ServerId>, bodyUuid: Option<Uuid>, jwtUuid: Option<Uuid>,
                   amount: Option<int>): (r: Step<int>)
    ensures r.out.Err? ==> r.post == st
    ensures r.out == Err(InvalidInput) <==> !WellFormed(serverId, Coalesce(bodyUuid, jwtUuid), amount)
    ensures r.out == Err(NonPositiveAmount)
            <==> WellFormed(serverId, Coalesce(bodyUuid, jwtUuid), amount) && amount.value <= 0
    ensures r.out == Err(ServerNotFound)
            <==> WellFormed(serverId, Coalesce(bodyUuid, jwtUuid), amount) && amount.value > 0
                 && GroupOf(st, serverId.value).None?
    ensures r.out.Err? ==> r.out.failure in {InvalidInput, NonPositiveAmount, ServerNotFound}
    ensures r.out.Ok? ==>
              && WellFormed(serverId, Coalesce(bodyUuid, jwtUuid), amount) && amount.value > 0
              && GroupOf(st, serverId.value).Some?
    ensures r.out.Ok? ==>
              var key := (GroupOf(st, serverId.value).value, Coalesce(bodyUuid, jwtUuid).value);
              && r.post == st.(accounts := r.post.accounts)
              && key in r.post.accounts
              && r.post.accounts[key] == BalanceOrZero(st.accounts, key) + amount.value
              && r.out.value == r.post.accounts[key]
              && AgreeExcept(st.accounts, r.post.accounts, {key})
  {
    var uuid := Coalesce(bodyUuid, jwtUuid);
    if !WellFormed(serverId, uuid, amount) then Step(Err(InvalidInput), st)
    else if amount.value <= 0 then Step(Err(NonPositiveAmount), st)
    else match GroupOf(st, serverId.value)
      case None => Step(Err(ServerNotFound), st)
      case Some(g) =>
        // INSERT ... VALUES (g, uuid, amount)
        // ON CONFLICT DO UPDATE SET balance = accounts.balance + EXCLUDED.balance
        var key := (g, uuid.value);
        var balance := if key in st.accounts then st.accounts[key] + amount.value else amount.value;
        Step(Ok(balance), st.(accounts := st.accounts[key := balance]))
  }

  /** A committed deposit keeps every balance non-negative and every
      account inside an existing group. */
  lemma DepositPreservesValid(st: State, serverId: Option<ServerId>, bodyUuid: Option<Uuid>,
                              jwtUuid: Option<Uuid>, amount: Option<int>)
    requires Valid(st)
    ensures Valid(Deposit(st, serverId, bodyUuid, jwtUuid, amount).post)
  {
  }
}
