/**
  `GET /currency/balance`: the caller's row of the flat `user_funds`
  ledger. The handler reads only; here it returns no state.
 */
module BalanceRoute {
  import opened Wrappers
  import opened Store

  /** The handler's answer for the token's uuid. Balances are integers
      here, so the handler's floor is the identity. */
  function Balance(st: State, uuid: Option<Uuid>): (r: Outcome<int>)
    ensures r == Err(InvalidInput) <==> !Truthy(uuid)
    ensures r == Err(PlayerNotFound) <==> Truthy(uuid) && uuid.value !in st.userFunds
    ensures r.Err? ==> r.failure in {InvalidInput, PlayerNotFound}
    ensures r.Ok? ==> Truthy(uuid) && uuid.value in st.userFunds && r.value == st.userFunds[uuid.value]
  {
    if !Truthy(uuid) then Err(InvalidInput)
    else if uuid.value !in st.userFunds then Err(PlayerNotFound)
    else Ok(st.userFunds[uuid.value])
  }
}
