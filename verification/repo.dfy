/**
  `getUserBalance(db, serverId, uuid)`: a holder's balance in the grouped
  ledger, found by joining `accounts` with `servers` on the group id.
 */
module CurrencyRepo {
  import opened Wrappers
  import opened Store

  /** The balance of the account of `uuid` in the group of `serverId`, or
      `None` when the join yields no row. Read-only: it returns no state. */
  function GetUserBalance(st: State, serverId: ServerId, uuid: Uuid): (r: Option<int>)
    ensures r.Some? <==> exists g :: (g, uuid) in st.accounts && serverId in st.servers
                                       && st.servers[serverId].group == Some(g)
    ensures forall g :: ((g, uuid) in st.accounts && serverId in st.servers
                         && st.servers[serverId].group == Some(g)) ==> r == Some(st.accounts[(g, uuid)])
  {
    match GroupOf(st, serverId)
    case None => None
    case Some(g) => if (g, uuid) in st.accounts then Some(st.accounts[(g, uuid)]) else None
  }
}
