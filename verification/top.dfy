/**
  `GET /currency/top`: the ten richest players of the caller's server, by
  their balance in the server's group. The handler reads only; here it
  returns no state.
 */
module TopRoute {
  import opened Wrappers
  import opened Store

  /** The query's `LIMIT`. */
  const Limit: nat := 10

  /** One row of `players JOIN servers JOIN accounts`. */
  datatype Row = Row(uuid: Uuid, name: string, balance: int)

  /** One entry of the response. */
  datatype TopUser = TopUser(name: string, balance: int)

  /** The rows the query's joins and `WHERE p.server_id = $1` produce: one
      per player of the server that has an account in the server's group. */
  function JoinedRows(st: State, serverId: ServerId): set<Row> {
    set k | k in st.players && k.0 == serverId && serverId in st.servers
            && st.servers[serverId].group.Some?
            && (st.servers[serverId].group.value, k.1) in st.accounts
          :: Row(k.1, st.players[k].username, st.accounts[(st.servers[serverId].group.value, k.1)])
  }

  /** `top` is a valid answer to `ORDER BY balance DESC LIMIT limit` over
      `rows`: as many distinct rows as the limit allows, in non-increasing
      balance order, and no row left out has a larger balance than the
      last one kept. Ties may come in any order. */
  ghost predicate IsTop(rows: set<Row>, top: seq<Row>, limit: nat) {
    && |top| == (if |rows| < limit then |rows| else limit)
    && (forall i :: 0 <= i < |top| ==> top[i] in rows)
    && (forall i, j :: 0 <= i < j < |top| ==> top[i] != top[j])
    && (forall i, j :: 0 <= i < j < |top| ==> top[i].balance >= top[j].balance)
    && (forall x :: x in rows && x !in top ==> forall i :: 0 <= i < |top| ==> x.balance <= top[i].balance)
  }

  /** A row of largest balance. */
  method MaxRow(s: set<Row>) returns (m: Row)
    requires s != {}
    ensures m in s
    ensures forall x :: x in s ==> x.balance <= m.balance
  {
    m :| m in s;
    var todo := s - {m};
    while todo != {}
      invariant todo <= s && m in s
      invariant forall x :: x in s && x !in todo ==> x.balance <= m.balance
      decreases todo
    {
      var x :| x in todo;
      if x.balance > m.balance {
        m := x;
      }
      todo := todo - {x};
    }
  }

  /** Selects the top `limit` rows by repeatedly taking a largest one. */
  method SelectTop(rows: set<Row>, limit: nat) returns (top: seq<Row>)
    ensures IsTop(rows, top, limit)
  {
    top := [];
    var rest := rows;
    while |top| < limit && rest != {}
      invariant rest <= rows
      invariant |top| + |rest| == |rows|
      invariant |top| <= limit
      invariant forall x :: x in rows ==> (x in rest <==> x !in top)
      invariant forall i :: 0 <= i < |top| ==> top[i] in rows
      invariant forall i, j :: 0 <= i < j < |top| ==> top[i] != top[j]
      invariant forall i, j :: 0 <= i < j < |top| ==> top[i].balance >= top[j].balance
      invariant forall x :: x in rest ==> forall i :: 0 <= i < |top| ==> x.balance <= top[i].balance
      decreases rest
    {
      var m := MaxRow(rest);
      top := top + [m];
      rest := rest - {m};
    }
  }

  /** The response entries for the selected rows. */
  function Entries(top: seq<Row>): (r: seq<TopUser>)
    ensures |r| == |top|
    ensures forall i :: 0 <= i < |top| ==> r[i] == TopUser(top[i].name, top[i].balance)
  {
    if |top| == 0 then [] else [TopUser(top[0].name, top[0].balance)] + Entries(top[1..])
  }

  /** The handler: a server id is required; the answer is the projection
      of a valid top-`Limit` selection of the joined rows. */
  method Top(st: State, serverId: Option<ServerId>) returns (r: Outcome<seq<TopUser>>)
    ensures r == Err(InvalidInput) <==> !TruthyId(serverId)
    ensures r.Err? ==> r.failure == InvalidInput
    ensures r.Ok? ==> TruthyId(serverId)
    ensures r.Ok? ==> |r.value| <= Limit
    ensures r.Ok? ==> forall i, j :: 0 <= i < j < |r.value| ==> r.value[i].balance >= r.value[j].balance
    ensures r.Ok? ==> exists top :: IsTop(JoinedRows(st, serverId.value), top, Limit) && r.value == Entries(top)
  {
    if !TruthyId(serverId) {
      return Err(InvalidInput);
    }
    var top := SelectTop(JoinedRows(st, serverId.value), Limit);
    r := Ok(Entries(top));
  }

  /** Every joined row belongs to a player of the server whose account, in
      the server's group and under the same uuid, holds that balance. */
  lemma JoinedRowsSound(st: State, serverId: ServerId, x: Row)
    requires x in JoinedRows(st, serverId)
    ensures (serverId, x.uuid) in st.players && st.players[(serverId, x.uuid)].username == x.name
    ensures GroupOf(st, serverId).Some?
    ensures var key := (GroupOf(st, serverId).value, x.uuid);
            key in st.accounts && st.accounts[key] == x.balance
  {
  }
}
