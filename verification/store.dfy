/**
  The persisted state the handlers read and write, as one immutable record
  of tables, together with the failure taxonomy and the result of a
  transactional step.

  Tables (keys are the unique constraints the handlers' upserts rely on):
  - `server_groups`: group id to its optional name;
  - `servers`: server id to name, API-key hash and optional group;
  - `players`: (server id, Minecraft UUID) to username and linked Discord id;
  - `accounts`: (group id, holder UUID) to balance — the grouped ledger;
  - `daily_rewards`: one last-claim time per account, keyed here by the
    account's own (group id, holder UUID) key, since an account id is unique
    per such pair;
  - `user_funds`: holder UUID to balance — the older flat ledger still used
    by the pay and balance handlers.
 */
module Store {
  import opened Wrappers

  type ServerId = int
  type GroupId = int
  type Uuid = string
  /** Europe/Berlin wall-clock time, in whole seconds. */
  type Time = int

  datatype Server = Server(name: Option<string>, keyHash: string, group: Option<GroupId>)

  datatype Player = Player(username: string, discordId: Option<string>)

  datatype State = State(
    groups: map<GroupId, Option<string>>,
    servers: map<ServerId, Server>,
    players: map<(ServerId, Uuid), Player>,
    accounts: map<(GroupId, Uuid), int>,
    dailyClaims: map<(GroupId, Uuid), Time>,
    userFunds: map<Uuid, int>)

  /** The typed failures the handlers answer with; each handler maps them
      to its own HTTP status. */
  datatype Failure =
    | InvalidInput              // a missing identifier or a non-numeric amount
    | NonPositiveAmount
    | SelfPay
    | ServerNotFound
    | AccountNotFound
    | SenderNotFound
    | RecipientNotFound
    | PlayerNotFound
    | InsufficientFunds
    | NotLinked
    | AlreadyClaimed(nextReset: Time)
    | MissingIdentity           // login: no uuid or name
    | MissingCredentials        // login: no usable server id or key
    | InvalidServer
    | InvalidServerKey
    | Forbidden
    | NameConflict
    | InternalError             // a query the database rejects (the 500 answer)

  datatype Outcome<T> = Ok(value: T) | Err(failure: Failure)

  /** The outcome of one handler's transaction and the state after it:
      COMMIT when `out` is `Ok`, ROLLBACK otherwise. */
  datatype Step<T> = Step(out: Outcome<T>, post: State)

  /** JavaScript truthiness of an optional string: present and non-empty. */
  predicate Truthy(s: Option<string>) {
    s.Some? && s.value != ""
  }

  /** JavaScript truthiness of an optional number: present and non-zero
      (`None` stands for `undefined` and `NaN`). */
  predicate TruthyId(n: Option<int>) {
    n.Some? && n.value != 0
  }

  /** `SELECT group_id FROM servers WHERE id = $1`: absent when the server
      is unknown or its group is NULL. */
  function GroupOf(st: State, serverId: ServerId): Option<GroupId> {
    if serverId in st.servers then st.servers[serverId].group else None
  }

  /** The balance of an account, with 0 for a row that does not exist yet
      (the value `INSERT ... VALUES (..., 0)` would give it). */
  function BalanceOrZero<K>(m: map<K, int>, k: K): int {
    if k in m then m[k] else 0
  }

  /** The account upsert `INSERT ... VALUES (..., 0) ON CONFLICT`, whether
      it does nothing on conflict (withdraw) or only touches `updated_at`
      (login): the row exists afterwards, an existing balance is never
      altered, and no other row changes. */
  function EnsureAccount<K>(m: map<K, int>, k: K): (r: map<K, int>)
    ensures k in r && r[k] == BalanceOrZero(m, k)
    ensures k in m ==> r == m
    ensures AgreeExcept(m, r, {k})
  {
    if k in m then m else m[k := 0]
  }

  /** `m` and `m'` have the same keys and values outside `keys`. */
  ghost predicate AgreeExcept<K, V>(m: map<K, V>, m': map<K, V>, keys: set<K>) {
    && (forall k :: k in m && k !in keys ==> k in m' && m'[k] == m[k])
    && (forall k :: k in m' && k !in keys ==> k in m)
  }

  /** The invariant every committed state keeps: no negative balance, and
      every foreign key points at an existing row. */
  ghost predicate Valid(st: State) {
    && (forall k :: k in st.accounts ==> st.accounts[k] >= 0)
    && (forall u :: u in st.userFunds ==> st.userFunds[u] >= 0)
    && (forall s :: s in st.servers && st.servers[s].group.Some? ==> st.servers[s].group.value in st.groups)
    && (forall k :: k in st.accounts ==> k.0 in st.groups)
    && (forall k :: k in st.players ==> k.0 in st.servers)
    && (forall k :: k in st.dailyClaims ==> k in st.accounts)
  }

  /** The sum of the balances stored under `keys`. */
  ghost function SumOver<K>(m: map<K, int>, keys: set<K>): int
    requires keys <= m.Keys
    decreases keys
  {
    if keys == {} then 0 else var k :| k in keys; m[k] + SumOver(m, keys - {k})
  }

  /** The sum of all balances in a ledger table. */
  ghost function Total<K>(m: map<K, int>): int {
    SumOver(m, m.Keys)
  }

  /** `SumOver` does not depend on the order the keys are summed in: any
      key can be taken out first. */
  lemma {:induction false} SumOverRemove<K>(m: map<K, int>, keys: set<K>, k: K)
    requires keys <= m.Keys && k in keys
    ensures SumOver(m, keys) == m[k] + SumOver(m, keys - {k})
    decreases keys
  {
    var j :| j in keys && SumOver(m, keys) == m[j] + SumOver(m, keys - {j});
    if j != k {
      SumOverRemove(m, keys - {j}, k);
      SumOverRemove(m, keys - {k}, j);
      assert keys - {j} - {k} == keys - {k} - {j};
    }
  }

  /** `SumOver` reads only the values stored under `keys`. */
  lemma {:induction false} SumOverAgree<K>(m: map<K, int>, m': map<K, int>, keys: set<K>)
    requires keys <= m.Keys && keys <= m'.Keys
    requires forall k :: k in keys ==> m[k] == m'[k]
    ensures SumOver(m, keys) == SumOver(m', keys)
    decreases keys
  {
    if keys != {} {
      var k :| k in keys;
      SumOverRemove(m, keys, k);
      SumOverRemove(m', keys, k);
      SumOverAgree(m, m', keys - {k});
    }
  }

  /** Moving value between two entries without changing their sum, and
      touching nothing else, leaves the total unchanged. */
  lemma TotalTwoEntries<K>(m: map<K, int>, m': map<K, int>, a: K, b: K)
    requires a != b && a in m && b in m
    requires AgreeExcept(m, m', {a, b}) && a in m' && b in m'
    requires m'[a] + m'[b] == m[a] + m[b]
    ensures Total(m') == Total(m)
  {
    assert m'.Keys == m.Keys;
    var rest := m.Keys - {a} - {b};
    SumOverRemove(m, m.Keys, a);
    SumOverRemove(m, m.Keys - {a}, b);
    SumOverRemove(m', m.Keys, a);
    SumOverRemove(m', m.Keys - {a}, b);
    SumOverAgree(m, m', rest);
  }
}
