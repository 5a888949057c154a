/**
  `POST /currency/login`: authenticate a game server by id and API key,
  give the server a group on first use, and make sure the player and the
  player's account in that group exist. The token the handler signs is
  foreign; its claims are the success payload here.
 */
module LoginRoute {
  import opened Wrappers
  import opened Store

  /** The claims the handler puts in the signed token (besides row ids). */
  datatype Session = Session(uuid: Uuid, name: string, serverId: ServerId, groupId: GroupId)

  /** The header checks pass: a non-zero, finite server id and a non-empty key. */
  predicate HasCredentials(serverId: Option<ServerId>, serverKey: Option<string>) {
    TruthyId(serverId) && Truthy(serverKey)
  }

  /** The handler's transaction. `verify(hash, input)` stands for argon2's
      verification, `salt` for `SERVER_API_SALT` (empty when unset), and
      `freshGroup` for the id the `server_groups` sequence hands out. */
  function Login(st: State, uuid: Option<Uuid>, name: Option<string>, serverId: Option<ServerId>,
                 serverKey: Option<string>, salt: string, verify: (string, string) -> bool,
                 freshGroup: GroupId): (r: Step<Session>)
    requires freshGroup !in st.groups
    ensures r.out.Err? ==> r.post == st
    ensures r.out == Err(MissingIdentity) <==> !Truthy(uuid) || !Truthy(name)
    ensures r.out == Err(MissingCredentials)
            <==> Truthy(uuid) && Truthy(name) && !HasCredentials(serverId, serverKey)
    ensures r.out == Err(InvalidServer)
            <==> Truthy(uuid) && Truthy(name) && HasCredentials(serverId, serverKey)
                 && serverId.value !in st.servers
    ensures r.out == Err(InvalidServerKey)
            <==> && Truthy(uuid) && Truthy(name) && HasCredentials(serverId, serverKey)
                 && serverId.value in st.servers
                 && !verify(st.servers[serverId.value].keyHash, serverKey.value + salt)
    ensures r.out.Err? ==> r.out.failure in {MissingIdentity, MissingCredentials, InvalidServer, InvalidServerKey}
    ensures r.out.Ok? ==>
              && Truthy(uuid) && Truthy(name) && HasCredentials(serverId, serverKey)
              && serverId.value in st.servers
              && verify(st.servers[serverId.value].keyHash, serverKey.value + salt)
    ensures r.out.Ok? ==>
              var sid, u, s := serverId.value, uuid.value, r.out.value;
              var server := st.servers[sid];
              && s == Session(u, name.value, sid, s.groupId)
              // lazy group assignment
              && (server.group.Some? ==>
                    s.groupId == server.group.value && r.post.groups == st.groups && r.post.servers == st.servers)
              && (server.group.None? ==>
                    && s.groupId == freshGroup
                    && r.post.groups == st.groups[freshGroup := None]
                    && r.post.servers == st.servers[sid := server.(group := Some(freshGroup))])
              // player upsert: the username is replaced, the Discord link kept
              && (sid, u) in r.post.players
              && r.post.players[(sid, u)].username == name.value
              && r.post.players[(sid, u)].discordId
                 == (if (sid, u) in st.players then st.players[(sid, u)].discordId else None)
              && AgreeExcept(st.players, r.post.players, {(sid, u)})
              // account upsert: an existing balance is untouched, a new one starts at 0
              && (s.groupId, u) in r.post.accounts
              && r.post.accounts[(s.groupId, u)] == BalanceOrZero(st.accounts, (s.groupId, u))
              && AgreeExcept(st.accounts, r.post.accounts, {(s.groupId, u)})
              && r.post.dailyClaims == st.dailyClaims && r.post.userFunds == st.userFunds
  {
    if !Truthy(uuid) || !Truthy(name) then Step(Err(MissingIdentity), st)
    else if !HasCredentials(serverId, serverKey) then Step(Err(MissingCredentials), st)
    else if serverId.value !in st.servers then Step(Err(InvalidServer), st)
    else if !verify(st.servers[serverId.value].keyHash, serverKey.value + salt) then Step(Err(InvalidServerKey), st)
    else
      var sid, u := serverId.value, uuid.value;
      var st1 := AssignGroup(st, sid, freshGroup);
      var g := st1.servers[sid].group.value;
      var st2 := st1.(players := UpsertPlayer(st1.players, (sid, u), name.value),
                      accounts := EnsureAccount(st1.accounts, (g, u)));
      Step(Ok(Session(u, name.value, sid, g)), st2)
  }

  /** Gives a server without a group the fresh group (with no name);
      a server that has a group keeps it and nothing changes. */
  function AssignGroup(st: State, sid: ServerId, freshGroup: GroupId): (r: State)
    requires sid in st.servers
    ensures sid in r.servers && r.servers[sid].group.Some?
    ensures r.players == st.players && r.accounts == st.accounts
    ensures r.dailyClaims == st.dailyClaims && r.userFunds == st.userFunds
    ensures st.servers[sid].group.Some? ==> r == st
    ensures st.servers[sid].group.None? ==>
              && r.servers[sid].group == Some(freshGroup)
              && r.groups == st.groups[freshGroup := None]
              && r.servers == st.servers[sid := st.servers[sid].(group := Some(freshGroup))]
  {
    var server := st.servers[sid];
    if server.group.Some? then st
    else st.(groups := st.groups[freshGroup := None],
             servers := st.servers[sid := server.(group := Some(freshGroup))])
  }

  /** `INSERT INTO players ... ON CONFLICT DO UPDATE SET username`: the
      player exists with the new username and keeps its Discord link (none
      for a new player); no other player changes. */
  function UpsertPlayer(players: map<(ServerId, Uuid), Player>, key: (ServerId, Uuid), name: string)
    : (r: map<(ServerId, Uuid), Player>)
    ensures key in r && r[key].username == name
    ensures r[key].discordId == (if key in players then players[key].discordId else None)
    ensures AgreeExcept(players, r, {key})
  {
    var player := if key in players then players[key].(username := name) else Player(name, None);
    players[key := player]
  }

  /** A committed login keeps balances non-negative and every foreign key
      valid, including the newly assigned group. */
  lemma LoginPreservesValid(st: State, uuid: Option<Uuid>, name: Option<string>, serverId: Option<ServerId>,
                            serverKey: Option<string>, salt: string, verify: (string, string) -> bool,
                            freshGroup: GroupId)
    requires Valid(st) && freshGroup !in st.groups
    ensures Valid(Login(st, uuid, name, serverId, serverKey, salt, verify, freshGroup).post)
  {
  }

  /** Logging in again with the same request changes nothing: the group is
      already assigned, the player and the account already exist. */
  lemma LoginIdempotent(st: State, uuid: Option<Uuid>, name: Option<string>, serverId: Option<ServerId>,
                        serverKey: Option<string>, salt: string, verify: (string, string) -> bool,
                        freshGroup: GroupId, freshGroup2: GroupId)
    requires freshGroup !in st.groups
    requires freshGroup2 !in Login(st, uuid, name, serverId, serverKey, salt, verify, freshGroup).post.groups
    ensures var first := Login(st, uuid, name, serverId, serverKey, salt, verify, freshGroup);
            var second := Login(first.post, uuid, name, serverId, serverKey, salt, verify, freshGroup2);
            second.post == first.post && second.out == first.out
  {
    var first := Login(st, uuid, name, serverId, serverKey, salt, verify, freshGroup);
    var second := Login(first.post, uuid, name, serverId, serverKey, salt, verify, freshGroup2);
    if first.out.Ok? {
      var sid, u := serverId.value, uuid.value;
      var g := first.out.value.groupId;
      assert first.post.servers[sid].keyHash == st.servers[sid].keyHash;
      assert second.out.Ok?;
      assert first.post.players[(sid, u)].(username := name.value) == first.post.players[(sid, u)];
      assert second.post.players == first.post.players;
      assert second.post.accounts == first.post.accounts;
    }
  }
}
