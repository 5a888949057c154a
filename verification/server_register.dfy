/**
  `POST /servers/register`: onboard a game server — create a new group and
  a new server in it, and hand back the server's freshly generated API key.
 */
module ServerRegisterRoute {
  import opened Wrappers
  import opened Store
  import opened Text
  import LoginRoute

  /** The success payload: the new ids and the plain API key. */
  datatype Registration = Registration(serverId: ServerId, groupId: GroupId, apiKey: string)

  /** `req.body.name?.trim()`, with an empty result read as no name. */
  function NormalizeName(name: Option<string>): (r: Option<string>)
    ensures r.Some? ==> name.Some? && r.value != "" && r.value == Trim(name.value)
    ensures r.None? ==> name.None? || Trim(name.value) == ""
  {
    match name
    case None => None
    case Some(n) => var t := Trim(n); if |t| > 0 then Some(t) else None
  }

  /** A normalised name has no white space at either end, and normalising
      it again gives it back unchanged. */
  lemma NormalizeNameIdempotent(name: Option<string>)
    ensures var r := NormalizeName(name);
            r.Some? ==> !IsSpace(r.value[0]) && !IsSpace(r.value[|r.value| - 1])
    ensures NormalizeName(NormalizeName(name)) == NormalizeName(name)
  {
    if name.Some? {
      TrimEnds(name.value, ' ');
      TrimIdempotent(name.value);
    }
  }

  /** The registration secret gate: with a non-empty secret configured, the
      header must equal it. */
  predicate Authorized(regSecret: Option<string>, provided: Option<string>) {
    !Truthy(regSecret) || provided == regSecret
  }

  /** Some server already carries this name: inserting another violates
      the unique constraint on server names. */
  predicate NameTaken(st: State, name: string) {
    exists s :: s in st.servers && st.servers[s].name == Some(name)
  }

  /** The handler's transaction. `apiKey` stands for the random key,
      `hash` for argon2's hashing, `salt` for `SERVER_API_SALT`, and the
      fresh ids for what the two tables' sequences hand out. */
  function Register(st: State, name: Option<string>, regSecret: Option<string>, provided: Option<string>,
                    apiKey: string, salt: string, hash: string -> string,
                    freshGroup: GroupId, freshServer: ServerId): (r: Step<Registration>)
    requires freshGroup !in st.groups && freshServer !in st.servers
    ensures r.out.Err? ==> r.post == st
    ensures r.out == Err(Forbidden) <==> !Authorized(regSecret, provided)
    ensures r.out == Err(NameConflict)
            <==> Authorized(regSecret, provided) && NormalizeName(name).Some?
                 && NameTaken(st, NormalizeName(name).value)
    ensures r.out.Err? ==> r.out.failure in {Forbidden, NameConflict}
    ensures r.out.Ok? ==>
              && r.out.value == Registration(freshServer, freshGroup, apiKey)
              && r.post.groups == st.groups[freshGroup := NormalizeName(name)]
              && r.post.servers
                 == st.servers[freshServer := Server(NormalizeName(name), hash(apiKey + salt), Some(freshGroup))]
              && r.post.players == st.players && r.post.accounts == st.accounts
              && r.post.dailyClaims == st.dailyClaims && r.post.userFunds == st.userFunds
  {
    var nameOrNull := NormalizeName(name);
    if !Authorized(regSecret, provided) then Step(Err(Forbidden), st)
    else if nameOrNull.Some? && NameTaken(st, nameOrNull.value) then Step(Err(NameConflict), st)
    else
      var server := Server(nameOrNull, hash(apiKey + salt), Some(freshGroup));
      Step(Ok(Registration(freshServer, freshGroup, apiKey)),
           st.(groups := st.groups[freshGroup := nameOrNull],
               servers := st.servers[freshServer := server]))
  }

  /** A committed registration keeps every foreign key valid. */
  lemma RegisterPreservesValid(st: State, name: Option<string>, regSecret: Option<string>,
                               provided: Option<string>, apiKey: string, salt: string, hash: string -> string,
                               freshGroup: GroupId, freshServer: ServerId)
    requires Valid(st) && freshGroup !in st.groups && freshServer !in st.servers
    ensures Valid(Register(st, name, regSecret, provided, apiKey, salt, hash, freshGroup, freshServer).post)
  {
  }

  /** A freshly registered server can log a player in with the key it was
      given (when argon2 accepts its own hash), and the player lands in the
      group created at registration; no further group is created. */
  lemma RegisterThenLogin(st: State, name: Option<string>, regSecret: Option<string>, provided: Option<string>,
                          apiKey: string, salt: string, hash: string -> string,
                          verify: (string, string) -> bool,
                          freshGroup: GroupId, freshServer: ServerId, freshGroup2: GroupId,
                          uuid: Uuid, username: string)
    requires Valid(st) && freshGroup !in st.groups && freshServer !in st.servers
    requires Register(st, name, regSecret, provided, apiKey, salt, hash, freshGroup, freshServer).out.Ok?
    requires verify(hash(apiKey + salt), apiKey + salt)
    requires freshServer != 0 && apiKey != "" && uuid != "" && username != ""
    requires freshGroup2 !in st.groups[freshGroup := NormalizeName(name)]
    ensures var reg := Register(st, name, regSecret, provided, apiKey, salt, hash, freshGroup, freshServer);
            var login := LoginRoute.Login(reg.post, Some(uuid), Some(username), Some(freshServer), Some(apiKey),
                                          salt, verify, freshGroup2);
            && login.out == Ok(LoginRoute.Session(uuid, username, freshServer, freshGroup))
            && login.post.groups == reg.post.groups
            && login.post.accounts[(freshGroup, uuid)] == 0
  {
  }
}
