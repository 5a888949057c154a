/**
  `POST /currency/daily`: credit a fixed reward once per reset window to a
  linked player's account in the group of the player's server, recording
  the claim time on the account's single `daily_rewards` row.

  Time is Europe/Berlin wall-clock time in whole seconds; every day is
  `Day` seconds long and a day starts at a multiple of `Day`.
 */
module DailyRoute {
  import opened Wrappers
  import opened Store

  const Day: int := 86400
  /** The daily reset, 06:30:00, as seconds after midnight. */
  const ResetOffset: int := 6 * 3600 + 30 * 60
  const RewardAmount: int := 50

  /** Midnight at the start of the day containing `t`. */
  function StartOfDay(t: Time): (r: Time)
    ensures r <= t < r + Day && r % Day == 0
  {
    t - t % Day
  }

  /** A reset instant: 06:30 of some day. */
  predicate IsBoundary(t: Time) {
    t % Day == ResetOffset
  }

  /** `getLastReset(now)` as the handler writes it: today's 06:30 once it
      has passed; before it, exactly one day before `now` (not yesterday's
      06:30). */
  function LastReset(now: Time): (r: Time)
    ensures now - Day <= r <= now
    ensures IsBoundary(r) || r == now - Day
  {
    var resetTime := StartOfDay(now) + ResetOffset;
    if now < resetTime then now - Day else resetTime
  }

  /** The start of the current window as intended: the latest 06:30 at or
      before `now`. */
  function LastBoundary(now: Time): (r: Time)
    ensures IsBoundary(r) && r <= now < r + Day
  {
    var today := StartOfDay(now) + ResetOffset;
    if now < today then today - Day else today
  }

  /** `LastBoundary` is the greatest reset instant not after `now`. */
  lemma LastBoundaryIsLatest(now: Time, b: Time)
    requires IsBoundary(b) && b <= now
    ensures b <= LastBoundary(now)
  {
  }

  /** The handler's reset agrees with the intended one exactly when `now`
      is at or after today's 06:30; before it the handler's window starts
      earlier. */
  lemma LastResetVersusBoundary(now: Time)
    ensures LastReset(now) <= LastBoundary(now)
    ensures LastReset(now) == LastBoundary(now) <==> now % Day >= ResetOffset
  {
  }

  /** The player row exists and carries a non-empty Discord id. */
  predicate Linked(st: State, serverId: ServerId, uuid: Uuid) {
    (serverId, uuid) in st.players && Truthy(st.players[(serverId, uuid)].discordId)
  }

  /** The account the handler's `servers JOIN accounts` finds, if any. */
  function AccountKey(st: State, serverId: ServerId, uuid: Uuid): (r: Option<(GroupId, Uuid)>)
    ensures r.Some? <==> exists g :: (g, uuid) in st.accounts && serverId in st.servers
                                       && st.servers[serverId].group == Some(g)
    ensures r.Some? ==> r.value in st.accounts && r.value.1 == uuid
                        && st.servers[serverId].group == Some(r.value.0)
  {
    match GroupOf(st, serverId)
    case None => None
    case Some(g) => if (g, uuid) in st.accounts then Some((g, uuid)) else None
  }

  /** The claim for a window that started at `lastReset`. A refusal
      carries the next reset, `lastReset + Day`. */
  function ClaimWithReset(st: State, uuid: Option<Uuid>, serverId: Option<ServerId>, now: Time,
                          lastReset: Time): (r: Step<int>)
    ensures r.out.Err? ==> r.post == st
    ensures r.out == Err(InvalidInput) <==> !Truthy(uuid) || !TruthyId(serverId)
    ensures r.out == Err(NotLinked)
            <==> Truthy(uuid) && TruthyId(serverId) && !Linked(st, serverId.value, uuid.value)
    ensures r.out == Err(AccountNotFound)
            <==> && Truthy(uuid) && TruthyId(serverId) && Linked(st, serverId.value, uuid.value)
                 && AccountKey(st, serverId.value, uuid.value).None?
    ensures r.out.Err? && r.out.failure.AlreadyClaimed?
            <==> && Truthy(uuid) && TruthyId(serverId) && Linked(st, serverId.value, uuid.value)
                 && AccountKey(st, serverId.value, uuid.value).Some?
                 && AccountKey(st, serverId.value, uuid.value).value in st.dailyClaims
                 && st.dailyClaims[AccountKey(st, serverId.value, uuid.value).value] >= lastReset
    ensures r.out.Err? && r.out.failure.AlreadyClaimed? ==> r.out.failure.nextReset == lastReset + Day
    ensures r.out.Err? ==> r.out.failure.AlreadyClaimed? || r.out.failure in {InvalidInput, NotLinked, AccountNotFound}
    ensures r.out.Ok? ==>
              && Truthy(uuid) && TruthyId(serverId) && Linked(st, serverId.value, uuid.value)
              && AccountKey(st, serverId.value, uuid.value).Some?
    ensures r.out.Ok? ==>
              var key := AccountKey(st, serverId.value, uuid.value).value;
              && (key in st.dailyClaims ==> st.dailyClaims[key] < lastReset)
              && r.post == st.(accounts := r.post.accounts, dailyClaims := r.post.dailyClaims)
              && key in r.post.accounts && key in r.post.dailyClaims
              && r.post.accounts[key] == st.accounts[key] + RewardAmount
              && r.post.dailyClaims[key] == now
              && AgreeExcept(st.accounts, r.post.accounts, {key})
              && AgreeExcept(st.dailyClaims, r.post.dailyClaims, {key})
              && r.out.value == r.post.accounts[key]
  {
    if !Truthy(uuid) || !TruthyId(serverId) then Step(Err(InvalidInput), st)
    else if !Linked(st, serverId.value, uuid.value) then Step(Err(NotLinked), st)
    else match AccountKey(st, serverId.value, uuid.value)
      case None => Step(Err(AccountNotFound), st)
      case Some(key) =>
        if key in st.dailyClaims && st.dailyClaims[key] >= lastReset then
          Step(Err(AlreadyClaimed(lastReset + Day)), st)
        else
          var balance := st.accounts[key] + RewardAmount;
          // UPDATE accounts ...; INSERT INTO daily_rewards ... ON CONFLICT (account_id) DO UPDATE
          Step(Ok(balance), st.(accounts := st.accounts[key := balance],
                                dailyClaims := st.dailyClaims[key := now]))
  }

  /** The handler as written, with its own `getLastReset`. A refusal
      names a next reset no earlier than `now` and at most a day away. */
  function Claim(st: State, uuid: Option<Uuid>, serverId: Option<ServerId>, now: Time): (r: Step<int>)
    ensures r.out.Err? ==> r.post == st
    ensures r.out.Err? && r.out.failure.AlreadyClaimed? ==> now <= r.out.failure.nextReset <= now + Day
  {
    ClaimWithReset(st, uuid, serverId, now, LastReset(now))
  }

  /** The claim with the window starting at the latest 06:30. A refusal
      names a next reset strictly after `now` and at most a day away,
      and that is a 06:30. */
  function ClaimCorrected(st: State, uuid: Option<Uuid>, serverId: Option<ServerId>, now: Time): (r: Step<int>)
    ensures r.out.Err? ==> r.post == st
    ensures r.out.Err? && r.out.failure.AlreadyClaimed? ==>
              now < r.out.failure.nextReset <= now + Day && IsBoundary(r.out.failure.nextReset)
  {
    ClaimWithReset(st, uuid, serverId, now, LastBoundary(now))
  }

  /** A committed claim keeps every balance non-negative and keeps the
      claim row attached to an existing account. */
  lemma ClaimPreservesValid(st: State, uuid: Option<Uuid>, serverId: Option<ServerId>, now: Time,
                            lastReset: Time)
    requires Valid(st)
    ensures Valid(ClaimWithReset(st, uuid, serverId, now, lastReset).post)
  {
  }

  /** Right after a committed claim, the same claim at the same instant is
      refused and changes nothing. */
  lemma ClaimTwiceSameInstant(st: State, uuid: Option<Uuid>, serverId: Option<ServerId>, now: Time)
    requires Claim(st, uuid, serverId, now).out.Ok?
    ensures var st' := Claim(st, uuid, serverId, now).post;
            var second := Claim(st', uuid, serverId, now);
            second.out.Err? && second.out.failure.AlreadyClaimed? && second.post == st'
  {
    var st' := Claim(st, uuid, serverId, now).post;
    var key := AccountKey(st, serverId.value, uuid.value).value;
    assert AccountKey(st', serverId.value, uuid.value) == Some(key);
  }

  /** Exclusivity within one window, as written: after a claim committed at
      `t1`, any later claim before the next 06:30 is refused. */
  lemma ClaimOncePerWindow(st: State, uuid: Option<Uuid>, serverId: Option<ServerId>, t1: Time, t2: Time)
    requires Claim(st, uuid, serverId, t1).out.Ok?
    requires t1 <= t2 < LastBoundary(t1) + Day
    ensures var st' := Claim(st, uuid, serverId, t1).post;
            Claim(st', uuid, serverId, t2).out.Err?
  {
    var st' := Claim(st, uuid, serverId, t1).post;
    var key := AccountKey(st, serverId.value, uuid.value).value;
    assert AccountKey(st', serverId.value, uuid.value) == Some(key);
    WindowContainsEarlierClaim(t1, t2);
  }

  /** Both window starts for `t2` are at or before any `t1 <= t2` in the
      same intended window. */
  lemma WindowContainsEarlierClaim(t1: Time, t2: Time)
    requires t1 <= t2 < LastBoundary(t1) + Day
    ensures LastReset(t2) <= t1 && LastBoundary(t2) <= t1
  {
    LastBoundaryIsLatest(t2, LastBoundary(t1));
    LastResetVersusBoundary(t2);
  }

  /** Exclusivity within one window for the corrected claim. */
  lemma ClaimCorrectedOncePerWindow(st: State, uuid: Option<Uuid>, serverId: Option<ServerId>, t1: Time, t2: Time)
    requires ClaimCorrected(st, uuid, serverId, t1).out.Ok?
    requires t1 <= t2 < LastBoundary(t1) + Day
    ensures var st' := ClaimCorrected(st, uuid, serverId, t1).post;
            ClaimCorrected(st', uuid, serverId, t2).out.Err?
  {
    var st' := ClaimCorrected(st, uuid, serverId, t1).post;
    var key := AccountKey(st, serverId.value, uuid.value).value;
    assert AccountKey(st', serverId.value, uuid.value) == Some(key);
    WindowContainsEarlierClaim(t1, t2);
  }

  /** The discrepancy, as written: before 06:30, a player whose last claim
      predates the latest 06:30 reset (so a reset has passed since) is
      still refused whenever that claim is less than a day old — for
      instance a claim at 06:00 followed by one at 05:00 the next day. */
  lemma ClaimRefusedAfterReset(st: State, uuid: Uuid, serverId: ServerId, now: Time)
    requires uuid != "" && serverId != 0 && Linked(st, serverId, uuid)
    requires AccountKey(st, serverId, uuid).Some?
    requires var key := AccountKey(st, serverId, uuid).value;
             key in st.dailyClaims && now - Day <= st.dailyClaims[key] < LastBoundary(now)
    requires now % Day < ResetOffset
    ensures Claim(st, Some(uuid), Some(serverId), now).out.Err?
    ensures ClaimCorrected(st, Some(uuid), Some(serverId), now).out.Ok?
  {
  }

  /** The corrected claim succeeds once a reset has passed since the last
      claim, for a linked player with an account. */
  lemma ClaimCorrectedAfterReset(st: State, uuid: Uuid, serverId: ServerId, now: Time)
    requires uuid != "" && serverId != 0 && Linked(st, serverId, uuid)
    requires AccountKey(st, serverId, uuid).Some?
    requires var key := AccountKey(st, serverId, uuid).value;
             key in st.dailyClaims ==> exists b :: IsBoundary(b) && st.dailyClaims[key] < b <= now
    ensures ClaimCorrected(st, Some(uuid), Some(serverId), now).out.Ok?
  {
    var key := AccountKey(st, serverId, uuid).value;
    if key in st.dailyClaims {
      var b :| IsBoundary(b) && st.dailyClaims[key] < b <= now;
      LastBoundaryIsLatest(now, b);
    }
  }
}
