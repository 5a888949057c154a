/**
  Properties that relate several handlers: what one handler commits,
  another reads back or undoes.
 */
module LedgerLaws {
  import opened Wrappers
  import opened Store
  import DepositRoute
  import WithdrawRoute
  import PayRoute
  import BalanceRoute
  import CurrencyRepo
  import DailyRoute

  /** The balance a committed deposit reports is what the grouped balance
      lookup then reads for the same server and holder. */
  lemma DepositThenLookup(st: State, serverId: Option<ServerId>, bodyUuid: Option<Uuid>, jwtUuid: Option<Uuid>,
                          amount: Option<int>)
    requires DepositRoute.Deposit(st, serverId, bodyUuid, jwtUuid, amount).out.Ok?
    ensures var r := DepositRoute.Deposit(st, serverId, bodyUuid, jwtUuid, amount);
            CurrencyRepo.GetUserBalance(r.post, serverId.value, Coalesce(bodyUuid, jwtUuid).value)
            == Some(r.out.value)
  {
  }

  /** Withdrawing, at denomination 1, exactly what was just deposited
      restores the balance; when the account already existed the whole
      state is restored. */
  lemma DepositThenWithdraw(st: State, serverId: ServerId, uuid: Uuid, amount: int)
    requires Valid(st)
    requires serverId != 0 && uuid != "" && amount > 0
    requires GroupOf(st, serverId).Some?
    ensures var key := (GroupOf(st, serverId).value, uuid);
            var d := DepositRoute.Deposit(st, Some(serverId), Some(uuid), None, Some(amount));
            var w := WithdrawRoute.Withdraw(d.post, Some(serverId), Some(uuid), None, Some(amount), Some(1));
            && d.out.Ok? && w.out.Ok?
            && w.out.value.newBalance == BalanceOrZero(st.accounts, key)
            && (key in st.accounts ==> w.post == st)
            && (key !in st.accounts ==> w.post == st.(accounts := st.accounts[key := 0]))
  {
    var key := (GroupOf(st, serverId).value, uuid);
    var d := DepositRoute.Deposit(st, Some(serverId), Some(uuid), None, Some(amount));
    var w := WithdrawRoute.Withdraw(d.post, Some(serverId), Some(uuid), None, Some(amount), Some(1));
    assert GroupOf(d.post, serverId) == GroupOf(st, serverId);
    if key in st.accounts {
      assert d.post.accounts == st.accounts[key := st.accounts[key] + amount];
      assert w.post.accounts == d.post.accounts[key := st.accounts[key]];
      assert w.post.accounts == st.accounts;
    } else {
      assert w.post.accounts == st.accounts[key := 0];
    }
  }

  /** The sender's balance a committed payment reports is what the balance
      handler then reads for the sender. */
  lemma PayThenBalance(st: State, fromUuid: Option<Uuid>, jwtUuid: Option<Uuid>, toUuid: Option<Uuid>,
                       amount: Option<int>)
    requires PayRoute.Pay(st, fromUuid, jwtUuid, toUuid, amount).out.Ok?
    ensures var r := PayRoute.Pay(st, fromUuid, jwtUuid, toUuid, amount);
            && BalanceRoute.Balance(r.post, Coalesce(fromUuid, jwtUuid)) == Ok(r.out.value)
            && BalanceRoute.Balance(r.post, toUuid) == Ok(st.userFunds[toUuid.value] + amount.value)
  {
  }

  /** A player "A" on server 7 of group 1, linked to Discord, holding 1000
      in both ledgers, never having claimed the daily reward. */
  function Sample(): State {
    State(
      map[1 := None],
      map[7 := Server(Some("alpha"), "hash", Some(1))],
      map[(7, "A") := Player("Alice", Some("discord-A"))],
      map[(1, "A") := 1000],
      map[],
      map["A" := 1000])
  }

  /** `Sample()` after the 2 x 100 withdrawal. */
  function AfterWithdrawal(): State {
    Sample().(accounts := map[(1, "A") := 800])
  }

  /** `AfterWithdrawal()` after the first daily claim at 10:00. */
  function AfterClaim(): State {
    AfterWithdrawal().(accounts := map[(1, "A") := 850], dailyClaims := map[(1, "A") := 36000])
  }

  /** Worked example, withdrawals: an overdraft of 12 x 100 is refused and
      changes nothing; 2 x 100 then leaves 800. */
  lemma ScenarioWithdraw()
    ensures WithdrawRoute.Withdraw(Sample(), Some(7), Some("A"), None, Some(12), Some(100))
            == Step(Err(InsufficientFunds), Sample())
    ensures var w := WithdrawRoute.Withdraw(Sample(), Some(7), Some("A"), None, Some(2), Some(100));
            w.out == Ok(WithdrawRoute.Withdrawal(200, 800, 100, 2)) && w.post == AfterWithdrawal()
  {
    assert GroupOf(Sample(), 7) == Some(1);
    var w := WithdrawRoute.Withdraw(Sample(), Some(7), Some("A"), None, Some(2), Some(100));
    assert w.post.accounts == map[(1, "A") := 800];
  }

  /** Worked example, payment: paying a uuid that has no `user_funds` row
      is refused and changes nothing. */
  lemma ScenarioPay()
    ensures PayRoute.Pay(AfterWithdrawal(), Some("A"), None, Some("B"), Some(300))
            == Step(Err(RecipientNotFound), AfterWithdrawal())
  {
    assert "A" != "B" by { assert "A"[0] != "B"[0]; }
  }

  /** Worked example, daily reward: the first claim at 10:00 credits 50,
      a second at the same instant is refused with the next reset at 06:30
      the following day, and a claim a day later credits 50 again. */
  lemma ScenarioDaily()
    ensures var c1 := DailyRoute.Claim(AfterWithdrawal(), Some("A"), Some(7), 36000);
            c1.out == Ok(850) && c1.post == AfterClaim()
    ensures DailyRoute.Claim(AfterClaim(), Some("A"), Some(7), 36000)
            == Step(Err(AlreadyClaimed(23400 + DailyRoute.Day)), AfterClaim())
    ensures DailyRoute.Claim(AfterClaim(), Some("A"), Some(7), 36000 + DailyRoute.Day).out == Ok(900)
  {
    assert DailyRoute.LastReset(36000) == 23400;
    assert DailyRoute.LastReset(36000 + DailyRoute.Day) == 23400 + DailyRoute.Day;
    assert DailyRoute.AccountKey(AfterWithdrawal(), 7, "A") == Some((1, "A"));
    assert DailyRoute.AccountKey(AfterClaim(), 7, "A") == Some((1, "A"));
    var c1 := DailyRoute.Claim(AfterWithdrawal(), Some("A"), Some(7), 36000);
    assert c1.post.accounts == map[(1, "A") := 850];
    assert c1.post.dailyClaims == map[(1, "A") := 36000];
  }
}
