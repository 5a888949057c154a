/**
  `POST /currency/pay`: move `amount` from the sender's to the recipient's
  row of the flat `user_funds` ledger, in one transaction.
 */
module PayRoute {
  import opened Wrappers
  import opened Store

  /** The first guard: a sender (the body's, else the token's), a recipient
      and a numeric amount. */
  predicate WellFormed(from: Option<Uuid>, to: Option<Uuid>, amount: Option<int>) {
    Truthy(from) && Truthy(to) && amount.Some?
  }

  /** Every check before the transaction passes. */
  predicate Admissible(from: Option<Uuid>, to: Option<Uuid>, amount: Option<int>) {
    WellFormed(from, to, amount) && amount.value > 0 && from.value != to.value
  }

  /** The handler's transaction on `user_funds`. The result carries
      `new_sender_balance`. */
  function Pay(st: State, fromUuid: Option<Uuid>, jwtUuid: Option<Uuid>, toUuid: Option<Uuid>,
               amount: Option<int>): (r: Step<int>)
    ensures r.out.Err? ==> r.post == st
    ensures r.out == Err(InvalidInput) <==> !WellFormed(Coalesce(fromUuid, jwtUuid), toUuid, amount)
    ensures r.out == Err(NonPositiveAmount)
            <==> WellFormed(Coalesce(fromUuid, jwtUuid), toUuid, amount) && amount.value <= 0
    ensures r.out == Err(SelfPay)
            <==> && WellFormed(Coalesce(fromUuid, jwtUuid), toUuid, amount) && amount.value > 0
                 && Coalesce(fromUuid, jwtUuid).value == toUuid.value
    ensures r.out == Err(SenderNotFound)
            <==> Admissible(Coalesce(fromUuid, jwtUuid), toUuid, amount)
                 && Coalesce(fromUuid, jwtUuid).value !in st.userFunds
    ensures r.out == Err(InsufficientFunds)
            <==> && Admissible(Coalesce(fromUuid, jwtUuid), toUuid, amount)
                 && Coalesce(fromUuid, jwtUuid).value in st.userFunds
                 && st.userFunds[Coalesce(fromUuid, jwtUuid).value] < amount.value
    ensures r.out == Err(RecipientNotFound)
            <==> && Admissible(Coalesce(fromUuid, jwtUuid), toUuid, amount)
                 && Coalesce(fromUuid, jwtUuid).value in st.userFunds
                 && st.userFunds[Coalesce(fromUuid, jwtUuid).value] >= amount.value
                 && toUuid.value !in st.userFunds
    ensures r.out.Err? ==>
              r.out.failure in {InvalidInput, NonPositiveAmount, SelfPay, SenderNotFound,
                                InsufficientFunds, RecipientNotFound}
    ensures r.out.Ok? ==> Admissible(Coalesce(fromUuid, jwtUuid), toUuid, amount)
    ensures r.out.Ok? ==>
              var from, to, funds, funds' := Coalesce(fromUuid, jwtUuid).value, toUuid.value, st.userFunds, r.post.userFunds;
              && r.post == st.(userFunds := funds')
              && from in funds && to in funds && from in funds' && to in funds'
              && funds'[from] == funds[from] - amount.value
              && funds'[to] == funds[to] + amount.value
              && AgreeExcept(funds, funds', {from, to})
              && r.out.value == funds'[from] >= 0
  {
    var from := Coalesce(fromUuid, jwtUuid);
    if !WellFormed(from, toUuid, amount) then Step(Err(InvalidInput), st)
    else if amount.value <= 0 then Step(Err(NonPositiveAmount), st)
    else if from.value == toUuid.value then Step(Err(SelfPay), st)
    else if from.value !in st.userFunds then Step(Err(SenderNotFound), st)
    else
      var senderBal := st.userFunds[from.value];
      if senderBal < amount.value then Step(Err(InsufficientFunds), st)
      else
        var debited := st.userFunds[from.value := senderBal - amount.value];
        // the recipient's UPDATE matched no row: ROLLBACK undoes the debit
        if toUuid.value !in debited then Step(Err(RecipientNotFound), st)
        else
          var credited := debited[toUuid.value := debited[toUuid.value] + amount.value];
          Step(Ok(senderBal - amount.value), st.(userFunds := credited))
  }

  /** The handler as written, with its pre-flight. Before the transaction
      it calls `getUserBalance(db, from_uuid)`: the sender's uuid is bound
      to the server-id parameter and the uuid parameter is left NULL.
      `castFails` says whether PostgreSQL rejects that uuid as an integer
      server id (the 500 answer); when it does not, `holder_uuid = NULL`
      matches no row and the answer is "sender not found". */
  function PayAsWritten(st: State, fromUuid: Option<Uuid>, jwtUuid: Option<Uuid>, toUuid: Option<Uuid>,
                        amount: Option<int>, castFails: bool): (r: Step<int>)
    ensures r.post == st
    ensures !Admissible(Coalesce(fromUuid, jwtUuid), toUuid, amount) ==>
              r.out.Err? && r.out.failure in {InvalidInput, NonPositiveAmount, SelfPay}
    ensures Admissible(Coalesce(fromUuid, jwtUuid), toUuid, amount) ==>
              r.out.Err? && r.out.failure in {InternalError, SenderNotFound}
  {
    if !Admissible(Coalesce(fromUuid, jwtUuid), toUuid, amount) then Pay(st, fromUuid, jwtUuid, toUuid, amount)
    else Step(Err(if castFails then InternalError else SenderNotFound), st)
  }

  /** The pre-flight refuses every payment the transaction would commit:
      as written, the handler never moves money, whatever the database
      does with the misplaced uuid. */
  lemma PayAsWrittenNeverCommits(st: State, fromUuid: Option<Uuid>, jwtUuid: Option<Uuid>,
                                 toUuid: Option<Uuid>, amount: Option<int>, castFails: bool)
    ensures var r := PayAsWritten(st, fromUuid, jwtUuid, toUuid, amount, castFails);
            && r.out.Err? && r.post == st
            && (Pay(st, fromUuid, jwtUuid, toUuid, amount).out.Ok? ==>
                  r.out.failure == (if castFails then InternalError else SenderNotFound))
  {
    if !Admissible(Coalesce(fromUuid, jwtUuid), toUuid, amount) {
      assert Pay(st, fromUuid, jwtUuid, toUuid, amount).out.Err?;
    }
  }

  /** A payment the transaction commits: both rows exist, the sender can
      afford it and pays someone else. The handler as written refuses it. */
  lemma PayRefusedAsWritten(st: State, from: Uuid, to: Uuid, amount: int, castFails: bool)
    requires from != "" && to != "" && from != to && amount > 0
    requires from in st.userFunds && to in st.userFunds && st.userFunds[from] >= amount
    ensures Pay(st, Some(from), None, Some(to), Some(amount)).out == Ok(st.userFunds[from] - amount)
    ensures PayAsWritten(st, Some(from), None, Some(to), Some(amount), castFails).out.Err?
  {
    PayAsWrittenNeverCommits(st, Some(from), None, Some(to), Some(amount), castFails);
  }

  /** A committed payment keeps every `user_funds` balance non-negative. */
  lemma PayPreservesValid(st: State, fromUuid: Option<Uuid>, jwtUuid: Option<Uuid>, toUuid: Option<Uuid>,
                          amount: Option<int>)
    requires Valid(st)
    ensures Valid(Pay(st, fromUuid, jwtUuid, toUuid, amount).post)
  {
  }

  /** Conservation: a payment, committed or not, leaves the sum of all
      `user_funds` balances unchanged. */
  lemma PayConservesTotal(st: State, fromUuid: Option<Uuid>, jwtUuid: Option<Uuid>, toUuid: Option<Uuid>,
                          amount: Option<int>)
    ensures Total(Pay(st, fromUuid, jwtUuid, toUuid, amount).post.userFunds) == Total(st.userFunds)
  {
    var r := Pay(st, fromUuid, jwtUuid, toUuid, amount);
    if r.out.Ok? {
      TotalTwoEntries(st.userFunds, r.post.userFunds, Coalesce(fromUuid, jwtUuid).value, toUuid.value);
    }
  }

  /** One payment request, as the handler receives it. */
  datatype PayRequest = PayRequest(fromUuid: Option<Uuid>, jwtUuid: Option<Uuid>, toUuid: Option<Uuid>,
                                   amount: Option<int>)

  /** The state after serving `reqs` one after another. */
  function RunPays(st: State, reqs: seq<PayRequest>): State
    decreases |reqs|
  {
    if |reqs| == 0 then st
    else
      var q := reqs[0];
      RunPays(Pay(st, q.fromUuid, q.jwtUuid, q.toUuid, q.amount).post, reqs[1..])
  }

  /** Conservation over any sequence of payments, each one serialised by
      its row locks: the total of `user_funds` never changes, and no
      balance ever goes negative. */
  lemma {:induction false} RunPaysConserves(st: State, reqs: seq<PayRequest>)
    requires Valid(st)
    ensures Total(RunPays(st, reqs).userFunds) == Total(st.userFunds)
    ensures Valid(RunPays(st, reqs))
    decreases |reqs|
  {
    if |reqs| > 0 {
      var q := reqs[0];
      var next := Pay(st, q.fromUuid, q.jwtUuid, q.toUuid, q.amount).post;
      PayConservesTotal(st, q.fromUuid, q.jwtUuid, q.toUuid, q.amount);
      PayPreservesValid(st, q.fromUuid, q.jwtUuid, q.toUuid, q.amount);
      RunPaysConserves(next, reqs[1..]);
    }
  }
}
