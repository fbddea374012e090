/** The scheduled job that collects the unclaimed balances of inactive US payment-processor
    sub-accounts (`CollectUnclaimedBalancesOfInactiveStripeAccountsJob#perform`).

    The processor is an external service: what its account, payout, charge, balance and transfer
    endpoints answer for a sub-account is an input (`Env.processor`), and so is what the local
    database knows of the seller's last sale and payout (`Env.activity`). The job reads one clock
    value `now`; the inactivity window is the parameter `inactiveAfter` (three years in production). */
module Reclamation {
  import opened Wrappers
  import Text

  const UsaAlpha2: string := "US"
  const Usd: string := "usd"
  /** The value of the charge-processor column on accounts in the `stripe` scope. */
  const StripeProcessor: string := "stripe"
  const StripeConnectMarker: string := "stripe_connect"
  const StandardAccountType: string := "standard"

  /** A merchant account row. `collectionTransferId` is the one-way marker kept in its JSON
      data; `jsonData` is the rest of that JSON text. */
  datatype MerchantAccount = MerchantAccount(
    id: nat,
    userId: nat,
    chargeProcessorId: string,
    country: string,
    chargeProcessorMerchantId: Option<string>,
    jsonData: string,
    collectionTransferId: Option<string>,
    createdAt: int)

  /** A balance row: money owed to a user, held against one merchant account. */
  datatype Balance = Balance(
    id: nat,
    userId: nat,
    merchantAccountId: nat,
    unpaid: bool,
    holdingCurrency: string,
    holdingAmountCents: int)

  /** Creation times of the user's last successful sale and last completed payment, if any. */
  datatype LocalActivity = LocalActivity(lastSaleAt: Option<int>, lastPaymentAt: Option<int>)

  datatype ProcessorAccount = ProcessorAccount(accountType: string, created: int)

  /** What the processor answers for one sub-account: the account (absent when the client gives
      nil), the creation time of the latest payout and charge, the amounts of the `available` and
      `pending` balance lists, and the id of the transfer it would create. */
  datatype ProcessorView = ProcessorView(
    account: Option<ProcessorAccount>,
    lastPayoutAt: Option<int>,
    lastChargeAt: Option<int>,
    available: seq<int>,
    pending: seq<int>,
    transferId: string)

  datatype Env = Env(
    now: int,
    inactiveAfter: int,
    platformAccountId: nat,
    activity: nat -> LocalActivity,
    processor: string -> ProcessorView)

  /** Activity after this instant makes an account active. */
  function Cutoff(env: Env): int {
    env.now - env.inactiveAfter
  }

  /** Ruby's `x&.created_at.to_i`: a missing time counts as 0. */
  function ToI(t: Option<int>): int {
    t.GetOr(0)
  }

  function Max(a: int, b: int): (m: int)
    ensures m >= a && m >= b && (m == a || m == b)
  {
    if a >= b then a else b
  }

  /** The scope the job iterates over. */
  predicate IsCandidate(a: MerchantAccount, cutoff: int) {
    && a.chargeProcessorId == StripeProcessor
    && a.country == UsaAlpha2
    && a.chargeProcessorMerchantId.Some?
    && !Text.Contains(a.jsonData, StripeConnectMarker)
    && a.collectionTransferId.None?
    && a.createdAt < cutoff
  }

  // ---------------------------------------------------------------------------------------------
  // The dormancy guards for one candidate account

  /** Calls to the processor, in the order the job makes them. */
  datatype Query = RetrieveAccount | ListPayouts | ListCharges | RetrieveBalance | CreateTransfer

  const ProcessorQueries: seq<Query> :=
    [RetrieveAccount, ListPayouts, ListCharges, RetrieveBalance, CreateTransfer]

  datatype SkipReason =
    | RecentLocalActivity
    | StandardAccount
    | RecentAccountCreation
    | RecentPayout
    | RecentCharge
    | NothingToCollect

  /** `Abort`: the balance answer has an empty `available` or `pending` list, so indexing it
      raises and the exception ends the whole run. */
  datatype Decision = Skip(reason: SkipReason) | Collect(amount: int) | Abort

  /** The decision for one account and the processor calls made to reach it. */
  datatype Assessment = Assessment(decision: Decision, queries: seq<Query>)

  predicate LocallyActive(act: LocalActivity, cutoff: int) {
    Max(ToI(act.lastSaleAt), ToI(act.lastPaymentAt)) > cutoff
  }

  /** Creation time of the processor account; a nil account counts as 0. */
  function CreatedAt(account: Option<ProcessorAccount>): int {
    if account.Some? then account.value.created else 0
  }

  predicate IsStandard(account: Option<ProcessorAccount>) {
    account.Some? && account.value.accountType == StandardAccountType
  }

  /** The guards of the job in their order, each short-circuiting. */
  function Assess(act: LocalActivity, view: ProcessorView, cutoff: int): (r: Assessment)
    ensures r.queries <= ProcessorQueries
    ensures r.decision.Collect? <==> CreateTransfer in r.queries
    ensures r.decision.Collect? ==>
              && |view.available| > 0 && |view.pending| > 0
              && r.decision.amount == view.available[0] + view.pending[0]
              && r.decision.amount > 0
    ensures r.decision == Skip(RecentLocalActivity) <==> r.queries == []
    ensures r.decision in {Skip(StandardAccount), Skip(RecentAccountCreation)} ==> r.queries == ProcessorQueries[..1]
    ensures r.decision == Skip(RecentPayout) ==> r.queries == ProcessorQueries[..2]
    ensures r.decision == Skip(RecentCharge) ==> r.queries == ProcessorQueries[..3]
    ensures r.decision in {Skip(NothingToCollect), Abort} ==> r.queries == ProcessorQueries[..4]
  {
    if LocallyActive(act, cutoff) then
      Assessment(Skip(RecentLocalActivity), [])
    else if IsStandard(view.account) then
      Assessment(Skip(StandardAccount), [RetrieveAccount])
    else if CreatedAt(view.account) > cutoff then
      Assessment(Skip(RecentAccountCreation), [RetrieveAccount])
    else if ToI(view.lastPayoutAt) > cutoff then
      Assessment(Skip(RecentPayout), [RetrieveAccount, ListPayouts])
    else if ToI(view.lastChargeAt) > cutoff then
      Assessment(Skip(RecentCharge), [RetrieveAccount, ListPayouts, ListCharges])
    else if |view.available| == 0 || |view.pending| == 0 then
      Assessment(Abort, [RetrieveAccount, ListPayouts, ListCharges, RetrieveBalance])
    else
      var amount := view.available[0] + view.pending[0];
      if amount > 0 then
        Assessment(Collect(amount), ProcessorQueries)
      else
        Assessment(Skip(NothingToCollect), [RetrieveAccount, ListPayouts, ListCharges, RetrieveBalance])
  }

  /** Every dormancy signal at or before the cutoff, and not a standard account (order-free). */
  predicate Dormant(act: LocalActivity, view: ProcessorView, cutoff: int) {
    && ToI(act.lastSaleAt) <= cutoff
    && ToI(act.lastPaymentAt) <= cutoff
    && !IsStandard(view.account)
    && CreatedAt(view.account) <= cutoff
    && ToI(view.lastPayoutAt) <= cutoff
    && ToI(view.lastChargeAt) <= cutoff
  }

  /** The guards collect exactly from dormant accounts with a positive balance. */
  lemma CollectsIffDormantWithFunds(act: LocalActivity, view: ProcessorView, cutoff: int)
    ensures Assess(act, view, cutoff).decision.Collect? <==>
              && Dormant(act, view, cutoff)
              && |view.available| > 0 && |view.pending| > 0
              && view.available[0] + view.pending[0] > 0
  {
  }

  /** Activity exactly at the cutoff counts as dormant: every comparison is strict. */
  lemma ActivityAtCutoffIsDormant(act: LocalActivity, view: ProcessorView, cutoff: int)
    requires act.lastSaleAt == Some(cutoff) && act.lastPaymentAt == Some(cutoff)
    requires view.account.Some? && view.account.value.created == cutoff
    requires view.lastPayoutAt == Some(cutoff) && view.lastChargeAt == Some(cutoff)
    ensures !IsStandard(view.account) ==> Dormant(act, view, cutoff)
    ensures Assess(act, view, cutoff).decision !in
              {Skip(RecentLocalActivity), Skip(RecentAccountCreation), Skip(RecentPayout), Skip(RecentCharge)}
  {
  }

  /** The processor answered the queries in `qs` identically in `v1` and `v2`. */
  predicate AgreeOn(v1: ProcessorView, v2: ProcessorView, qs: seq<Query>) {
    && (RetrieveAccount in qs ==> v1.account == v2.account)
    && (ListPayouts in qs ==> v1.lastPayoutAt == v2.lastPayoutAt)
    && (ListCharges in qs ==> v1.lastChargeAt == v2.lastChargeAt)
    && (RetrieveBalance in qs ==> v1.available == v2.available && v1.pending == v2.pending)
    && (CreateTransfer in qs ==> v1.transferId == v2.transferId)
  }

  /** `Assess` lists the calls each guard stops at; the assessment depends only on the answers to the
      calls it lists, so changing any answer it did not ask for changes nothing. */
  lemma OnlyQueriedAnswersMatter(act: LocalActivity, v1: ProcessorView, v2: ProcessorView, cutoff: int)
    requires AgreeOn(v1, v2, Assess(act, v1, cutoff).queries)
    ensures Assess(act, v2, cutoff) == Assess(act, v1, cutoff)
  {
  }

  // ---------------------------------------------------------------------------------------------
  // Re-pointing balance rows to the platform account

  /** The row is one of the user's unpaid USD balances held against `accountId`. */
  predicate Moves(b: Balance, userId: nat, accountId: nat) {
    b.userId == userId && b.unpaid && b.merchantAccountId == accountId && b.holdingCurrency == Usd
  }

  function Repoint(bs: seq<Balance>, userId: nat, accountId: nat, platformId: nat): (r: seq<Balance>)
    ensures |r| == |bs|
  {
    seq(|bs|, j requires 0 <= j < |bs| =>
      if Moves(bs[j], userId, accountId) then bs[j].(merchantAccountId := platformId) else bs[j])
  }

  /** The sum of the user's unpaid balances held against `accountId`; with `usdOnly`, only those
      held in USD. */
  function Held(bs: seq<Balance>, userId: nat, accountId: nat, usdOnly: bool): int
    decreases |bs|
  {
    if |bs| == 0 then 0
    else
      var b := bs[|bs| - 1];
      Held(bs[..|bs| - 1], userId, accountId, usdOnly)
        + (if b.userId == userId && b.unpaid && b.merchantAccountId == accountId
              && (!usdOnly || b.holdingCurrency == Usd)
           then b.holdingAmountCents else 0)
  }

  lemma RepointPrefix(bs: seq<Balance>, userId: nat, accountId: nat, platformId: nat)
    requires |bs| > 0
    ensures Repoint(bs, userId, accountId, platformId)[..|bs| - 1]
            == Repoint(bs[..|bs| - 1], userId, accountId, platformId)
  {
  }

  /** Re-pointing conserves money: the platform account gains exactly the USD amount the merchant
      account loses, and none of the user's unpaid USD balance stays against the merchant account. */
  lemma {:induction false} RepointConserves(bs: seq<Balance>, userId: nat, accountId: nat, platformId: nat)
    requires accountId != platformId
    ensures var r := Repoint(bs, userId, accountId, platformId);
            && Held(r, userId, platformId, false) == Held(bs, userId, platformId, false) + Held(bs, userId, accountId, true)
            && Held(r, userId, accountId, false) == Held(bs, userId, accountId, false) - Held(bs, userId, accountId, true)
            && Held(r, userId, accountId, true) == 0
    decreases |bs|
  {
    if |bs| > 0 {
      RepointConserves(bs[..|bs| - 1], userId, accountId, platformId);
      RepointPrefix(bs, userId, accountId, platformId);
    }
  }

  // ---------------------------------------------------------------------------------------------
  // The whole run, as a function of the database state

  datatype Snapshot = Snapshot(accounts: seq<MerchantAccount>, balances: seq<Balance>)

  /** A transfer made from the account at `position` of the account list. */
  datatype Transfer = Transfer(position: nat, amount: int, transferId: string)

  datatype StepResult = StepResult(snapshot: Snapshot, transfer: Option<Transfer>, aborted: bool)

  /** One iteration of the loop, for the account at position `i`. */
  function Step(s: Snapshot, i: nat, env: Env): (r: StepResult)
    requires i < |s.accounts|
    ensures |r.snapshot.accounts| == |s.accounts| && |r.snapshot.balances| == |s.balances|
  {
    var a := s.accounts[i];
    if !IsCandidate(a, Cutoff(env)) then StepResult(s, None, false)
    else
      var view := env.processor(a.chargeProcessorMerchantId.value);
      match Assess(env.activity(a.userId), view, Cutoff(env)).decision
      case Skip(_) => StepResult(s, None, false)
      case Abort => StepResult(s, None, true)
      case Collect(amount) =>
        StepResult(
          Snapshot(s.accounts[i := a.(collectionTransferId := Some(view.transferId))],
                   Repoint(s.balances, a.userId, a.id, env.platformAccountId)),
          Some(Transfer(i, amount, view.transferId)),
          false)
  }

  datatype JobResult = JobResult(snapshot: Snapshot, transfers: seq<Transfer>, completed: bool)

  /** The loop from position `i` on; an abort ends it and keeps what was done before. */
  function RunFrom(s: Snapshot, i: nat, env: Env): (r: JobResult)
    requires i <= |s.accounts|
    ensures |r.snapshot.accounts| == |s.accounts| && |r.snapshot.balances| == |s.balances|
    decreases |s.accounts| - i
  {
    if i == |s.accounts| then JobResult(s, [], true)
    else
      var st := Step(s, i, env);
      if st.aborted then JobResult(st.snapshot, [], false)
      else
        var rest := RunFrom(st.snapshot, i + 1, env);
        JobResult(rest.snapshot,
                  (if st.transfer.Some? then [st.transfer.value] else []) + rest.transfers,
                  rest.completed)
  }

  function Run(s: Snapshot, env: Env): JobResult {
    RunFrom(s, 0, env)
  }

  /** How a row may differ after the run: an account only gains a marker it did not have, a
      balance only moves to the platform account when it is an unpaid USD balance. */
  ghost predicate AccountEvolves(before: MerchantAccount, after: MerchantAccount) {
    after == before || (before.collectionTransferId.None? && after == before.(collectionTransferId := after.collectionTransferId) && after.collectionTransferId.Some?)
  }

  ghost predicate BalanceEvolves(before: Balance, after: Balance, platformId: nat) {
    after == before || (before.unpaid && before.holdingCurrency == Usd && after == before.(merchantAccountId := platformId))
  }

  ghost predicate Evolves(s: Snapshot, t: Snapshot, platformId: nat) {
    && |t.accounts| == |s.accounts| && |t.balances| == |s.balances|
    && (forall j :: 0 <= j < |s.accounts| ==> AccountEvolves(s.accounts[j], t.accounts[j]))
    && (forall j :: 0 <= j < |s.balances| ==> BalanceEvolves(s.balances[j], t.balances[j], platformId))
  }

  lemma EvolvesTransitive(s: Snapshot, t: Snapshot, u: Snapshot, platformId: nat)
    requires Evolves(s, t, platformId) && Evolves(t, u, platformId)
    ensures Evolves(s, u, platformId)
  {
    forall j | 0 <= j < |s.balances| ensures BalanceEvolves(s.balances[j], u.balances[j], platformId) {
      assert BalanceEvolves(t.balances[j], u.balances[j], platformId);
    }
    forall j | 0 <= j < |s.accounts| ensures AccountEvolves(s.accounts[j], u.accounts[j]) {
      assert AccountEvolves(t.accounts[j], u.accounts[j]);
    }
  }

  /** Nothing else changes: markers are only ever added (never changed or cleared), an account
      already marked stays exactly as it was, and balance rows only move to the platform account. */
  lemma {:induction false} RunOnlyMarksAndMoves(s: Snapshot, i: nat, env: Env)
    requires i <= |s.accounts|
    ensures Evolves(s, RunFrom(s, i, env).snapshot, env.platformAccountId)
    decreases |s.accounts| - i
  {
    if i < |s.accounts| {
      var st := Step(s, i, env);
      assert Evolves(s, st.snapshot, env.platformAccountId);
      if !st.aborted {
        RunOnlyMarksAndMoves(st.snapshot, i + 1, env);
        EvolvesTransitive(s, st.snapshot, RunFrom(st.snapshot, i + 1, env).snapshot, env.platformAccountId);
      }
    }
  }

  /** A step changes no account but its own; one that transfers does so from an unmarked, dormant
      candidate at its own position, marks it with the transfer id, moves a positive amount, and
      re-points exactly that account's user's unpaid USD balances held against it. A step that
      makes no transfer changes no balance, and one that aborts changes nothing. */
  lemma StepTransfer(s: Snapshot, i: nat, env: Env)
    requires i < |s.accounts|
    ensures var st := Step(s, i, env);
            forall j :: 0 <= j < |s.accounts| && j != i ==> st.snapshot.accounts[j] == s.accounts[j]
    ensures var st := Step(s, i, env);
            st.snapshot.balances
              == if st.transfer.Some? then Repoint(s.balances, s.accounts[i].userId, s.accounts[i].id, env.platformAccountId)
                 else s.balances
    ensures var st := Step(s, i, env);
            st.aborted ==> st.snapshot == s && st.transfer.None?
    ensures var st := Step(s, i, env);
            st.transfer.None? ==> st.snapshot == s
    ensures var st := Step(s, i, env);
            st.transfer.Some? ==>
              && st.transfer.value.position == i
              && s.accounts[i].collectionTransferId.None?
              && st.snapshot.accounts[i].collectionTransferId == Some(st.transfer.value.transferId)
              && st.transfer.value.amount > 0
              && IsCandidate(s.accounts[i], Cutoff(env))
              && Dormant(env.activity(s.accounts[i].userId),
                         env.processor(s.accounts[i].chargeProcessorMerchantId.value), Cutoff(env))
  {
    var a := s.accounts[i];
    if IsCandidate(a, Cutoff(env)) {
      CollectsIffDormantWithFunds(env.activity(a.userId), env.processor(a.chargeProcessorMerchantId.value), Cutoff(env));
    }
  }

  /** The converse: an unmarked candidate that is dormant and whose balance answer has a positive
      sum is collected from, for exactly that sum. */
  lemma DormantCandidateCollects(s: Snapshot, i: nat, env: Env)
    requires i < |s.accounts|
    requires IsCandidate(s.accounts[i], Cutoff(env))
    requires var a := s.accounts[i];
             var view := env.processor(a.chargeProcessorMerchantId.value);
             && Dormant(env.activity(a.userId), view, Cutoff(env))
             && |view.available| > 0 && |view.pending| > 0 && view.available[0] + view.pending[0] > 0
    ensures var a := s.accounts[i];
            var view := env.processor(a.chargeProcessorMerchantId.value);
            var st := Step(s, i, env);
            && !st.aborted
            && st.transfer == Some(Transfer(i, view.available[0] + view.pending[0], view.transferId))
  {
    var a := s.accounts[i];
    CollectsIffDormantWithFunds(env.activity(a.userId), env.processor(a.chargeProcessorMerchantId.value), Cutoff(env));
  }

  /** A marked account leaves the run exactly as it entered it. */
  lemma MarkersPersist(s: Snapshot, i: nat, env: Env)
    requires i <= |s.accounts|
    ensures forall j :: 0 <= j < |s.accounts| && s.accounts[j].collectionTransferId.Some? ==>
              RunFrom(s, i, env).snapshot.accounts[j] == s.accounts[j]
  {
    RunOnlyMarksAndMoves(s, i, env);
    var r := RunFrom(s, i, env).snapshot;
    forall j | 0 <= j < |s.accounts| && s.accounts[j].collectionTransferId.Some?
      ensures r.accounts[j] == s.accounts[j]
    {
      assert AccountEvolves(s.accounts[j], r.accounts[j]);
    }
  }

  /** Every transfer the run makes is from an account that had no marker before and carries the
      transfer's id as its marker afterwards; its amount is positive. */
  lemma {:induction false} TransfersAreMarked(s: Snapshot, i: nat, env: Env)
    requires i <= |s.accounts|
    ensures var r := RunFrom(s, i, env);
            forall t :: t in r.transfers ==>
              && i <= t.position < |s.accounts|
              && s.accounts[t.position].collectionTransferId.None?
              && r.snapshot.accounts[t.position].collectionTransferId == Some(t.transferId)
              && t.amount > 0
    decreases |s.accounts| - i
  {
    if i < |s.accounts| {
      var st := Step(s, i, env);
      if !st.aborted {
        TransfersAreMarked(st.snapshot, i + 1, env);
        MarkersPersist(st.snapshot, i + 1, env);
        var r := RunFrom(s, i, env);
        var rest := RunFrom(st.snapshot, i + 1, env);
        StepTransfer(s, i, env);
        forall t | t in r.transfers
          ensures && i <= t.position < |s.accounts|
                  && s.accounts[t.position].collectionTransferId.None?
                  && r.snapshot.accounts[t.position].collectionTransferId == Some(t.transferId)
                  && t.amount > 0
        {
          if !(st.transfer.Some? && t == st.transfer.value) {
            assert t in rest.transfers;
          }
        }
      }
    }
  }

  /** An account the run made no transfer from leaves the run exactly as it entered it: a skipped
      account is not marked, so a later run considers it again. */
  lemma {:induction false} UntransferredAccountsUnchanged(s: Snapshot, i: nat, env: Env)
    requires i <= |s.accounts|
    ensures var r := RunFrom(s, i, env);
            forall j :: 0 <= j < |s.accounts| && (forall t :: t in r.transfers ==> t.position != j) ==>
              r.snapshot.accounts[j] == s.accounts[j]
    decreases |s.accounts| - i
  {
    if i < |s.accounts| {
      var st := Step(s, i, env);
      StepTransfer(s, i, env);
      if !st.aborted {
        UntransferredAccountsUnchanged(st.snapshot, i + 1, env);
        var r := RunFrom(s, i, env);
        var rest := RunFrom(st.snapshot, i + 1, env);
        forall j | 0 <= j < |s.accounts| && (forall t :: t in r.transfers ==> t.position != j)
          ensures r.snapshot.accounts[j] == s.accounts[j]
        {
          assert forall t :: t in rest.transfers ==> t in r.transfers;
          if st.transfer.Some? {
            assert st.transfer.value in r.transfers;
          }
        }
      }
    }
  }

  /** Every transfer the run makes is from a candidate account that passed every dormancy
      guard. */
  lemma {:induction false} TransfersFromDormantCandidates(s: Snapshot, i: nat, env: Env)
    requires i <= |s.accounts|
    ensures forall t :: t in RunFrom(s, i, env).transfers ==>
              && i <= t.position < |s.accounts|
              && IsCandidate(s.accounts[t.position], Cutoff(env))
              && Dormant(env.activity(s.accounts[t.position].userId),
                         env.processor(s.accounts[t.position].chargeProcessorMerchantId.value), Cutoff(env))
    decreases |s.accounts| - i
  {
    if i < |s.accounts| {
      var st := Step(s, i, env);
      if !st.aborted {
        TransfersFromDormantCandidates(st.snapshot, i + 1, env);
        StepTransfer(s, i, env);
        var rest := RunFrom(st.snapshot, i + 1, env);
        forall t | t in RunFrom(s, i, env).transfers
          ensures && i <= t.position < |s.accounts|
                  && IsCandidate(s.accounts[t.position], Cutoff(env))
                  && Dormant(env.activity(s.accounts[t.position].userId),
                             env.processor(s.accounts[t.position].chargeProcessorMerchantId.value), Cutoff(env))
        {
          if !(st.transfer.Some? && t == st.transfer.value) {
            assert t in rest.transfers;
          }
        }
      }
    }
  }

  /** Idempotency: running the job a second time on the state the first run left makes no
      transfer from an account the first run transferred from. */
  lemma RunTwiceTransfersOnce(s: Snapshot, env: Env)
    ensures var first := Run(s, env);
            var second := Run(first.snapshot, env);
            forall t1, t2 :: t1 in first.transfers && t2 in second.transfers ==> t1.position != t2.position
  {
    var first := Run(s, env);
    TransfersAreMarked(s, 0, env);
    TransfersAreMarked(first.snapshot, 0, env);
  }

  /** The row is one of the user's unpaid USD balances held against an account the run transferred
      from. */
  ghost predicate MovedBy(b: Balance, accounts: seq<MerchantAccount>, transfers: seq<Transfer>) {
    exists t :: t in transfers && t.position < |accounts|
                && Moves(b, accounts[t.position].userId, accounts[t.position].id)
  }

  /** What the run leaves of a row: re-pointed to the platform account when it is moved, as it was
      otherwise. */
  ghost function MovedOrKept(b: Balance, accounts: seq<MerchantAccount>, transfers: seq<Transfer>, platformId: nat): Balance {
    if MovedBy(b, accounts, transfers) then b.(merchantAccountId := platformId) else b
  }

  /** Accounts that only differ at positions no transfer names move the same rows. */
  lemma MovedByFrame(b: Balance, acc1: seq<MerchantAccount>, acc2: seq<MerchantAccount>, ts: seq<Transfer>, i: nat)
    requires |acc1| == |acc2|
    requires forall j :: 0 <= j < |acc1| && j != i ==> acc1[j] == acc2[j]
    requires forall t :: t in ts ==> t.position != i
    ensures MovedBy(b, acc1, ts) <==> MovedBy(b, acc2, ts)
  {
    if MovedBy(b, acc1, ts) {
      var t :| t in ts && t.position < |acc1| && Moves(b, acc1[t.position].userId, acc1[t.position].id);
      assert acc1[t.position] == acc2[t.position];
    }
    if MovedBy(b, acc2, ts) {
      var t :| t in ts && t.position < |acc2| && Moves(b, acc2[t.position].userId, acc2[t.position].id);
      assert acc1[t.position] == acc2[t.position];
    }
  }

  /** Exactly the rows the source re-points move: a balance row leaves the run re-pointed to the
      platform account when it is an unpaid USD balance of the user of an account the run
      transferred from, held against that account; every other row is unchanged. */
  lemma {:induction false} RunMovesExactly(s: Snapshot, i: nat, env: Env)
    requires i <= |s.accounts|
    ensures var r := RunFrom(s, i, env);
            forall j :: 0 <= j < |s.balances| ==>
              r.snapshot.balances[j] == MovedOrKept(s.balances[j], s.accounts, r.transfers, env.platformAccountId)
    decreases |s.accounts| - i
  {
    var r := RunFrom(s, i, env);
    if i == |s.accounts| {
      forall j | 0 <= j < |s.balances|
        ensures r.snapshot.balances[j] == MovedOrKept(s.balances[j], s.accounts, r.transfers, env.platformAccountId)
      {
        assert !MovedBy(s.balances[j], s.accounts, r.transfers);
      }
    } else {
      var st := Step(s, i, env);
      StepTransfer(s, i, env);
      if st.aborted {
        forall j | 0 <= j < |s.balances|
          ensures r.snapshot.balances[j] == MovedOrKept(s.balances[j], s.accounts, r.transfers, env.platformAccountId)
        {
          assert !MovedBy(s.balances[j], s.accounts, r.transfers);
        }
      } else {
        var rest := RunFrom(st.snapshot, i + 1, env);
        RunMovesExactly(st.snapshot, i + 1, env);
        TransfersAreMarked(st.snapshot, i + 1, env);
        var a := s.accounts[i];
        forall j | 0 <= j < |s.balances|
          ensures r.snapshot.balances[j] == MovedOrKept(s.balances[j], s.accounts, r.transfers, env.platformAccountId)
        {
          var b := s.balances[j];
          MovedByFrame(b, s.accounts, st.snapshot.accounts, rest.transfers, i);
          if st.transfer.Some? && Moves(b, a.userId, a.id) {
            assert st.transfer.value in r.transfers;
            assert MovedBy(b, s.accounts, r.transfers);
          } else {
            assert st.snapshot.balances[j] == b;
            if MovedBy(b, s.accounts, r.transfers) {
              var t :| t in r.transfers && t.position < |s.accounts|
                       && Moves(b, s.accounts[t.position].userId, s.accounts[t.position].id);
              assert t in rest.transfers;
            }
          }
        }
      }
    }
  }

  /** With no row one of the user's unpaid USD balances held against the account, none is held. */
  lemma {:induction false} HeldNone(bs: seq<Balance>, userId: nat, accountId: nat)
    requires forall j :: 0 <= j < |bs| ==> !Moves(bs[j], userId, accountId)
    ensures Held(bs, userId, accountId, true) == 0
    decreases |bs|
  {
    if |bs| > 0 {
      HeldNone(bs[..|bs| - 1], userId, accountId);
    }
  }

  /** After the run, no unpaid USD balance of a transferred account's user is still held against
      that account (unless it is the platform account itself). */
  lemma RunEmptiesTransferredAccounts(s: Snapshot, env: Env)
    ensures var r := Run(s, env);
            forall t :: t in r.transfers && t.position < |s.accounts| && s.accounts[t.position].id != env.platformAccountId ==>
              Held(r.snapshot.balances, s.accounts[t.position].userId, s.accounts[t.position].id, true) == 0
  {
    var r := Run(s, env);
    RunMovesExactly(s, 0, env);
    TransfersAreMarked(s, 0, env);
    forall t | t in r.transfers && t.position < |s.accounts| && s.accounts[t.position].id != env.platformAccountId
      ensures Held(r.snapshot.balances, s.accounts[t.position].userId, s.accounts[t.position].id, true) == 0
    {
      var a := s.accounts[t.position];
      forall j | 0 <= j < |r.snapshot.balances| ensures !Moves(r.snapshot.balances[j], a.userId, a.id) {
        if !MovedBy(s.balances[j], s.accounts, r.transfers) {
          assert !Moves(s.balances[j], a.userId, a.id);
        }
      }
      HeldNone(r.snapshot.balances, a.userId, a.id);
    }
  }

  /** The run keeps every balance amount: the total of all balance rows is unchanged. */
  function TotalCents(bs: seq<Balance>): int
    decreases |bs|
  {
    if |bs| == 0 then 0 else TotalCents(bs[..|bs| - 1]) + bs[|bs| - 1].holdingAmountCents
  }

  lemma {:induction false} EvolvedTotal(bs: seq<Balance>, cs: seq<Balance>, platformId: nat)
    requires |cs| == |bs|
    requires forall j :: 0 <= j < |bs| ==> BalanceEvolves(bs[j], cs[j], platformId)
    ensures TotalCents(cs) == TotalCents(bs)
    decreases |bs|
  {
    if |bs| > 0 {
      EvolvedTotal(bs[..|bs| - 1], cs[..|cs| - 1], platformId);
      assert BalanceEvolves(bs[|bs| - 1], cs[|cs| - 1], platformId);
    }
  }

  lemma RunConservesTotal(s: Snapshot, env: Env)
    ensures TotalCents(Run(s, env).snapshot.balances) == TotalCents(s.balances)
  {
    RunOnlyMarksAndMoves(s, 0, env);
    var r := Run(s, env).snapshot;
    EvolvedTotal(s.balances, r.balances, env.platformAccountId);
  }

  // ---------------------------------------------------------------------------------------------
  // The database and the job, as the source runs it

  class Store {
    var accounts: seq<MerchantAccount>
    var balances: seq<Balance>

    function State(): Snapshot
      reads this
    {
      Snapshot(accounts, balances)
    }

    constructor (accounts0: seq<MerchantAccount>, balances0: seq<Balance>)
      ensures State() == Snapshot(accounts0, balances0)
    {
      accounts := accounts0;
      balances := balances0;
    }

    /** `merchant_account.update!(unclaimed_balance_collection_transfer_id: ...)`. */
    method RecordTransfer(i: nat, transferId: string)
      requires i < |accounts|
      modifies this
      ensures accounts == old(accounts)[i := old(accounts)[i].(collectionTransferId := Some(transferId))]
      ensures balances == old(balances)
    {
      accounts := accounts[i := accounts[i].(collectionTransferId := Some(transferId))];
    }

    /** Updates, row by row, each of the user's unpaid USD balances held against `accountId` to be
        held against the platform account. */
    method RepointBalances(userId: nat, accountId: nat, platformId: nat)
      modifies this
      ensures balances == Repoint(old(balances), userId, accountId, platformId)
      ensures accounts == old(accounts)
    {
      var j := 0;
      while j < |balances|
        invariant 0 <= j <= |balances| == |old(balances)|
        invariant forall k :: 0 <= k < j ==> balances[k] == Repoint(old(balances), userId, accountId, platformId)[k]
        invariant forall k :: j <= k < |balances| ==> balances[k] == old(balances)[k]
        invariant accounts == old(accounts)
      {
        if Moves(balances[j], userId, accountId) {
          balances := balances[j := balances[j].(merchantAccountId := platformId)];
        }
        j := j + 1;
      }
    }

    /** The body of the loop for a candidate account: the guards in order, then the transfer,
        the marker and the re-pointing. */
    method ProcessAccount(i: nat, env: Env) returns (transfer: Option<Transfer>, aborted: bool)
      requires i < |accounts| && IsCandidate(accounts[i], Cutoff(env))
      modifies this
      ensures StepResult(State(), transfer, aborted) == Step(old(State()), i, env)
    {
      transfer, aborted := None, false;
      var a := accounts[i];
      var cutoff := Cutoff(env);
      var act := env.activity(a.userId);
      if Max(ToI(act.lastSaleAt), ToI(act.lastPaymentAt)) > cutoff { return; }

      var view := env.processor(a.chargeProcessorMerchantId.value);
      if view.account.Some? && view.account.value.accountType == StandardAccountType { return; }
      if CreatedAt(view.account) > cutoff { return; }
      if ToI(view.lastPayoutAt) > cutoff { return; }
      if ToI(view.lastChargeAt) > cutoff { return; }

      if |view.available| == 0 || |view.pending| == 0 {
        aborted := true;
        return;
      }
      var amount := view.available[0] + view.pending[0];
      if !(amount > 0) { return; }

      RecordTransfer(i, view.transferId);
      RepointBalances(a.userId, a.id, env.platformAccountId);
      transfer := Some(Transfer(i, amount, view.transferId));
    }

    /** One turn of the loop of `perform`, as the rest of the run sees it: the account at
        position `i` is processed when it is a candidate, and the run from `i` is either stopped
        by an exception here or continues from `i + 1` after this turn's transfer. */
    method Advance(i: nat, env: Env) returns (step: seq<Transfer>, aborted: bool)
      requires i < |accounts|
      modifies this
      ensures |accounts| == |old(accounts)|
      ensures aborted ==> RunFrom(old(State()), i, env) == JobResult(State(), [], false)
      ensures !aborted ==>
                var rest := RunFrom(State(), i + 1, env);
                RunFrom(old(State()), i, env) == JobResult(rest.snapshot, step + rest.transfers, rest.completed)
    {
      var t: Option<Transfer>;
      t, aborted := None, false;
      if IsCandidate(accounts[i], Cutoff(env)) {
        t, aborted := ProcessAccount(i, env);
      }
      step := if t.Some? then [t.value] else [];
    }

    /** `perform`: every candidate account in turn; an exception ends the run, keeping what
        earlier iterations did. */
    method Perform(env: Env) returns (transfers: seq<Transfer>, completed: bool)
      modifies this
      ensures JobResult(State(), transfers, completed) == Run(old(State()), env)
    {
      transfers := [];
      var i := 0;
      while i < |accounts|
        invariant i <= |accounts| == |old(accounts)|
        invariant var rest := RunFrom(State(), i, env);
                  JobResult(rest.snapshot, transfers + rest.transfers, rest.completed) == Run(old(State()), env)
        decreases |accounts| - i
      {
        var step, aborted := Advance(i, env);
        if aborted {
          assert transfers + [] == transfers;
          completed := false;
          return;
        }
        ghost var rest := RunFrom(State(), i + 1, env);
        assert transfers + (step + rest.transfers) == (transfers + step) + rest.transfers;
        transfers := transfers + step;
        i := i + 1;
      }
      assert transfers + [] == transfers;
      completed := true;
    }
  }
}
