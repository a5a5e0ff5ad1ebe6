/** The bounded confirmation poller `broadcastAndWaitForConfirmation`
    (backend/src/services/stacksService.ts): broadcast a signed transaction,
    then ask for its status at most 30 times, five seconds apart. The
    broadcast's answer and the answers to the polls are inputs. */
module ConfirmationPoller {
  import opened Wrappers
  import StacksDecoder

  const MaxAttempts: nat := 30
  const PollIntervalMs: nat := 5000
  const TimeoutMessage: string := "Transaction confirmation timeout"

  type OrderData = map<string, string>

  /** The three things the loop reads from a status object: the truthiness
      of `success`, a truthy `orderData`, and `txData?.tx_status`. */
  datatype StatusView = StatusView(success: bool, orderData: Option<OrderData>, txStatus: Option<string>)

  /** One poll: the status call threw, or it returned an object. */
  datatype PollOutcome = PollThrew | PollReturned(view: StatusView)

  datatype Confirmation = Confirmation(txId: string, orderData: Option<OrderData>)

  /** The two early returns of the loop body, or `None` to keep waiting. */
  function Terminal(txId: string, poll: PollOutcome): (r: Option<Confirmation>)
    ensures r.Some? ==> r.value.txId == txId
    ensures poll.PollThrew? ==> r.None?
  {
    match poll
    case PollThrew => None
    case PollReturned(v) =>
      if v.success && v.orderData.Some? then Some(Confirmation(txId, v.orderData))
      else if v.txStatus == Some("success") then Some(Confirmation(txId, None))
      else None
  }

  /** The loop from attempt `i` on. */
  function AwaitFrom(txId: string, polls: seq<PollOutcome>, i: nat): Result<Confirmation, string>
    requires |polls| >= MaxAttempts
    decreases MaxAttempts - i
  {
    if i >= MaxAttempts then Failure(TimeoutMessage)
    else match Terminal(txId, polls[i])
      case Some(c) => Success(c)
      case None => AwaitFrom(txId, polls, i + 1)
  }

  /** The whole call: a broadcast error propagates unchanged. */
  function BroadcastAndWait(broadcast: Result<string, string>, polls: seq<PollOutcome>): Result<Confirmation, string>
    requires |polls| >= MaxAttempts
  {
    match broadcast
    case Failure(e) => Failure(e)
    case Success(txId) => AwaitFrom(txId, polls, 0)
  }

  /** The loop as the source writes it; `attempts` counts the polls that
      did not end the wait, and each of those is followed by a five-second
      pause. */
  method BroadcastAndWaitForConfirmation(broadcast: Result<string, string>, polls: seq<PollOutcome>)
    returns (r: Result<Confirmation, string>, attempts: nat)
    requires |polls| >= MaxAttempts
    ensures r == BroadcastAndWait(broadcast, polls)
    ensures attempts <= MaxAttempts
    ensures broadcast.Success? && r.Failure? ==> attempts == MaxAttempts
    ensures r.Success? ==> forall j :: 0 <= j < attempts ==> Terminal(r.value.txId, polls[j]).None?
  {
    attempts := 0;
    if broadcast.Failure? {
      return Failure(broadcast.error), 0;
    }
    var txId := broadcast.value;
    while attempts < MaxAttempts
      invariant attempts <= MaxAttempts
      invariant AwaitFrom(txId, polls, attempts) == AwaitFrom(txId, polls, 0)
      invariant forall j :: 0 <= j < attempts ==> Terminal(txId, polls[j]).None?
    {
      match polls[attempts]
      case PollThrew =>
        attempts := attempts + 1;
      case PollReturned(status) =>
        if status.success && status.orderData.Some? {
          return Success(Confirmation(txId, status.orderData)), attempts;
        } else if status.txStatus == Some("success") {
          return Success(Confirmation(txId, None)), attempts;
        }
        attempts := attempts + 1;
    }
    return Failure(TimeoutMessage), attempts;
  }

  /** The wait times out exactly when none of the first 30 polls is
      terminal; a thrown poll is just one more non-terminal attempt. */
  lemma {:induction false} TimeoutExactlyWhenNeverTerminal(txId: string, polls: seq<PollOutcome>, i: nat)
    requires |polls| >= MaxAttempts
    ensures AwaitFrom(txId, polls, i).Failure? <==> forall j :: i <= j < MaxAttempts ==> Terminal(txId, polls[j]).None?
    ensures AwaitFrom(txId, polls, i).Failure? ==> AwaitFrom(txId, polls, i).error == TimeoutMessage
    decreases MaxAttempts - i
  {
    if i < MaxAttempts {
      TimeoutExactlyWhenNeverTerminal(txId, polls, i + 1);
    }
  }

  /** A confirmation is the one the first terminal poll gives. */
  lemma {:induction false} ConfirmedByFirstTerminal(txId: string, polls: seq<PollOutcome>, i: nat)
    requires |polls| >= MaxAttempts
    requires AwaitFrom(txId, polls, i).Success?
    ensures exists k :: i <= k < MaxAttempts && Terminal(txId, polls[k]) == Some(AwaitFrom(txId, polls, i).value) &&
                        forall j :: i <= j < k ==> Terminal(txId, polls[j]).None?
    decreases MaxAttempts - i
  {
    if Terminal(txId, polls[i]).None? {
      ConfirmedByFirstTerminal(txId, polls, i + 1);
    } else {
      assert Terminal(txId, polls[i]) == Some(AwaitFrom(txId, polls, i).value);
    }
  }

  // ---------------------------------------------------------------------
  // What the loop actually sees: the objects `getTransactionStatus` returns

  /** The decoder's objects read through the loop's field accesses: the
      error shape is `{success: false, error}`, the record has no
      `success`, `orderData` or `txData` field at all. */
  function ViewOf(s: StacksDecoder.TxStatus): (v: StatusView)
    ensures !v.success && v.orderData.None? && v.txStatus.None?
  {
    match s
    case StatusError => StatusView(false, None, None)
    case StatusData(_) => StatusView(false, None, None)
  }

  /** Fed by `getTransactionStatus`, the poller can never confirm: every
      broadcast that succeeds ends in the timeout error. */
  lemma PollerNeverConfirms(txId: string, statuses: seq<StacksDecoder.TxStatus>)
    requires |statuses| >= MaxAttempts
    ensures var polls := seq(|statuses|, i requires 0 <= i < |statuses| => PollReturned(ViewOf(statuses[i])));
            BroadcastAndWait(Success(txId), polls) == Failure(TimeoutMessage)
  {
    var polls := seq(|statuses|, i requires 0 <= i < |statuses| => PollReturned(ViewOf(statuses[i])));
    TimeoutExactlyWhenNeverTerminal(txId, polls, 0);
  }

  /** The corrected reading of a status object: the record's `status` flag
      is the success test, and its decoded intent is the order data. */
  function CorrectedViewOf(s: StacksDecoder.TxStatus): (v: StatusView)
    ensures v.txStatus == Some("success") <==> s.StatusData? && s.data.status
  {
    match s
    case StatusError => StatusView(false, None, None)
    case StatusData(d) =>
      var data := if d.orderId.Some? then Some(map["orderId" := d.orderId.value]) else None;
      StatusView(d.status, data, if d.status then Some("success") else None)
  }

  /** With the corrected reading, the poller confirms as soon as one of the
      first 30 polls shows the transaction succeeded. */
  lemma CorrectedPollerConfirms(txId: string, statuses: seq<StacksDecoder.TxStatus>, k: nat)
    requires |statuses| >= MaxAttempts
    requires k < MaxAttempts && statuses[k].StatusData? && statuses[k].data.status
    ensures var polls := seq(|statuses|, i requires 0 <= i < |statuses| => PollReturned(CorrectedViewOf(statuses[i])));
            BroadcastAndWait(Success(txId), polls).Success?
  {
    var polls := seq(|statuses|, i requires 0 <= i < |statuses| => PollReturned(CorrectedViewOf(statuses[i])));
    assert Terminal(txId, polls[k]).Some?;
    TimeoutExactlyWhenNeverTerminal(txId, polls, 0);
  }
}
