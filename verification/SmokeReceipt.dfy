/** The smoke runner's receipt: what is recorded for each action, the replay guard, reconciliation with the chain, the
    one submission and the summary (src/flp/mainnetSmoke.ts). */
module SmokeReceipt {
  import opened Results

  datatype Action = Preflight | Status | Deposit | RequestWithdraw | Claim

  datatype RecordStatus = Prepared | Signed | Unknown | Confirmed | Finalized | Failed

  datatype Field = Kind | RequestId | EpochNumber | Amount | Shares | AmountIn | AmountOut

  /** A parsed program event; `data` holds its numeric fields, some of which may be absent. */
  datatype Event = Event(name: string, vault: string, user: string, data: map<Field, int>)

  datatype Record = Record(action: Action, status: RecordStatus, signature: Option<string>, slot: Option<int>,
        events: seq<Event>)

  datatype Receipt = Receipt(owner: string, records: seq<Record>)

  datatype Error = AlreadyRecorded | Unresolved | NoEvidence | WriteFailed | SignFailed | Uncertain

  const VAULT := "8aHdjxJzec6CfBngSFZY" + "QvqZsBtXWXG6j1C3rW799pbP"

  predicate Settled(r: Record) {
    r.status == Confirmed || r.status == Finalized
  }

  /** An action is never recorded twice, and nothing happens while an earlier one is not settled. */
  function AssertNoReplay(records: seq<Record>, action: Action): Result<(), Error> {
    if exists i | 0 <= i < |records| :: records[i].action == action then Err(AlreadyRecorded)
    else if exists i | 0 <= i < |records| :: !Settled(records[i]) then Err(Unresolved)
    else Ok(())
  }

  // ---- Evidence ----

  /** The first settled record of an action. */
  function FindSettled(records: seq<Record>, action: Action): (r: Option<Record>)
    ensures r.Some? ==> r.value in records && r.value.action == action && Settled(r.value)
    ensures r.None? ==> forall i | 0 <= i < |records| :: records[i].action != action || !Settled(records[i])
  {
    if records == [] then None
    else if records[0].action == action && Settled(records[0]) then Some(records[0])
    else FindSettled(records[1..], action)
  }

  function Matching(events: seq<Event>, name: string, owner: string): seq<Event> {
    if events == [] then []
    else
      (if events[0].name == name && events[0].vault == VAULT && events[0].user == owner then [events[0]] else [])
      + Matching(events[1..], name, owner)
  }

  /** The one matching event of a settled action. */
  function ConfirmedEvent(receipt: Receipt, action: Action, name: string): Result<Event, Error> {
    var record := FindSettled(receipt.records, action);
    if record == None then Err(NoEvidence)
    else
      var events := Matching(record.value.events, name, receipt.owner);
      if |events| != 1 then Err(NoEvidence) else Ok(events[0])
  }

  /** The evidence an action needs from earlier ones. */
  predicate HasEvidence(receipt: Receipt, action: Action) {
    match action
    case RequestWithdraw => ConfirmedEvent(receipt, Deposit, "FlpPermissionedDeposit").Ok?
    case Claim => ConfirmedEvent(receipt, RequestWithdraw, "FlpWithdrawRequested").Ok?
    case _ => true
  }

  // ---- Reconciliation ----

  datatype Level = Processed | AtConfirmed | AtFinalized

  datatype SignatureStatus = NotFound | Found(slot: int, failed: bool, level: Level)

  /** What came of reading the transaction: `Unusable` when it is missing, failed or without logs. */
  datatype Read = ReadThrows | Unusable | ParseThrows | Logs(events: seq<Event>)

  /** What the RPC answers about one signature. */
  datatype Answer = Throws | Answer(status: SignatureStatus, read: Read)

  /** Whether an exception leaves the loop at this record. */
  predicate Aborts(r: Record, a: Answer) {
    && r.signature.Some?
    && (a.Throws? || (a.status.Found? && !a.status.failed && a.status.level != Processed
                      && (a.read.ReadThrows? || a.read.ParseThrows?)))
  }

  /** One record after a read of its signature. A record without a signature is left alone. */
  function ReconcileOne(r: Record, a: Answer): Record {
    if r.signature == None || a.Throws? then r
    else
      match a.status
      case NotFound => r.(status := Unknown)
      case Found(slot, failed, level) =>
        var seen := r.(slot := Some(slot));
        if failed then seen.(status := Failed)
        else if level == Processed then seen.(status := Unknown)
        else
          var reported := seen.(status := if level == AtConfirmed then Confirmed else Finalized);
          match a.read
          case ReadThrows => seen
          case Unusable => seen.(status := Unknown)
          case ParseThrows => reported
          case Logs(events) => reported.(events := events)
  }

  /** How many records are dealt with before a read throws; all of them if none does. */
  function ReadsBeforeThrow(records: seq<Record>, answers: seq<Answer>): (n: nat)
    requires |answers| == |records|
    ensures n <= |records|
    ensures forall i | 0 <= i < n :: !Aborts(records[i], answers[i])
    ensures n < |records| ==> Aborts(records[n], answers[n])
  {
    if records == [] || Aborts(records[0], answers[0]) then 0
    else 1 + ReadsBeforeThrow(records[1..], answers[1..])
  }

  /** The record whose read throws is left as far as it got; later ones are not looked at. */
  function Reconciled(records: seq<Record>, answers: seq<Answer>): (r: seq<Record>)
    requires |answers| == |records|
    ensures |r| == |records|
  {
    var n := ReadsBeforeThrow(records, answers);
    seq(|records|, i requires 0 <= i < |records| => if i <= n then ReconcileOne(records[i], answers[i]) else records[i])
  }

  /** Two records of the same action and signature. */
  predicate SameSubmission(a: Record, b: Record) {
    a.action == b.action && a.signature == b.signature
  }

  predicate SameSubmissions(a: seq<Record>, b: seq<Record>) {
    |a| == |b| && forall i | 0 <= i < |a| :: SameSubmission(a[i], b[i])
  }

  /** Reconciliation never adds, drops or replaces a submission and leaves unsigned records untouched; a complete one
      leaves a signed record settled exactly when the chain reports it confirmed and its logs could be read, and
      then the record holds those logs' events. */
  lemma ReconcileKeepsSubmissions(records: seq<Record>, answers: seq<Answer>, i: nat)
    requires |answers| == |records| && i < |records|
    ensures SameSubmissions(records, Reconciled(records, answers))
    ensures records[i].signature == None ==> Reconciled(records, answers)[i] == records[i]
    ensures records[i].signature != None && ReadsBeforeThrow(records, answers) == |records| ==>
              var after, a := Reconciled(records, answers)[i], answers[i];
              && (Settled(after) <==>
                    && a.status.Found? && !a.status.failed && a.status.level != Processed && a.read.Logs?)
              && (Settled(after) ==> after.events == a.read.events)
  {
  }

  /** Status is not monotone: a confirmed record is sent back to unknown by one unlucky read. */
  lemma ConfirmedCanBecomeUnknown(r: Record)
    requires r.status == Confirmed && r.signature.Some?
    ensures Reconciled([r], [Answer(NotFound, Unusable)]) == [r.(status := Unknown)]
  {
    assert ReadsBeforeThrow([r], [Answer(NotFound, Unusable)]) == 1;
  }

  // ---- The submission ----

  function Last(records: seq<Record>): Record
    requires records != []
  {
    records[|records| - 1]
  }

  function Init(records: seq<Record>): seq<Record>
    requires records != []
  {
    records[..|records| - 1]
  }

  function NewRecord(action: Action): Record {
    Record(action, Prepared, None, None, [])
  }

  function WithSignature(records: seq<Record>, signature: string): seq<Record>
    requires records != []
  {
    records[|records| - 1 := Last(records).(signature := Some(signature), status := Signed)]
  }

  function WithStatus(records: seq<Record>, status: RecordStatus): seq<Record>
    requires records != []
  {
    records[|records| - 1 := Last(records).(status := status)]
  }

  /** What a submission does to the outside, in order. */
  datatype Op = Persist(records: seq<Record>) | Send(signature: string)

  /** How the outside behaves during one submission: which of the three writes succeed, the signature if signing
      succeeds, and the RPC's reply if sending does. */
  datatype Script = Script(write1: bool, signature: Option<string>, write2: bool, reply: Option<string>, write3: bool)

  datatype Outcome = Outcome(result: Result<(), Error>, records: seq<Record>, ops: seq<Op>)

  function Submission(records: seq<Record>, action: Action, s: Script): Outcome {
    var guard := AssertNoReplay(records, action);
    var prepared := records + [NewRecord(action)];
    if guard.Err? then Outcome(guard, records, [])
    else if !s.write1 then Outcome(Err(WriteFailed), prepared, [])
    else if s.signature == None then Outcome(Err(SignFailed), prepared, [Persist(prepared)])
    else
      var signed := WithSignature(prepared, s.signature.value);
      var unknown := WithStatus(signed, Unknown);
      var sent := [Persist(prepared), Persist(signed), Send(s.signature.value)];
      if !s.write2 then Outcome(Err(WriteFailed), signed, [Persist(prepared)])
      else if !s.write3 then Outcome(Err(WriteFailed), unknown, sent)
      else Outcome(if s.reply == s.signature then Ok(()) else Err(Uncertain), unknown, sent + [Persist(unknown)])
  }

  /** A submission sends at most once, and only as its third step, right after writing a receipt whose last record is
      this action's, signed, with exactly the signature that is sent, and which replaces the bare record written
      before it; it sends exactly when the guard lets it through, signing works and both writes before it do. */
  lemma SentOnlyAfterWriting(records: seq<Record>, action: Action, s: Script, i: nat)
    requires i < |Submission(records, action, s).ops|
    ensures var ops := Submission(records, action, s).ops;
            ops[i].Send? ==>
              && i == 2 && ops[0] == Persist(records + [NewRecord(action)])
              && ops[1].Persist? && |ops[1].records| == |records| + 1 && ops[1].records[..|records|] == records
              && ops[1].records[|records|] == Record(action, Signed, Some(ops[2].signature), None, [])
    ensures |Submission(records, action, s).ops| > 2 <==>
              AssertNoReplay(records, action).Ok? && s.write1 && s.write2 && s.signature.Some?
    ensures |Submission(records, action, s).ops| > 2 ==>
              Submission(records, action, s).ops[2] == Send(s.signature.value)
  {
    var prepared := records + [NewRecord(action)];
    assert prepared[..|prepared| - 1] == records;
  }

  /** What a submission that got past the guard leaves: one record more, of its action and not settled. */
  lemma SubmissionLeaves(records: seq<Record>, action: Action, s: Script)
    requires AssertNoReplay(records, action).Ok?
    ensures var left := Submission(records, action, s).records;
            && |left| == |records| + 1 && left[..|records|] == records
            && left[|records|].action == action && !Settled(left[|records|])
  {
    var prepared := records + [NewRecord(action)];
    assert prepared[..|prepared| - 1] == records;
  }

  lemma NothingAfterUnsettled(records: seq<Record>, i: nat, action: Action, s: Script)
    requires i < |records| && !Settled(records[i])
    ensures var recorded := exists j | 0 <= j < |records| :: records[j].action == action;
            Submission(records, action, s)
            == Outcome(Err(if recorded then AlreadyRecorded else Unresolved), records, [])
  {
  }

  /** Whatever becomes of a submission that got past the guard, a second one on the receipt it leaves does nothing:
      the same action is already recorded, and any other waits for this one to be settled. */
  lemma SecondSubmissionRefused(records: seq<Record>, first: Action, s: Script, second: Action, t: Script)
    requires AssertNoReplay(records, first).Ok?
    ensures var left := Submission(records, first, s).records;
            && left[..|records|] == records
            && var recorded := exists i | 0 <= i < |left| :: left[i].action == second;
               Submission(left, second, t) == Outcome(Err(if recorded then AlreadyRecorded else Unresolved), left, [])
  {
    SubmissionLeaves(records, first, s);
    NothingAfterUnsettled(Submission(records, first, s).records, |records|, second, t);
  }

  class Journal {
    var owner: string
    var records: seq<Record>
    var log: seq<Op>

    constructor (owner: string)
      ensures this.owner == owner && records == [] && log == []
    {
      this.owner := owner;
      records, log := [], [];
    }

    method Guard(action: Action) returns (r: Result<(), Error>)
      ensures r == AssertNoReplay(records, action)
    {
      for i := 0 to |records|
        invariant forall j | 0 <= j < i :: records[j].action != action
      {
        if records[i].action == action {
          return Err(AlreadyRecorded);
        }
      }
      for i := 0 to |records|
        invariant forall j | 0 <= j < i :: Settled(records[j])
      {
        if !Settled(records[i]) {
          return Err(Unresolved);
        }
      }
      r := Ok(());
    }

    /** Reads every recorded signature once; a read that throws leaves the later records unread. */
    method Reconcile(answers: seq<Answer>) returns (complete: bool)
      requires |answers| == |records|
      modifies this`records
      ensures records == Reconciled(old(records), answers)
      ensures complete <==> ReadsBeforeThrow(old(records), answers) == |records|
    {
      for i := 0 to |records|
        invariant |records| == |old(records)| && i <= ReadsBeforeThrow(old(records), answers)
        invariant forall j | 0 <= j < |records| ::
                    records[j] == if j < i then ReconcileOne(old(records)[j], answers[j]) else old(records)[j]
      {
        var record, answer := records[i], answers[i];
        if record.signature == None {
          continue;
        }
        if answer.Throws? {
          return false;
        }
        if answer.status.NotFound? {
          records := records[i := record.(status := Unknown)];
          continue;
        }
        record := record.(slot := Some(answer.status.slot));
        records := records[i := record];
        if answer.status.failed {
          records := records[i := record.(status := Failed)];
          continue;
        }
        if answer.status.level == Processed {
          records := records[i := record.(status := Unknown)];
          continue;
        }
        if answer.read.ReadThrows? {
          return false;
        }
        if answer.read.Unusable? {
          records := records[i := record.(status := Unknown)];
          continue;
        }
        record := record.(status := if answer.status.level == AtConfirmed then Confirmed else Finalized);
        records := records[i := record];
        if answer.read.ParseThrows? {
          return false;
        }
        records := records[i := record.(events := answer.read.events)];
      }
      complete := true;
    }

    /** Writes the receipt out, unless the disk refuses. */
    method Save(works: bool) returns (ok: bool)
      modifies this`log
      ensures ok == works
      ensures log == if works then old(log) + [Persist(records)] else old(log)
    {
      if works {
        log := log + [Persist(records)];
      }
      ok := works;
    }

    /** One submission: the record is durable before signing, and its signature before sending. */
    method SubmitOnce(action: Action, script: Script) returns (r: Result<(), Error>)
      modifies this`records, this`log
      ensures var o := Submission(old(records), action, script);
              r == o.result && records == o.records && log == old(log) + o.ops
    {
      r := Guard(action);
      if r.Err? {
        return;
      }
      records := records + [NewRecord(action)];
      var written := Save(script.write1);
      if !written {
        return Err(WriteFailed);
      }
      if script.signature == None {
        return Err(SignFailed);
      }
      var n := |records| - 1;
      records := records[n := records[n].(signature := script.signature, status := Signed)];
      written := Save(script.write2);
      if !written {
        return Err(WriteFailed);
      }
      log := log + [Send(script.signature.value)];
      records := records[n := records[n].(status := Unknown)];
      written := Save(script.write3);
      if !written {
        return Err(WriteFailed);
      }
      r := if script.reply == script.signature then Ok(()) else Err(Uncertain);
    }
  }

  // ---- The summary ----

  function Get(data: map<Field, int>, field: Field): Option<int> {
    if field in data then Some(data[field]) else None
  }

  datatype Summary = Summary(
    deposited: Option<int>, minted: Option<int>, requested: Option<int>, claimed: Option<int>,
    complete: bool, partialClaim: bool, unwithdrawn: Option<int>)

  /** The receipt's report; None when a deposit event without a share amount makes it throw. */
  function Summarize(receipt: Receipt): Option<Summary> {
    var deposit := ConfirmedEvent(receipt, Deposit, "FlpPermissionedDeposit");
    var request := ConfirmedEvent(receipt, RequestWithdraw, "FlpWithdrawRequested");
    var claim := ConfirmedEvent(receipt, Claim, "FlpClaimed");
    var Of := (e: Result<Event, Error>, f) => if e.Ok? then Get(e.value.data, f) else None;
    var matched := claim.Ok? && request.Ok? && Of(claim, Kind) == Some(1)
                   && Of(claim, RequestId) == Of(request, RequestId)
                   && Of(claim, EpochNumber) == Of(request, EpochNumber)
                   && Of(claim, AmountIn) == Of(request, Shares);
    if deposit.Ok? && Of(deposit, Shares) == None then None
    else
      Some(Summary(
             Of(deposit, Amount), Of(deposit, Shares), Of(request, Shares),
             if matched then Of(claim, AmountOut) else None,
             deposit.Ok? && matched && Of(request, Shares) == Of(deposit, Shares),
             matched,
             if deposit.Ok?
             then Some(Of(deposit, Shares).value - (if Of(request, Shares).Some? then Of(request, Shares).value else 0))
             else None))
  }

  /** The settled record and the one event of this owner and vault that an answer of ConfirmedEvent stands on. */
  predicate Evidence(receipt: Receipt, action: Action, name: string, r: Record, e: Event) {
    && r in receipt.records && r.action == action && Settled(r)
    && e in r.events && e.name == name && e.vault == VAULT && e.user == receipt.owner
  }

  lemma {:induction false} MatchingMeans(events: seq<Event>, name: string, owner: string, e: Event)
    ensures e in Matching(events, name, owner) <==> e in events && e.name == name && e.vault == VAULT && e.user == owner
  {
    if events != [] {
      MatchingMeans(events[1..], name, owner, e);
    }
  }

  /** ConfirmedEvent answers only with evidence from a settled record of that action. */
  lemma ConfirmedEventHasEvidence(receipt: Receipt, action: Action, name: string) returns (r: Record)
    requires ConfirmedEvent(receipt, action, name).Ok?
    ensures Evidence(receipt, action, name, r, ConfirmedEvent(receipt, action, name).value)
  {
    r := FindSettled(receipt.records, action).value;
    var events := Matching(r.events, name, receipt.owner);
    MatchingMeans(r.events, name, receipt.owner, events[0]);
  }

  /** A run is reported complete only on settled evidence of all three transactions, when the claim answers the
      request in number, epoch and amount and the request covers every share minted; nothing is then left over. */
  lemma CompletionNeedsEvidence(receipt: Receipt)
    returns (d: Record, r: Record, c: Record, deposit: Event, request: Event, claim: Event)
    requires Summarize(receipt).Some? && Summarize(receipt).value.complete
    ensures Evidence(receipt, Deposit, "FlpPermissionedDeposit", d, deposit)
    ensures Evidence(receipt, RequestWithdraw, "FlpWithdrawRequested", r, request)
    ensures Evidence(receipt, Claim, "FlpClaimed", c, claim)
    ensures Get(claim.data, RequestId) == Get(request.data, RequestId)
            && Get(claim.data, EpochNumber) == Get(request.data, EpochNumber)
            && Get(claim.data, AmountIn) == Get(request.data, Shares) == Get(deposit.data, Shares)
    ensures var s := Summarize(receipt).value;
            s.partialClaim && s.unwithdrawn == Some(0) && s.claimed == Get(claim.data, AmountOut)
  {
    d := ConfirmedEventHasEvidence(receipt, Deposit, "FlpPermissionedDeposit");
    r := ConfirmedEventHasEvidence(receipt, RequestWithdraw, "FlpWithdrawRequested");
    c := ConfirmedEventHasEvidence(receipt, Claim, "FlpClaimed");
    deposit := ConfirmedEvent(receipt, Deposit, "FlpPermissionedDeposit").value;
    request := ConfirmedEvent(receipt, RequestWithdraw, "FlpWithdrawRequested").value;
    claim := ConfirmedEvent(receipt, Claim, "FlpClaimed").value;
  }
}
