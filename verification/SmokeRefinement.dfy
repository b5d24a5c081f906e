/** The other half of the driver's faithfulness (src/bin/flp-mainnet-smoke.ts against src/flp/mainnetSmoke.ts): whatever
    happens to a process left alone, its steps from the guard on are those of one submission. */
module SmokeRefinement {
  import opened Results
  import opened SmokeReceipt
  import opened ReceiptFile
  import opened SmokeDriver
  import opened SmokeRuns

  /** Where a submission is over: returned, or left by an exception. */
  predicate AtEnd(pc: Pc) {
    pc == Rechecking || pc == Releasing
  }

  /** The process, moving alone, does not go on past the end of the submission. */
  predicate WithinSubmission(p: Proc, w: World, choices: seq<Choice>)
    decreases |choices|
  {
    choices == []
    || (!AtEnd(p.pc)
        && var (q, v) := Act(p, w, choices[0]);
           q.Some? ==> WithinSubmission(q.value, v, choices[1..]))
  }

  /** The process has ended as the submission's outcome says: with its records, its sends, and durable exactly what it
      wrote. A write that failed after the rename may show in the file. */
  ghost predicate Realises(o: Outcome, p: Proc, w: World, q: Proc, v: World) {
    var end := Performed(w, p.receipt.owner, p.options.action, o.ops);
    && q.options == p.options && q.receipt == p.receipt.(records := o.records)
    && v.lock == w.lock && v.sent == end.sent
    && v.disk.durable == end.disk.durable && v.disk.file in {end.disk.file, Some(q.receipt)}
    && (q.pc == Rechecking <==> o.result.Ok?)
    && (q.pc == Rechecking ==> v.disk == On(q.receipt))
  }

  ghost predicate IsSubmission(p: Proc, w: World, q: Proc, v: World) {
    exists s :: Realises(Submission(p.receipt.records, p.options.action, s), p, w, q, v)
  }

  // ---- The stages of a submission ----

  function PreparedReceipt(p: Proc): Receipt {
    p.receipt.(records := p.receipt.records + [NewRecord(p.options.action)])
  }

  function SignedReceipt(p: Proc, signature: string): Receipt {
    p.receipt.(records := WithSignature(PreparedReceipt(p).records, signature))
  }

  function SentReceipt(p: Proc, signature: string): Receipt {
    p.receipt.(records := WithStatus(SignedReceipt(p, signature).records, Unknown))
  }

  /** The disk during a save that began on `before`. */
  ghost predicate MidSave(phase: Phase, before: Disk<Receipt>, r: Receipt, d: Disk<Receipt>) {
    match phase
    case Opening => d == before
    case Writing => d == before.(tmp := Partial)
    case Renaming => d == before.(tmp := Full(r))
    case Syncing => d == Disk(NoTmp, Some(r), before.durable)
  }

  /** The signature in the last record, once there is one. */
  function Made(q: Proc): string {
    if q.receipt.records != [] && Last(q.receipt.records).signature.Some?
    then Last(q.receipt.records).signature.value
    else ""
  }

  /** Started as p in w, a submission in progress is q in v. */
  ghost predicate Stage(p: Proc, w: World, q: Proc, v: World) {
    var sent := [Sent(p.options.action, Made(q))];
    && q.options == p.options && v.lock == w.lock
    && (q.pc != Submitting && !AtEnd(q.pc) ==> AssertNoReplay(p.receipt.records, p.options.action).Ok?)
    && match q.pc
       case Submitting => q == p && v == w
       case Saving(AfterPrepare, phase) =>
         q.receipt == PreparedReceipt(p) && MidSave(phase, w.disk, q.receipt, v.disk) && v.sent == w.sent
       case Signing => q.receipt == PreparedReceipt(p) && v.disk == On(q.receipt) && v.sent == w.sent
       case Saving(AfterSign, phase) =>
         && q.receipt == SignedReceipt(p, Made(q)) && v.sent == w.sent
         && MidSave(phase, On(PreparedReceipt(p)), q.receipt, v.disk)
       case Sending => q.receipt == SignedReceipt(p, Made(q)) && v.disk == On(q.receipt) && v.sent == w.sent
       case Saving(AfterSend(_), phase) =>
         && q.receipt == SentReceipt(p, Made(q)) && v.sent == w.sent + sent
         && MidSave(phase, On(SignedReceipt(p, Made(q))), q.receipt, v.disk)
       case Rechecking => IsSubmission(p, w, q, v)
       case Releasing => IsSubmission(p, w, q, v)
       case _ => false
  }

  // ---- Each stage leads to the next, or to an end ----

  /** What a submission's first writes and its send do to the world. */
  lemma Effects(p: Proc, w: World, signature: string)
    ensures var a, b := PreparedReceipt(p).records, SignedReceipt(p, signature).records;
            var c := SentReceipt(p, signature).records;
            var owner, action := p.receipt.owner, p.options.action;
            && Performed(w, owner, action, []) == w
            && Performed(w, owner, action, [Persist(a)]) == w.(disk := On(PreparedReceipt(p)))
            && Performed(w, owner, action, [Persist(a), Persist(b), Op.Send(signature)])
               == World(w.lock, On(SignedReceipt(p, signature)), w.sent + [Sent(action, signature)])
            && Performed(w, owner, action, [Persist(a), Persist(b), Op.Send(signature)] + [Persist(c)])
               == World(w.lock, On(SentReceipt(p, signature)), w.sent + [Sent(action, signature)])
  {
    PerformedSubmission(w, p.receipt.owner, p.options.action, PreparedReceipt(p).records,
                        SignedReceipt(p, signature).records, signature, SentReceipt(p, signature).records);
  }

  lemma GuardStage(p: Proc, w: World)
    requires p.pc == Submitting
    ensures Stage(p, w, Prepare(p), w)
  {
    if AssertNoReplay(p.receipt.records, p.options.action).Err? {
      var s := Script(false, None, false, None, false);
      assert Realises(Submission(p.receipt.records, p.options.action, s), p, w, Prepare(p), w);
    }
  }

  lemma PreparedSaveStage(p: Proc, w: World, q: Proc, v: World, throws: bool)
    requires Stage(p, w, q, v) && q.pc.Saving? && q.pc.after == AfterPrepare
    ensures var (q1, v1) := Save(q, v, throws); Stage(p, w, q1, v1)
  {
    var (q1, v1) := Save(q, v, throws);
    if q1.pc == Releasing {
      var s := Script(false, None, false, None, false);
      assert Realises(Submission(p.receipt.records, p.options.action, s), p, w, q1, v1);
    }
  }

  lemma SignStage(p: Proc, w: World, q: Proc, v: World, signature: Option<string>)
    requires Stage(p, w, q, v) && q.pc == Signing
    ensures Stage(p, w, Sign(q, signature), v)
  {
    var q1 := Sign(q, signature);
    if signature == None {
      Effects(p, w, "");
      var s := Script(true, None, false, None, false);
      assert Realises(Submission(p.receipt.records, p.options.action, s), p, w, q1, v);
    }
  }

  lemma SignedSaveStage(p: Proc, w: World, q: Proc, v: World, throws: bool)
    requires Stage(p, w, q, v) && q.pc.Saving? && q.pc.after == AfterSign
    ensures var (q1, v1) := Save(q, v, throws); Stage(p, w, q1, v1)
  {
    var (q1, v1) := Save(q, v, throws);
    if q1.pc == Releasing {
      Effects(p, w, Made(q));
      var s := Script(true, Some(Made(q)), false, None, false);
      assert Realises(Submission(p.receipt.records, p.options.action, s), p, w, q1, v1);
    }
  }

  lemma SendStage(p: Proc, w: World, q: Proc, v: World, reply: Option<string>)
    requires Stage(p, w, q, v) && q.pc == Sending
    ensures var (q1, v1) := SmokeDriver.Send(q, v, reply); Stage(p, w, q1, v1)
  {
  }

  lemma SentSaveStage(p: Proc, w: World, q: Proc, v: World, throws: bool)
    requires Stage(p, w, q, v) && q.pc.Saving? && q.pc.after.AfterSend?
    ensures var (q1, v1) := Save(q, v, throws); Stage(p, w, q1, v1)
  {
    var (q1, v1) := Save(q, v, throws);
    if AtEnd(q1.pc) {
      Effects(p, w, Made(q));
      var written := q.pc.phase == Syncing && !throws;
      var s := Script(true, Some(Made(q)), true, if q.pc.after.uncertain then None else Some(Made(q)), written);
      assert Realises(Submission(p.receipt.records, p.options.action, s), p, w, q1, v1);
    }
  }

  lemma StageStep(p: Proc, w: World, q: Proc, v: World, c: Choice)
    requires p.pc == Submitting && Stage(p, w, q, v) && !AtEnd(q.pc)
    ensures var (q1, v1) := Act(q, v, c); q1.Some? && Stage(p, w, q1.value, v1)
  {
    match q.pc
    case Submitting => GuardStage(p, w);
    case Saving(AfterPrepare, _) => PreparedSaveStage(p, w, q, v, c.throws);
    case Signing => SignStage(p, w, q, v, c.signature);
    case Saving(AfterSign, _) => SignedSaveStage(p, w, q, v, c.throws);
    case Sending => SendStage(p, w, q, v, c.reply);
    case Saving(AfterSend(_), _) => SentSaveStage(p, w, q, v, c.throws);
    case _ =>
  }

  lemma {:induction false} StageRun(p: Proc, w: World, q: Proc, v: World, choices: seq<Choice>)
    requires p.pc == Submitting && Stage(p, w, q, v) && WithinSubmission(q, v, choices)
    ensures var (q1, v1) := Alone(Some(q), v, choices); q1.Some? && Stage(p, w, q1.value, v1)
    decreases |choices|
  {
    if choices != [] {
      StageStep(p, w, q, v, choices[0]);
      var (q1, v1) := Act(q, v, choices[0]);
      StageRun(p, w, q1.value, v1, choices[1..]);
    }
  }

  lemma AtMostOneSend(p: Proc, w: World, s: Script)
    ensures var o := Submission(p.receipt.records, p.options.action, s);
            var end := Performed(w, p.receipt.owner, p.options.action, o.ops);
            || end.sent == w.sent
            || (s.signature.Some? && end.sent == w.sent + [Sent(p.options.action, s.signature.value)])
  {
    Effects(p, w, if s.signature.Some? then s.signature.value else "");
  }

  /** Every run of a process left alone at the guard is one submission: as far as it goes it sends at most once, and
      when it has come to an end, some way for the writes, the signing and the send to turn out gives exactly its
      records, its sends, its durable receipt and its outcome. */
  lemma DriverIsSubmission(p: Proc, w: World, choices: seq<Choice>)
    requires p.pc == Submitting && WithinSubmission(p, w, choices)
    ensures var (q, v) := Alone(Some(p), w, choices);
            && q.Some?
            && (AtEnd(q.value.pc) ==> IsSubmission(p, w, q.value, v))
            && (v.sent == w.sent || exists signature :: v.sent == w.sent + [Sent(p.options.action, signature)])
  {
    StageRun(p, w, p, w, choices);
    var (q, v) := Alone(Some(p), w, choices);
    if AtEnd(q.value.pc) {
      var s :| Realises(Submission(p.receipt.records, p.options.action, s), p, w, q.value, v);
      AtMostOneSend(p, w, s);
    }
  }
}
