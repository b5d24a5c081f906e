/** Runs of the smoke driver: every outcome of `submitSmokeOnce` (src/flp/mainnetSmoke.ts) is one of a process left
    alone; exactly when anything can still be sent, in any reachable state and once an unsigned record is durable; and
    two runs in which such a record is not the end. */
module SmokeRuns {
  import opened Results
  import opened SmokeReceipt
  import opened ReceiptFile
  import opened SmokeDriver

  /** The process takes one step for each choice, with nobody else moving. */
  function Alone(p: Option<Proc>, w: World, choices: seq<Choice>): (Option<Proc>, World)
    decreases |choices|
  {
    if p == None || choices == [] then (p, w)
    else
      var (q, v) := Act(p.value, w, choices[0]);
      Alone(q, v, choices[1..])
  }

  lemma {:induction false} AloneSplit(p: Option<Proc>, w: World, a: seq<Choice>, b: seq<Choice>)
    ensures Alone(p, w, a + b) == (var (q, v) := Alone(p, w, a); Alone(q, v, b))
    decreases |a|
  {
    if p.None? || a == [] {
      assert a + b == b || p.None?;
    } else {
      assert (a + b)[1..] == a[1..] + b;
      var (q, v) := Act(p.value, w, a[0]);
      AloneSplit(q, v, a[1..], b);
    }
  }

  lemma OneStep(p: Proc, w: World, c: Choice)
    ensures Alone(Some(p), w, [c]) == Act(p, w, c)
  {
    var (q, v) := Act(p, w, c);
    assert Alone(q, v, [c][1..]) == (q, v);
  }

  /** From one save to the next step: all four calls succeed, or the first one throws. */
  lemma SaveRun(p: Proc, w: World, works: bool) returns (choices: seq<Choice>)
    requires p.pc.Saving? && p.pc.phase == Opening && w.disk.tmp == NoTmp
    ensures Alone(Some(p), w, choices)
            == (if works
                then (Some(p.(pc := AfterSaving(p.options, p.pc.after))),
                      w.(disk := Disk(NoTmp, Some(p.receipt), Some(p.receipt))))
                else (Some(p.(pc := Releasing)), w))
  {
    if works {
      var (after, r) := (p.pc.after, p.receipt);
      choices := [CLEAN] + ([CLEAN] + ([CLEAN] + [CLEAN]));
      var w1 := w.(disk := w.disk.(tmp := Partial));
      var w2 := w.(disk := w.disk.(tmp := Full(r)));
      var w3 := w.(disk := w.disk.(tmp := NoTmp, file := Some(r)));
      OneStep(p, w, CLEAN);
      OneStep(p.(pc := Saving(after, Writing)), w1, CLEAN);
      OneStep(p.(pc := Saving(after, Renaming)), w2, CLEAN);
      OneStep(p.(pc := Saving(after, Syncing)), w3, CLEAN);
      AloneSplit(Some(p), w, [CLEAN], [CLEAN] + ([CLEAN] + [CLEAN]));
      AloneSplit(Some(p.(pc := Saving(after, Writing))), w1, [CLEAN], [CLEAN] + [CLEAN]);
      AloneSplit(Some(p.(pc := Saving(after, Renaming))), w2, [CLEAN], [CLEAN]);
    } else {
      choices := [CLEAN.(throws := true)];
      OneStep(p, w, choices[0]);
    }
  }

  /** A step, then a save. */
  lemma StepAndSave(p: Proc, w: World, c: Choice, q: Proc, v: World, works: bool) returns (choices: seq<Choice>)
    requires Act(p, w, c) == (Some(q), v)
    requires q.pc.Saving? && q.pc.phase == Opening && v.disk.tmp == NoTmp
    ensures Alone(Some(p), w, choices)
            == (if works
                then (Some(q.(pc := AfterSaving(q.options, q.pc.after))),
                      v.(disk := Disk(NoTmp, Some(q.receipt), Some(q.receipt))))
                else (Some(q.(pc := Releasing)), v))
  {
    var rest := SaveRun(q, v, works);
    choices := [c] + rest;
    OneStep(p, w, c);
    AloneSplit(Some(p), w, [c], rest);
  }

  function On(receipt: Receipt): Disk<Receipt> {
    Disk(NoTmp, Some(receipt), Some(receipt))
  }

  function PerformedOne(w: World, owner: string, action: Action, op: Op): World {
    match op
    case Persist(records) => w.(disk := On(Receipt(owner, records)))
    case Send(signature) => w.(sent := w.sent + [Sent(action, signature)])
  }

  /** The world after a submission's steps: each write replaces the receipt whole and durably, each send is counted. */
  function Performed(w: World, owner: string, action: Action, ops: seq<Op>): World
    decreases |ops|
  {
    if ops == [] then w else Performed(PerformedOne(w, owner, action, ops[0]), owner, action, ops[1..])
  }

  lemma PerformedFirst(w: World, owner: string, action: Action, op: Op, rest: seq<Op>)
    ensures Performed(w, owner, action, [op] + rest)
            == Performed(PerformedOne(w, owner, action, op), owner, action, rest)
  {
    assert ([op] + rest)[1..] == rest;
  }

  lemma PerformedSubmission(w: World, owner: string, action: Action, a: seq<Record>, b: seq<Record>, s: string,
        c: seq<Record>)
    ensures Performed(w, owner, action, [Persist(a)]) == w.(disk := On(Receipt(owner, a)))
    ensures Performed(w, owner, action, [Persist(a), Persist(b), Op.Send(s)])
            == World(w.lock, On(Receipt(owner, b)), w.sent + [Sent(action, s)])
    ensures Performed(w, owner, action, [Persist(a), Persist(b), Op.Send(s)] + [Persist(c)])
            == World(w.lock, On(Receipt(owner, c)), w.sent + [Sent(action, s)])
  {
    var w1 := PerformedOne(w, owner, action, Persist(a));
    var w2 := PerformedOne(w1, owner, action, Persist(b));
    var w3 := PerformedOne(w2, owner, action, Op.Send(s));
    PerformedFirst(w, owner, action, Persist(a), []);
    assert [Persist(a)] == [Persist(a)] + [];
    forall tail
      ensures Performed(w, owner, action, [Persist(a), Persist(b), Op.Send(s)] + tail)
              == Performed(w3, owner, action, tail)
    {
      PerformedFirst(w, owner, action, Persist(a), [Persist(b), Op.Send(s)] + tail);
      PerformedFirst(w1, owner, action, Persist(b), [Op.Send(s)] + tail);
      PerformedFirst(w2, owner, action, Op.Send(s), tail);
      assert [Persist(a), Persist(b), Op.Send(s)] + tail == [Persist(a)] + ([Persist(b), Op.Send(s)] + tail);
      assert [Persist(b), Op.Send(s)] + tail == [Persist(b)] + ([Op.Send(s)] + tail);
    }
    assert [Persist(a), Persist(b), Op.Send(s)] == [Persist(a), Persist(b), Op.Send(s)] + [];
    PerformedFirst(w3, owner, action, Persist(c), []);
    assert [Persist(c)] == [Persist(c)] + [];
  }

  /** What a submission's outcome means for the process and the world it started from. */
  ghost predicate Follows(o: Outcome, p: Proc, w: World, q: Proc, v: World) {
    && q.receipt == p.receipt.(records := o.records) && q.options == p.options
    && v == Performed(w, p.receipt.owner, p.options.action, o.ops)
    && q.pc == (if o.result.Ok? then Rechecking else Releasing)
  }

  lemma SignAndSend(p: Proc, w: World, s: Script) returns (choices: seq<Choice>, q: Proc, v: World)
    requires p.pc == Signing && w.disk.tmp == NoTmp && p.receipt.records != [] && s.signature.Some? && s.write2
    ensures Alone(Some(p), w, choices) == (Some(q), v)
    ensures var signed := WithSignature(p.receipt.records, s.signature.value);
            var unknown := WithStatus(signed, Unknown);
            && q.receipt == p.receipt.(records := unknown) && q.options == p.options
            && q.pc == (if s.write3 && s.reply == s.signature then Rechecking else Releasing)
            && v == World(w.lock,
                          Disk(NoTmp, Some(p.receipt.(records := if s.write3 then unknown else signed)),
                               Some(p.receipt.(records := if s.write3 then unknown else signed))),
                          w.sent + [Sent(p.options.action, s.signature.value)])
  {
    var signed := Sign(p, s.signature);
    var a := StepAndSave(p, w, CLEAN.(signature := s.signature), signed, w, true);
    var ready := signed.(pc := Sending);
    var w1 := w.(disk := Disk(NoTmp, Some(signed.receipt), Some(signed.receipt)));
    var (sent, w2) := SmokeDriver.Send(ready, w1, s.reply);
    var b := StepAndSave(ready, w1, CLEAN.(reply := s.reply), sent, w2, s.write3);
    AloneSplit(Some(p), w, a, b);
    choices := a + b;
    var (end, w3) := Alone(Some(ready), w1, b);
    q, v := end.value, w3;
  }

  /** Every outcome of a submission has a run: for every way its writes, its signing and its send can turn out, the
      process can end, left alone, with the records, the files, the sends and the outcome it prescribes. */
  lemma DriverFollowsSubmission(p: Proc, w: World, s: Script) returns (choices: seq<Choice>, q: Proc, v: World)
    requires p.pc == Submitting && w.disk.tmp == NoTmp
    ensures Alone(Some(p), w, choices) == (Some(q), v)
    ensures Follows(Submission(p.receipt.records, p.options.action, s), p, w, q, v)
  {
    var o := Submission(p.receipt.records, p.options.action, s);
    if AssertNoReplay(p.receipt.records, p.options.action).Err? {
      choices, q, v := [CLEAN], p.(pc := Releasing), w;
      OneStep(p, w, CLEAN);
      return;
    }
    var prepared := Prepare(p);
    var signature := if s.signature.Some? then s.signature.value else "";
    var signed := WithSignature(prepared.receipt.records, signature);
    PerformedSubmission(w, p.receipt.owner, p.options.action, prepared.receipt.records, signed, signature,
          WithStatus(signed, Unknown));
    var a := StepAndSave(p, w, CLEAN, prepared, w, s.write1);
    if !s.write1 {
      choices, q, v := a, prepared.(pc := Releasing), w;
      return;
    }
    var p1 := prepared.(pc := Signing);
    var w1 := w.(disk := Disk(NoTmp, Some(prepared.receipt), Some(prepared.receipt)));
    var b;
    if s.signature == None {
      b, q, v := [CLEAN.(signature := None)], p1.(pc := Releasing), w1;
      OneStep(p1, w1, b[0]);
    } else if !s.write2 {
      var p2 := Sign(p1, s.signature);
      b := StepAndSave(p1, w1, CLEAN.(signature := s.signature), p2, w1, false);
      q, v := p2.(pc := Releasing), w1;
    } else {
      b, q, v := SignAndSend(p1, w1, s);
    }
    choices := a + b;
    AloneSplit(Some(p), w, a, b);
  }

  function Advances(pid: nat, choices: seq<Choice>): seq<Step> {
    seq(|choices|, i requires 0 <= i < |choices| => Advance(pid, choices[i]))
  }

  /** A process alone is one of the system's runs. */
  lemma {:induction false} AloneIsRun(s: Sys, pid: nat, choices: seq<Choice>, q: Proc, v: World)
    requires pid in s.procs && Alone(Some(s.procs[pid]), s.world, choices) == (Some(q), v)
    ensures Run(s, Advances(pid, choices)) == Sys(s.procs[pid := q], v)
    decreases |choices|
  {
    if choices == [] {
      assert s.procs[pid := q] == s.procs;
    } else {
      var t := Apply(s, Advance(pid, choices[0]));
      var (q1, w1) := Act(s.procs[pid], s.world, choices[0]);
      assert q1.Some?;
      AloneIsRun(t, pid, choices[1..], q, v);
      assert Advances(pid, choices)[1..] == Advances(pid, choices[1..]);
      assert t.procs[pid := q] == s.procs[pid := q];
    }
  }

  lemma {:induction false} RunSplit(s: Sys, a: seq<Step>, b: seq<Step>)
    ensures Run(s, a + b) == Run(Run(s, a), b)
    decreases |a|
  {
    if a == [] {
      assert a + b == b;
    } else {
      assert (a + b)[1..] == a[1..] + b;
      RunSplit(Apply(s, a[0]), a[1..], b);
    }
  }

  lemma RunOne(s: Sys, step: Step)
    ensures Run(s, [step]) == Apply(s, step)
  {
    assert Run(Apply(s, step), [step][1..]) == Apply(s, step);
  }

  // ---- From starting to signing ----

  /** The receipt after a complete reconciliation of what is on file. */
  function Refreshed(owner: string, file: Option<Receipt>, answers: seq<Answer>): Receipt
    requires |answers| == |Records(file)|
  {
    Receipt(owner, Reconciled(Records(file), answers))
  }

  lemma ReachesBuilding(p: Proc, w: World, answers: seq<Answer>) returns (choices: seq<Choice>)
    requires p.pc == Starting && !w.lock && w.disk.tmp == NoTmp && Submits(p.options.action)
    requires w.disk.file.Some? ==> w.disk.file.value.owner == p.options.owner
    requires |answers| == |Records(w.disk.file)| && ReadsBeforeThrow(Records(w.disk.file), answers) == |answers|
    ensures var r := Refreshed(p.options.owner, w.disk.file, answers);
            Alone(Some(p), w, choices) == (Some(p.(pc := Building, receipt := r)), World(true, On(r), w.sent))
  {
    var loaded := if w.disk.file.Some? then w.disk.file.value else Receipt(p.options.owner, []);
    var p1, w1 := p.(pc := Loading), w.(lock := true);
    var p2 := p.(pc := Reconciling, receipt := loaded);
    OneStep(p, w, CLEAN);
    OneStep(p1, w1, CLEAN);
    var p3 := p.(pc := Saving(AfterReconcile, Opening), receipt := Refreshed(p.options.owner, w.disk.file, answers));
    var a := StepAndSave(p2, w1, CLEAN.(answers := answers), p3, w1, true);
    AloneSplit(Some(p1), w1, [CLEAN], a);
    AloneSplit(Some(p), w, [CLEAN], [CLEAN] + a);
    choices := [CLEAN] + ([CLEAN] + a);
  }

  lemma BuildsAndPrepares(p: Proc, w: World) returns (choices: seq<Choice>)
    requires p.pc == Building && w.disk.tmp == NoTmp && p.options.transact
    requires AssertNoReplay(p.receipt.records, p.options.action).Ok? && HasEvidence(p.receipt, p.options.action)
    ensures var r := p.receipt.(records := p.receipt.records + [NewRecord(p.options.action)]);
            Alone(Some(p), w, choices) == (Some(p.(pc := Signing, receipt := r)), w.(disk := On(r)))
  {
    var p1 := p.(pc := Submitting);
    OneStep(p, w, CLEAN);
    var a := StepAndSave(p1, w, CLEAN, Prepare(p1), w, true);
    AloneSplit(Some(p), w, [CLEAN], a);
    choices := [CLEAN] + a;
  }

  /** Undisturbed, a process that the refreshed receipt lets through gets as far as signing, its bare record durable. */
  lemma ReachesSigning(p: Proc, w: World, answers: seq<Answer>) returns (choices: seq<Choice>)
    requires p.pc == Starting && !w.lock && w.disk.tmp == NoTmp && p.options.transact && Submits(p.options.action)
    requires w.disk.file.Some? ==> w.disk.file.value.owner == p.options.owner
    requires |answers| == |Records(w.disk.file)| && ReadsBeforeThrow(Records(w.disk.file), answers) == |answers|
    requires var r := Refreshed(p.options.owner, w.disk.file, answers);
             AssertNoReplay(r.records, p.options.action).Ok? && HasEvidence(r, p.options.action)
    ensures var r := Refreshed(p.options.owner, w.disk.file, answers);
            var prepared := r.(records := r.records + [NewRecord(p.options.action)]);
            Alone(Some(p), w, choices)
            == (Some(p.(pc := Signing, receipt := prepared)), World(true, On(prepared), w.sent))
  {
    var r := Refreshed(p.options.owner, w.disk.file, answers);
    var a := ReachesBuilding(p, w, answers);
    var b := BuildsAndPrepares(p.(pc := Building, receipt := r), World(true, On(r), w.sent));
    AloneSplit(Some(p), w, a, b);
    choices := a + b;
  }

  // ---- When anything can still be sent ----

  function EvidenceName(action: Action): string {
    if action == RequestWithdraw then "FlpPermissionedDeposit" else "FlpWithdrawRequested"
  }

  /** The event that lets an action follow the one before it. */
  function EvidenceEvent(action: Action, owner: string): Event {
    Event(EvidenceName(action), VAULT, owner, map[])
  }

  /** An RPC that reports every signature confirmed, with that event. */
  function Favourable(n: nat, e: Event): (answers: seq<Answer>)
    ensures |answers| == n
  {
    seq(n, _ => Answer(Found(0, false, AtConfirmed), Logs([e])))
  }

  lemma FavourableSettles(records: seq<Record>, e: Event)
    requires forall i | 0 <= i < |records| :: records[i].signature.Some?
    ensures ReadsBeforeThrow(records, Favourable(|records|, e)) == |records|
    ensures var after := Reconciled(records, Favourable(|records|, e));
            forall i | 0 <= i < |records| ::
              after[i].action == records[i].action && Settled(after[i]) && after[i].events == [e]
  {
  }

  lemma SettledFound(receipt: Receipt, action: Action, name: string, e: Event, i: nat)
    requires i < |receipt.records| && receipt.records[i].action == action
    requires forall j | 0 <= j < |receipt.records| :: Settled(receipt.records[j]) && receipt.records[j].events == [e]
    requires e.name == name && e.vault == VAULT && e.user == receipt.owner
    ensures ConfirmedEvent(receipt, action, name).Ok?
  {
    var found := FindSettled(receipt.records, action);
    assert found.Some? by {
      assert Settled(receipt.records[i]);
    }
    assert found.value.events == [e];
    assert Matching([e][1..], name, receipt.owner) == [];
    assert |Matching([e], name, receipt.owner)| == 1;
  }

  /** On a receipt that is not closed the next action of the order is let through, once the RPC is favourable. */
  lemma OpenLetsNextThrough(o: Option<Receipt>, owner: string)
    requires Shape(Records(o)) && !Closed(o)
    ensures var n := |Records(o)|;
            var action := ActionAt(n);
            var answers := Favourable(n, EvidenceEvent(action, owner));
            && ReadsBeforeThrow(Records(o), answers) == n
            && var r := Refreshed(owner, o, answers);
               AssertNoReplay(r.records, action).Ok? && HasEvidence(r, action)
  {
    var n := |Records(o)|;
    var action := ActionAt(n);
    var e := EvidenceEvent(action, owner);
    FavourableSettles(Records(o), e);
    var r := Refreshed(owner, o, Favourable(n, e));
    if n == 1 {
      SettledFound(r, Deposit, "FlpPermissionedDeposit", e, 0);
    } else if n == 2 {
      SettledFound(r, RequestWithdraw, "FlpWithdrawRequested", e, 1);
    }
  }

  /** With nobody running and an open receipt on disk, one process and a favourable RPC send the next action. */
  lemma OpenReceiptSends(o: Option<Receipt>, sent: seq<Sent>) returns (steps: seq<Step>)
    requires var s := Sys(map[], World(false, Disk(NoTmp, o, o), sent)); Inv(s) && !Closed(o)
    ensures |Run(Sys(map[], World(false, Disk(NoTmp, o, o), sent)), steps).world.sent| > |sent|
  {
    var s := Sys(map[], World(false, Disk(NoTmp, o, o), sent));
    var owner := if o.Some? then o.value.owner else "";
    var options := Options(ActionAt(|Records(o)|), true, owner);
    var answers := Favourable(|Records(o)|, EvidenceEvent(options.action, owner));
    OpenLetsNextThrough(o, owner);
    var p := Proc(Starting, options, Receipt(owner, []));
    var t := Apply(s, Spawn(0, options));
    var choices := ReachesSigning(p, s.world, answers);
    var (q, v) := Alone(Some(p), s.world, choices);
    AloneIsRun(t, 0, choices, q.value, v);
    StepKeepsInv(s, Spawn(0, options));
    RunKeepsInv(t, Advances(0, choices));
    var rest := SignerSends(Run(t, Advances(0, choices)), 0);
    RunSplit(t, Advances(0, choices), rest);
    RunOne(s, Spawn(0, options));
    RunSplit(s, [Spawn(0, options)], Advances(0, choices) + rest);
    steps := [Spawn(0, options)] + (Advances(0, choices) + rest);
  }

  lemma OpenCopySends(s: Sys, keepRename: bool) returns (steps: seq<Step>)
    requires Inv(s) && !Closed(if keepRename then s.world.disk.file else s.world.disk.durable)
    ensures |Run(s, steps).world.sent| > |s.world.sent|
  {
    var loss := LosePower(keepRename, false, NoTmp);
    StepKeepsInv(s, loss);
    var rest := OpenReceiptSends(if keepRename then s.world.disk.file else s.world.disk.durable, s.world.sent);
    RunOne(s, loss);
    RunSplit(s, [loss], rest);
    steps := [loss] + rest;
  }

  /** In any reachable state, something can still be sent exactly when a process is signing, saving a signature or
      sending, or when the file or what a power loss would leave of it is open: its last record is signed and not
      every action is recorded. */
  lemma SendPossibleIff(history: seq<Step>)
    ensures var s := Run(Start(), history);
            (exists steps :: |Run(s, steps).world.sent| > |s.world.sent|)
            <==>
            || (exists pid :: pid in s.procs && InFlight(s.procs[pid].pc))
            || !Closed(s.world.disk.file) || !Closed(s.world.disk.durable)
  {
    RunKeepsInv(Start(), history);
    var s := Run(Start(), history);
    if pid :| pid in s.procs && InFlight(s.procs[pid].pc) {
      var steps := SignerSends(s, pid);
    } else if !Closed(s.world.disk.file) {
      var steps := OpenCopySends(s, true);
    } else if !Closed(s.world.disk.durable) {
      var steps := OpenCopySends(s, false);
    } else {
      forall steps ensures Run(s, steps).world.sent == s.world.sent {
        StuckForever(s, steps);
      }
    }
  }

  /** Once a record without a signature is durable, a later send is possible exactly when some process is about to sign
      that record or is saving its signature, or when the file already has the signature and is not the whole round
      trip: then a restart may find it confirmed and go on to the next action. */
  lemma UnsignedRecordStopsSending(history: seq<Step>)
    requires LastUnsigned(Run(Start(), history).world.disk.durable)
    ensures var s := Run(Start(), history);
            (exists steps :: |Run(s, steps).world.sent| > |s.world.sent|)
            <==>
            || (exists pid :: pid in s.procs && MidSigning(s.procs[pid].pc))
            || (!LastUnsigned(s.world.disk.file) && |Records(s.world.disk.file)| < 3)
  {
    RunKeepsInv(Start(), history);
    SendPossibleIff(history);
    var s := Run(Start(), history);
    forall pid | pid in s.procs ensures s.procs[pid].pc != Sending {
      assert Holds(s.procs[pid], s.world);
    }
  }

  // ---- Two runs in which a durable unsigned record does not end it ----

  /** A first deposit, undisturbed up to signing. */
  lemma FirstDeposit(owner: string) returns (history: seq<Step>)
    ensures var r := Receipt(owner, [NewRecord(Deposit)]);
            Run(Start(), history)
            == Sys(map[0 := Proc(Signing, Options(Deposit, true, owner), r)], World(true, On(r), []))
  {
    var options := Options(Deposit, true, owner);
    var p := Proc(Starting, options, Receipt(owner, []));
    OpenLetsNextThrough(None, owner);
    assert Favourable(0, EvidenceEvent(Deposit, owner)) == [];
    var choices := ReachesSigning(p, Start().world, []);
    assert Refreshed(owner, None, []).records == [];
    assert [] + [NewRecord(Deposit)] == [NewRecord(Deposit)];
    var r := Receipt(owner, [NewRecord(Deposit)]);
    RunOne(Start(), Spawn(0, options));
    AloneIsRun(Apply(Start(), Spawn(0, options)), 0, choices, p.(pc := Signing, receipt := r), World(true, On(r), []));
    RunSplit(Start(), [Spawn(0, options)], Advances(0, choices));
    history := [Spawn(0, options)] + Advances(0, choices);
  }

  /** The process that wrote the record goes on to sign and send it. */
  lemma UnsignedRecordCanStillBeSent(owner: string) returns (history: seq<Step>, steps: seq<Step>)
    ensures var s := Run(Start(), history);
            LastUnsigned(s.world.disk.file) && LastUnsigned(s.world.disk.durable) && s.world.sent == []
    ensures Run(Run(Start(), history), steps).world.sent != []
  {
    history := FirstDeposit(owner);
    RunKeepsInv(Start(), history);
    steps := SignerSends(Run(Start(), history), 0);
  }

  lemma SignsOntoFile(p: Proc, w: World) returns (choices: seq<Choice>)
    requires p.pc == Signing && w.disk.tmp == NoTmp && p.receipt.records != []
    ensures var r := p.receipt.(records := WithSignature(p.receipt.records, "1"));
            Alone(Some(p), w, choices)
            == (Some(p.(pc := Saving(AfterSign, Syncing), receipt := r)),
                w.(disk := Disk(NoTmp, Some(r), w.disk.durable)))
  {
    var r := p.receipt.(records := WithSignature(p.receipt.records, "1"));
    var q := p.(pc := Saving(AfterSign, Opening), receipt := r);
    var w1 := w.(disk := w.disk.(tmp := Partial));
    var w2 := w.(disk := w.disk.(tmp := Full(r)));
    OneStep(p, w, CLEAN);
    OneStep(q, w, CLEAN);
    OneStep(q.(pc := Saving(AfterSign, Writing)), w1, CLEAN);
    OneStep(q.(pc := Saving(AfterSign, Renaming)), w2, CLEAN);
    AloneSplit(Some(q.(pc := Saving(AfterSign, Writing))), w1, [CLEAN], [CLEAN]);
    AloneSplit(Some(q), w, [CLEAN], [CLEAN] + [CLEAN]);
    AloneSplit(Some(p), w, [CLEAN], [CLEAN] + ([CLEAN] + [CLEAN]));
    choices := [CLEAN] + ([CLEAN] + ([CLEAN] + [CLEAN]));
  }

  /** The process dies with the signature in the file and not yet durable; nobody is left running, and the next action
      can still be sent. */
  lemma SignedFileReopens(owner: string) returns (history: seq<Step>, steps: seq<Step>)
    ensures var s := Run(Start(), history);
            && s.procs == map[] && s.world.sent == []
            && LastUnsigned(s.world.disk.durable) && !LastUnsigned(s.world.disk.file)
    ensures Run(Run(Start(), history), steps).world.sent != []
  {
    var prefix := FirstDeposit(owner);
    var s := Run(Start(), prefix);
    var choices := SignsOntoFile(s.procs[0], s.world);
    var (q, v) := Alone(Some(s.procs[0]), s.world, choices);
    AloneIsRun(s, 0, choices, q.value, v);
    RunSplit(Start(), prefix, Advances(0, choices));
    var t := Run(s, Advances(0, choices));
    RunOne(t, Crash(0));
    RunSplit(Start(), prefix + Advances(0, choices), [Crash(0)]);
    history := prefix + Advances(0, choices) + [Crash(0)];
    assert Apply(t, Crash(0)).procs == map[];
    UnsignedRecordStopsSending(history);
    steps :| |Run(Run(Start(), history), steps).world.sent| > 0;
  }
}
