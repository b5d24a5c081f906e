/** The smoke runner as a protocol (`main` in src/bin/flp-mainnet-smoke.ts around `submitSmokeOnce`): any number of
    processes contend for a lock file, each writes a shared receipt ahead of what it does, the RPC answers anything,
    and a process or the whole machine may die between any two steps. */
module SmokeDriver {
  import opened Results
  import opened SmokeReceipt
  import opened ReceiptFile

  datatype Options = Options(action: Action, transact: bool, owner: string)

  /** What a process goes on to after a save. */
  datatype After = AfterReconcile | AfterPrepare | AfterSign | AfterSend(uncertain: bool) | AfterRecheck

  /** Where a process stands: its next step. */
  datatype Pc =
    | Starting | Loading | Reconciling | Saving(after: After, phase: Phase) | Building | Submitting | Signing
    | Sending | Rechecking | Releasing

  datatype Proc = Proc(pc: Pc, options: Options, receipt: Receipt)

  datatype Sent = Sent(action: Action, signature: string)

  /** What outlives a process: the lock file, the receipt file, and the transactions handed to the network. */
  datatype World = World(lock: bool, disk: Disk<Receipt>, sent: seq<Sent>)

  datatype Sys = Sys(procs: map<nat, Proc>, world: World)

  /** What a process meets in one step: an exception from any call it makes, the RPC's answers about the recorded
      signatures, the signature it makes, the RPC's reply to a send. */
  datatype Choice = Choice(throws: bool, answers: seq<Answer>, signature: Option<string>, reply: Option<string>)

  /** A power loss may drop or bring back an unflushed lock file. The operator removes a lock or a temporary file only
      after establishing that no runner is active. */
  datatype Step =
    | Spawn(pid: nat, options: Options)
    | Advance(pid: nat, choice: Choice)
    | Crash(pid: nat)
    | LosePower(keepRename: bool, keepLock: bool, tmp: Tmp<Receipt>)
    | RemoveLock
    | RemoveTmp

  predicate Submits(action: Action) {
    action == Deposit || action == RequestWithdraw || action == Claim
  }

  /** Options rejected here never reach the lock. */
  predicate ValidOptions(o: Options) {
    o.transact ==> Submits(o.action)
  }

  function Records(o: Option<Receipt>): seq<Record> {
    if o.Some? then o.value.records else []
  }

  // ---- One step of the process that holds the lock ----

  function AfterSaving(o: Options, after: After): Pc {
    match after
    case AfterReconcile => if Submits(o.action) then Building else Releasing
    case AfterPrepare => Signing
    case AfterSign => Sending
    case AfterSend(uncertain) => if uncertain then Releasing else Rechecking
    case AfterRecheck => Releasing
  }

  function NextPc(o: Options, after: After, phase: Phase): Pc {
    match phase
    case Opening => Saving(after, Writing)
    case Writing => Saving(after, Renaming)
    case Renaming => Saving(after, Syncing)
    case Syncing => AfterSaving(o, after)
  }

  /** Reconciliation, then a save; an exception from a read ends the run with nothing saved. */
  function ReconcileThen(p: Proc, after: After, answers: seq<Answer>): Proc {
    if |answers| != |p.receipt.records| || ReadsBeforeThrow(p.receipt.records, answers) < |p.receipt.records| then
      p.(pc := Releasing)
    else
      p.(pc := Saving(after, Opening), receipt := p.receipt.(records := Reconciled(p.receipt.records, answers)))
  }

  function Load(p: Proc, w: World, throws: bool): Proc {
    var receipt := if w.disk.file.Some? then w.disk.file.value else Receipt(p.options.owner, []);
    if receipt.owner != p.options.owner || throws then p.(pc := Releasing)
    else p.(pc := Reconciling, receipt := receipt)
  }

  function Build(p: Proc, throws: bool): Proc {
    if AssertNoReplay(p.receipt.records, p.options.action).Err? || !HasEvidence(p.receipt, p.options.action) || throws
       || !p.options.transact
    then p.(pc := Releasing)
    else p.(pc := Submitting)
  }

  function Prepare(p: Proc): Proc {
    if AssertNoReplay(p.receipt.records, p.options.action).Err? then p.(pc := Releasing)
    else p.(pc := Saving(AfterPrepare, Opening),
            receipt := p.receipt.(records := p.receipt.records + [NewRecord(p.options.action)]))
  }

  function Sign(p: Proc, signature: Option<string>): Proc {
    if signature == None || p.receipt.records == [] then p.(pc := Releasing)
    else p.(pc := Saving(AfterSign, Opening),
            receipt := p.receipt.(records := WithSignature(p.receipt.records, signature.value)))
  }

  function Send(p: Proc, w: World, reply: Option<string>): (Proc, World) {
    if p.receipt.records == [] || Last(p.receipt.records).signature == None then (p, w)
    else
      var signature := Last(p.receipt.records).signature;
      (p.(pc := Saving(AfterSend(reply != signature), Opening),
          receipt := p.receipt.(records := WithStatus(p.receipt.records, Unknown))),
       w.(sent := w.sent + [Sent(p.options.action, signature.value)]))
  }

  function Save(p: Proc, w: World, throws: bool): (Proc, World)
    requires p.pc.Saving?
  {
    var disk := Perform(w.disk, p.pc.phase, p.receipt);
    if throws || disk == None then (p.(pc := Releasing), w)
    else (p.(pc := NextPc(p.options, p.pc.after, p.pc.phase)), w.(disk := disk.value))
  }

  /** The process after one step, or None once it has ended, and the world after it. */
  function Act(p: Proc, w: World, c: Choice): (Option<Proc>, World) {
    match p.pc
    case Starting => if w.lock then (None, w) else (Some(p.(pc := Loading)), w.(lock := true))
    case Loading => (Some(Load(p, w, c.throws)), w)
    case Reconciling => (Some(ReconcileThen(p, AfterReconcile, c.answers)), w)
    case Saving(_, _) => var (q, v) := Save(p, w, c.throws); (Some(q), v)
    case Building => (Some(Build(p, c.throws)), w)
    case Submitting => (Some(Prepare(p)), w)
    case Signing => (Some(Sign(p, c.signature)), w)
    case Sending => var (q, v) := Send(p, w, c.reply); (Some(q), v)
    case Rechecking => (Some(ReconcileThen(p, AfterRecheck, c.answers)), w)
    case Releasing => (None, w.(lock := w.lock && c.throws))
  }

  // ---- The whole system ----

  predicate NoRunner(s: Sys) {
    forall pid | pid in s.procs :: s.procs[pid].pc == Starting
  }

  function Apply(s: Sys, step: Step): Sys {
    match step
    case Spawn(pid, options) =>
      if pid in s.procs || !ValidOptions(options) then s
      else s.(procs := s.procs[pid := Proc(Starting, options, Receipt(options.owner, []))])
    case Advance(pid, choice) =>
      if pid !in s.procs then s
      else
        var (q, w) := Act(s.procs[pid], s.world, choice);
        Sys(if q.Some? then s.procs[pid := q.value] else s.procs - {pid}, w)
    case Crash(pid) => s.(procs := s.procs - {pid})
    case LosePower(keepRename, keepLock, tmp) =>
      Sys(map[], World(keepLock, PowerLoss(s.world.disk, keepRename, tmp), s.world.sent))
    case RemoveLock => if NoRunner(s) then s.(world := s.world.(lock := false)) else s
    case RemoveTmp =>
      if NoRunner(s) then s.(world := s.world.(disk := s.world.disk.(tmp := NoTmp))) else s
  }

  function Start(): Sys {
    Sys(map[], World(false, Disk(NoTmp, None, None), []))
  }

  function Run(s: Sys, steps: seq<Step>): Sys
    decreases |steps|
  {
    if steps == [] then s else Run(Apply(s, steps[0]), steps[1..])
  }

  // ---- The invariant ----

  function Slot(action: Action): nat {
    match action
    case RequestWithdraw => 1
    case Claim => 2
    case _ => 0
  }

  function ActionAt(i: nat): Action {
    if i == 0 then Deposit else if i == 1 then RequestWithdraw else Claim
  }

  /** Records follow the order deposit, request-withdraw, claim; only the last may lack a signature, and then it is
      merely prepared. */
  ghost predicate Shape(records: seq<Record>) {
    && |records| <= 3
    && (forall i | 0 <= i < |records| :: records[i].action == ActionAt(i))
    && (forall i | 0 <= i < |records| ::
          records[i].signature == None ==> i == |records| - 1 && records[i].status == Prepared)
  }

  /** `late` has every submission of `early`, and may only have added signatures and records. */
  ghost predicate Extends(early: seq<Record>, late: seq<Record>) {
    && |early| <= |late|
    && forall i | 0 <= i < |early| ::
         early[i].action == late[i].action && (early[i].signature.Some? ==> late[i].signature == early[i].signature)
  }

  ghost predicate OwnerKept(d: Disk<Receipt>) {
    d.durable.Some? ==> d.file.Some? && d.file.value.owner == d.durable.value.owner
  }

  /** Every send is in the durable receipt, with the signature that was sent, and each is for a later action than the
      one before. */
  ghost predicate Journalled(sent: seq<Sent>, durable: seq<Record>) {
    && (forall i | 0 <= i < |sent| ::
          && Submits(sent[i].action) && Slot(sent[i].action) < |durable|
          && durable[Slot(sent[i].action)].signature == Some(sent[i].signature))
    && (forall i, j | 0 <= i < j < |sent| :: Slot(sent[i].action) < Slot(sent[j].action))
  }

  ghost predicate StoreOk(w: World) {
    && Shape(Records(w.disk.file)) && Shape(Records(w.disk.durable))
    && Extends(Records(w.disk.durable), Records(w.disk.file)) && OwnerKept(w.disk)
    && Journalled(w.sent, Records(w.disk.durable))
  }

  /** The receipt in memory is the file's, up to what reconciliation changes. */
  ghost predicate Mirrors(p: Proc, o: Option<Receipt>) {
    Shape(p.receipt.records) && SameSubmissions(Records(o), p.receipt.records)
    && (o.Some? ==> o.value.owner == p.receipt.owner)
  }

  ghost predicate Unsent(w: World, action: Action) {
    forall i | 0 <= i < |w.sent| :: w.sent[i].action != action
  }

  ghost predicate AllSame(p: Proc, d: Disk<Receipt>) {
    d.file == d.durable == Some(p.receipt)
  }

  /** The new record is the last one in memory, and neither disk copy has it yet. */
  ghost predicate JustPrepared(p: Proc) {
    && p.receipt.records != [] && Last(p.receipt.records) == NewRecord(p.options.action)
    && AssertNoReplay(Init(p.receipt.records), p.options.action).Ok?
    && Shape(p.receipt.records)
  }

  function Unprepared(p: Proc): Receipt
    requires p.receipt.records != []
  {
    p.receipt.(records := Init(p.receipt.records))
  }

  /** In memory the last record is signed. */
  ghost predicate JustSigned(p: Proc) {
    && p.receipt.records != [] && Shape(p.receipt.records)
    && Last(p.receipt.records).action == p.options.action
    && Last(p.receipt.records).status == Signed && Last(p.receipt.records).signature.Some?
  }

  /** The same receipt with the last record as it was before signing. */
  function Unsigned(p: Proc): Receipt
    requires p.receipt.records != []
  {
    var n := |p.receipt.records| - 1;
    p.receipt.(records := p.receipt.records[n := NewRecord(p.options.action)])
  }

  /** What holds at each save, before the directory is flushed: `before` is what both disk copies are. */
  ghost predicate SavingOk(p: Proc, d: Disk<Receipt>, before: Option<Receipt>)
    requires p.pc.Saving?
  {
    match p.pc.phase
    case Opening => d.file == d.durable == before
    case Writing => d.file == d.durable == before
    case Renaming => d.file == d.durable == before && d.tmp == Full(p.receipt)
    case Syncing => d.file == Some(p.receipt) && d.durable == before && d.tmp == NoTmp
  }

  ghost predicate Holds(p: Proc, w: World) {
    var d := w.disk;
    match p.pc
    case Starting => true
    case Loading => true
    case Reconciling => Mirrors(p, d.file) && (d.file.Some? ==> d.file == Some(p.receipt))
    case Saving(after, phase) =>
      (match after
       case AfterReconcile =>
         Mirrors(p, d.file) && (phase == Renaming ==> d.tmp == Full(p.receipt))
               && (phase == Syncing ==> d.file == Some(p.receipt))
       case AfterPrepare => Submits(p.options.action) && JustPrepared(p) && SavingOk(p, d, Some(Unprepared(p)))
       case AfterSign =>
         && Submits(p.options.action) && JustSigned(p) && SavingOk(p, d, Some(Unsigned(p)))
         && (phase == Opening ==> d.tmp == NoTmp)
       case _ => Mirrors(p, d.durable) && d.durable.Some? && SavingOk(p, d, d.durable))
    case Building => AllSame(p, d) && Submits(p.options.action)
    case Submitting =>
      AllSame(p, d) && Submits(p.options.action) && AssertNoReplay(p.receipt.records, p.options.action).Ok?
      && HasEvidence(p.receipt, p.options.action)
    case Signing =>
      && AllSame(p, d) && Submits(p.options.action) && p.receipt.records != []
      && Last(p.receipt.records) == NewRecord(p.options.action) && d.tmp == NoTmp
    case Sending => AllSame(p, d) && Submits(p.options.action) && JustSigned(p) && Unsent(w, p.options.action)
    case Rechecking => AllSame(p, d)
    case Releasing => true
  }

  // ---- The invariant is kept, step by step of the lock holder ----

  ghost predicate HolderOk(p: Proc, w: World) {
    p.pc != Starting && w.lock && StoreOk(w) && Holds(p, w)
  }

  /** Reconciling records keeps their shape and their submissions. */
  lemma ReconciledMirrors(records: seq<Record>, answers: seq<Answer>)
    requires Shape(records) && |answers| == |records|
    ensures Shape(Reconciled(records, answers)) && SameSubmissions(records, Reconciled(records, answers))
  {
  }

  lemma ReconcileStep(p: Proc, w: World, after: After, answers: seq<Answer>)
    requires HolderOk(p, w) && p.pc in {Reconciling, Rechecking}
    requires after == if p.pc == Reconciling then AfterReconcile else AfterRecheck
    ensures HolderOk(ReconcileThen(p, after, answers), w)
  {
    if |answers| == |p.receipt.records| {
      ReconciledMirrors(p.receipt.records, answers);
    }
  }

  lemma LoadStep(p: Proc, w: World, throws: bool)
    requires HolderOk(p, w) && p.pc == Loading
    ensures HolderOk(Load(p, w, throws), w)
  {
  }

  lemma SlotTaken(records: seq<Record>, action: Action)
    requires Shape(records) && Submits(action) && Slot(action) < |records|
    ensures AssertNoReplay(records, action) == Err(AlreadyRecorded)
  {
    assert records[Slot(action)].action == action;
  }

  /** The evidence an action needs puts it in the next place of the order. */
  lemma NextInOrder(receipt: Receipt, action: Action)
    requires Shape(receipt.records) && Submits(action)
    requires AssertNoReplay(receipt.records, action).Ok? && HasEvidence(receipt, action)
    ensures Slot(action) == |receipt.records| && Shape(receipt.records + [NewRecord(action)])
  {
    var records := receipt.records;
    forall i | 0 <= i < |records| ensures i != Slot(action) && Settled(records[i]) {
      assert records[i].action == ActionAt(i) && records[i].action != action;
    }
    if Slot(action) < |records| {
      SlotTaken(records, action);
    }
    if action == RequestWithdraw {
      assert FindSettled(records, Deposit).Some?;
    } else if action == Claim {
      var r := FindSettled(records, RequestWithdraw).value;
      var i :| 0 <= i < |records| && records[i] == r;
      assert records[i].action == ActionAt(i);
    }
  }

  lemma PrepareStep(p: Proc, w: World)
    requires HolderOk(p, w) && p.pc == Submitting
    ensures HolderOk(Prepare(p), w)
  {
    NextInOrder(p.receipt, p.options.action);
    var q := Prepare(p);
    assert Init(q.receipt.records) == p.receipt.records;
  }

  lemma SignStep(p: Proc, w: World, signature: Option<string>)
    requires HolderOk(p, w) && p.pc == Signing
    ensures HolderOk(Sign(p, signature), w)
  {
    if signature.Some? {
      assert Unsigned(Sign(p, signature)).records == p.receipt.records;
    }
  }

  lemma SendStep(p: Proc, w: World, reply: Option<string>)
    requires HolderOk(p, w) && p.pc == Sending
    ensures var (q, v) := Send(p, w, reply); HolderOk(q, v)
  {
    var (q, v) := Send(p, w, reply);
    var n := |p.receipt.records| - 1;
    assert n == Slot(p.options.action);
    assert Mirrors(q, v.disk.durable);
  }

  /** What the durable copy journals, any copy that extends it does too. */
  lemma JournalGrows(sent: seq<Sent>, early: seq<Record>, late: seq<Record>)
    requires Journalled(sent, early) && Extends(early, late)
    ensures Journalled(sent, late)
  {
  }

  /** The receipt in memory may replace the file: it extends the durable one. */
  ghost predicate CanReplace(p: Proc, d: Disk<Receipt>) {
    && Shape(p.receipt.records) && Extends(Records(d.durable), p.receipt.records)
    && (d.durable.Some? ==> d.durable.value.owner == p.receipt.owner)
  }

  /** Whatever is being saved, a step of the save keeps the files in order. */
  lemma SaveKeepsStore(p: Proc, w: World, throws: bool)
    requires StoreOk(w) && p.pc.Saving?
    requires p.pc.phase == Renaming ==> w.disk.tmp == Full(p.receipt) && CanReplace(p, w.disk)
    ensures StoreOk(Save(p, w, throws).1)
  {
    if p.pc.phase == Syncing {
      JournalGrows(w.sent, Records(w.disk.durable), Records(w.disk.file));
    }
  }

  lemma MirrorCanReplace(p: Proc, w: World, o: Option<Receipt>)
    requires StoreOk(w) && Mirrors(p, o) && o in {w.disk.file, w.disk.durable}
    ensures CanReplace(p, w.disk)
  {
  }

  lemma SaveReconciledStep(p: Proc, w: World, throws: bool)
    requires HolderOk(p, w) && p.pc.Saving? && p.pc.after == AfterReconcile
    ensures var (q, v) := Save(p, w, throws); HolderOk(q, v)
  {
    MirrorCanReplace(p, w, w.disk.file);
    SaveKeepsStore(p, w, throws);
  }

  lemma SavePreparedStep(p: Proc, w: World, throws: bool)
    requires HolderOk(p, w) && p.pc.Saving? && p.pc.after == AfterPrepare
    ensures var (q, v) := Save(p, w, throws); HolderOk(q, v)
  {
    assert Extends(Init(p.receipt.records), p.receipt.records);
    SaveKeepsStore(p, w, throws);
  }

  /** While the durable record is unsigned, the action has not been sent. */
  lemma UnsignedIsUnsent(p: Proc, w: World)
    requires StoreOk(w) && Submits(p.options.action) && JustSigned(p) && w.disk.durable == Some(Unsigned(p))
    ensures CanReplace(p, w.disk) && Unsent(w, p.options.action)
  {
    var n := |p.receipt.records| - 1;
    assert Unsigned(p).records[n] == NewRecord(p.options.action) && n == Slot(p.options.action);
    assert Extends(Unsigned(p).records, p.receipt.records);
  }

  lemma SaveSignedStep(p: Proc, w: World, throws: bool)
    requires HolderOk(p, w) && p.pc.Saving? && p.pc.after == AfterSign
    ensures var (q, v) := Save(p, w, throws); HolderOk(q, v)
  {
    UnsignedIsUnsent(p, w);
    SaveKeepsStore(p, w, throws);
  }

  lemma SaveOutcomeStep(p: Proc, w: World, throws: bool)
    requires HolderOk(p, w) && p.pc.Saving? && (p.pc.after.AfterSend? || p.pc.after.AfterRecheck?)
    ensures var (q, v) := Save(p, w, throws); HolderOk(q, v)
  {
    MirrorCanReplace(p, w, w.disk.durable);
    SaveKeepsStore(p, w, throws);
  }

  lemma SaveStep(p: Proc, w: World, throws: bool)
    requires HolderOk(p, w) && p.pc.Saving?
    ensures var (q, v) := Save(p, w, throws); HolderOk(q, v)
  {
    match p.pc.after
    case AfterReconcile => SaveReconciledStep(p, w, throws);
    case AfterPrepare => SavePreparedStep(p, w, throws);
    case AfterSign => SaveSignedStep(p, w, throws);
    case _ => SaveOutcomeStep(p, w, throws);
  }

  lemma SubmitStep(p: Proc, w: World, c: Choice)
    requires HolderOk(p, w) && p.pc in {Submitting, Signing, Sending}
    ensures var (q, v) := Act(p, w, c); q.Some? && HolderOk(q.value, v)
  {
    match p.pc
    case Submitting => PrepareStep(p, w);
    case Signing => SignStep(p, w, c.signature);
    case _ => SendStep(p, w, c.reply);
  }

  lemma ActKeepsHolderOk(p: Proc, w: World, c: Choice)
    requires HolderOk(p, w)
    ensures var (q, v) := Act(p, w, c);
            StoreOk(v) && (q.Some? ==> HolderOk(q.value, v)) && (q.None? ==> p.pc == Releasing)
  {
    match p.pc
    case Loading => LoadStep(p, w, c.throws);
    case Reconciling => ReconcileStep(p, w, AfterReconcile, c.answers);
    case Saving(_, _) => SaveStep(p, w, c.throws);
    case Building =>
    case Rechecking => ReconcileStep(p, w, AfterRecheck, c.answers);
    case Releasing =>
    case _ => SubmitStep(p, w, c);
  }

  // ---- The invariant of the whole system ----

  /** At most one process is past the lock, and whoever is holds it. */
  ghost predicate OneHolder(s: Sys) {
    && (forall pid | pid in s.procs && s.procs[pid].pc != Starting :: s.world.lock)
    && (forall p, q | p in s.procs && q in s.procs && s.procs[p].pc != Starting && s.procs[q].pc != Starting :: p == q)
  }

  ghost predicate Inv(s: Sys) {
    && StoreOk(s.world) && OneHolder(s)
    && (forall pid | pid in s.procs :: Holds(s.procs[pid], s.world))
  }

  lemma AdvanceKeepsInv(s: Sys, pid: nat, c: Choice)
    requires Inv(s) && pid in s.procs
    ensures Inv(Apply(s, Advance(pid, c)))
  {
    var p := s.procs[pid];
    if p.pc != Starting {
      ActKeepsHolderOk(p, s.world, c);
    }
  }

  lemma StepKeepsInv(s: Sys, step: Step)
    requires Inv(s)
    ensures Inv(Apply(s, step))
  {
    match step
    case Advance(pid, c) =>
      if pid in s.procs {
        AdvanceKeepsInv(s, pid, c);
      }
    case _ =>
  }

  lemma {:induction false} RunKeepsInv(s: Sys, steps: seq<Step>)
    requires Inv(s)
    ensures Inv(Run(s, steps))
    decreases |steps|
  {
    if steps != [] {
      StepKeepsInv(s, steps[0]);
      RunKeepsInv(Apply(s, steps[0]), steps[1..]);
    }
  }

  // ---- What holds of every run ----

  /** However processes interleave and wherever they die, no action is ever sent twice, the sends come in the order
      deposit, request-withdraw, claim, and every one of them stays recorded, with the signature that was sent, both
      in the file and in what a power loss would leave of it. */
  lemma NeverSentTwice(steps: seq<Step>)
    ensures var w := Run(Start(), steps).world;
            && (forall i, j | 0 <= i < j < |w.sent| ::
                  w.sent[i].action != w.sent[j].action && Slot(w.sent[i].action) < Slot(w.sent[j].action))
            && Journalled(w.sent, Records(w.disk.durable)) && Journalled(w.sent, Records(w.disk.file))
  {
    RunKeepsInv(Start(), steps);
    var w := Run(Start(), steps).world;
    JournalGrows(w.sent, Records(w.disk.durable), Records(w.disk.file));
  }

  /** At the moment of any send, the file and its durable copy are the same receipt, and its last record is this
      action's, signed, with exactly the signature being sent; the action had not been sent before. */
  lemma SendIsJournalled(steps: seq<Step>, step: Step)
    requires |Apply(Run(Start(), steps), step).world.sent| > |Run(Start(), steps).world.sent|
    ensures var w, after := Run(Start(), steps).world, Apply(Run(Start(), steps), step).world;
            && step.Advance? && |after.sent| == |w.sent| + 1 && after.sent[..|w.sent|] == w.sent
            && w.disk.file == w.disk.durable && Records(w.disk.durable) != []
            && var (record, sent) := (Last(Records(w.disk.durable)), after.sent[|w.sent|]);
               && record.action == sent.action && record.status == Signed && record.signature == Some(sent.signature)
               && Unsent(w, sent.action)
  {
    RunKeepsInv(Start(), steps);
  }

  /** In every reachable state the records on disk follow deposit, request-withdraw, claim without repetition, only
      the last may be unsigned, the durable copy is never ahead of the file, and one process at most is past the
      lock, which then exists. */
  lemma ReceiptsAreOrdered(steps: seq<Step>)
    ensures var s := Run(Start(), steps);
            && Shape(Records(s.world.disk.file)) && Shape(Records(s.world.disk.durable))
            && Extends(Records(s.world.disk.durable), Records(s.world.disk.file))
            && (forall i, j | 0 <= i < j < |Records(s.world.disk.file)| ::
                  Records(s.world.disk.file)[i].action != Records(s.world.disk.file)[j].action)
            && OneHolder(s)
  {
    RunKeepsInv(Start(), steps);
  }

  /** Only renaming a save that follows a preparation makes the file longer. */
  lemma GrowthIsPreparation(p: Proc, w: World, c: Choice)
    requires HolderOk(p, w) && |Records(Act(p, w, c).1.disk.file)| > |Records(w.disk.file)|
    ensures p.pc == Saving(AfterPrepare, Renaming) && JustPrepared(p) && SavingOk(p, w.disk, Some(Unprepared(p)))
    ensures Act(p, w, c).1.disk.file == Some(p.receipt)
  {
  }

  lemma PreparedMeans(p: Proc)
    requires JustPrepared(p)
    ensures p.receipt.records == Unprepared(p).records + [NewRecord(p.options.action)]
    ensures forall i | 0 <= i < |Unprepared(p).records| ::
              Settled(Unprepared(p).records[i]) && Unprepared(p).records[i].signature.Some?
  {
    forall i | 0 <= i < |Unprepared(p).records| ensures Unprepared(p).records[i].signature.Some? {
      assert Unprepared(p).records[i] == p.receipt.records[i];
    }
  }

  lemma GrowthIsAdvance(s: Sys, step: Step)
    requires Inv(s) && |Records(Apply(s, step).world.disk.file)| > |Records(s.world.disk.file)|
    ensures step.Advance? && step.pid in s.procs && HolderOk(s.procs[step.pid], s.world)
    ensures Apply(s, step).world == Act(s.procs[step.pid], s.world, step.choice).1
  {
  }

  /** The file grows only by one bare record at a time, and only when every record already in it is confirmed or
      finalized. */
  lemma AppendedOnlyAfterSettled(steps: seq<Step>, step: Step)
    requires var s := Run(Start(), steps);
             |Records(Apply(s, step).world.disk.file)| > |Records(s.world.disk.file)|
    ensures var s := Run(Start(), steps);
            var before, after := Records(s.world.disk.file), Records(Apply(s, step).world.disk.file);
            && step.Advance? && step.pid in s.procs && after == before + [NewRecord(s.procs[step.pid].options.action)]
            && (forall i | 0 <= i < |before| :: Settled(before[i]) && before[i].signature.Some?)
  {
    RunKeepsInv(Start(), steps);
    var s := Run(Start(), steps);
    GrowthIsAdvance(s, step);
    GrowthIsPreparation(s.procs[step.pid], s.world, step.choice);
    PreparedMeans(s.procs[step.pid]);
  }

  predicate ClearsLocks(step: Step) {
    step.RemoveLock? || step.LosePower?
  }

  /** A lock whose holder died stops everything: until the operator removes it or the machine loses power, no process,
      however many are started, changes the receipt or sends. */
  lemma {:induction false} StaleLockBlocks(s: Sys, steps: seq<Step>)
    requires NoRunner(s) && s.world.lock && forall i | 0 <= i < |steps| :: !ClearsLocks(steps[i])
    ensures var w := Run(s, steps).world;
            && w.lock && w.sent == s.world.sent
            && w.disk.file == s.world.disk.file && w.disk.durable == s.world.disk.durable
    decreases |steps|
  {
    if steps != [] {
      assert !ClearsLocks(steps[0]);
      var t := Apply(s, steps[0]);
      assert NoRunner(t) && t.world.lock;
      assert forall i | 0 <= i < |steps[1..]| :: steps[1..][i] == steps[i + 1];
      StaleLockBlocks(t, steps[1..]);
    }
  }

  // ---- Receipts that stop all sending ----

  ghost predicate LastUnsigned(o: Option<Receipt>) {
    Records(o) != [] && Last(Records(o)).signature == None
  }

  /** Whatever the RPC answers, nothing can be added to the receipt: its last record has no signature, or every action
      is recorded. */
  ghost predicate Closed(o: Option<Receipt>) {
    LastUnsigned(o) || |Records(o)| == 3
  }

  /** A process that is about to sign, or has signed and is saving the signature. */
  predicate MidSigning(pc: Pc) {
    pc == Signing || (pc.Saving? && pc.after == AfterSign)
  }

  predicate InFlight(pc: Pc) {
    MidSigning(pc) || pc == Sending
  }

  lemma ClosedBlocks(receipt: Receipt, action: Action)
    requires Shape(receipt.records) && Closed(Some(receipt)) && Submits(action)
    ensures AssertNoReplay(receipt.records, action).Err?
  {
    if LastUnsigned(Some(receipt)) {
      assert !Settled(Last(receipt.records));
    } else {
      SlotTaken(receipt.records, action);
    }
  }

  ghost predicate BothClosed(w: World) {
    Closed(w.disk.file) && Closed(w.disk.durable)
  }

  /** No new record is being saved: the receipt before it would be open. */
  lemma NotPreparing(p: Proc, w: World)
    requires HolderOk(p, w) && BothClosed(w)
    ensures !(p.pc.Saving? && p.pc.after == AfterPrepare) && p.pc != Submitting
  {
    if Submits(p.options.action) && w.disk.durable.Some? {
      ClosedBlocks(w.disk.durable.value, p.options.action);
    }
  }

  lemma MirrorIsClosed(p: Proc, o: Option<Receipt>)
    requires Mirrors(p, o) && Closed(o)
    ensures Closed(Some(p.receipt))
  {
  }

  lemma SaveKeepsClosed(p: Proc, w: World, throws: bool)
    requires BothClosed(w) && p.pc.Saving?
    requires p.pc.phase == Renaming ==> w.disk.tmp == Full(p.receipt) && Closed(Some(p.receipt))
    ensures var (q, v) := Save(p, w, throws);
            && v.sent == w.sent && BothClosed(v)
            && (q.pc == Releasing || q.pc == NextPc(p.options, p.pc.after, p.pc.phase))
  {
  }

  lemma StuckSave(p: Proc, w: World, throws: bool)
    requires HolderOk(p, w) && BothClosed(w) && p.pc.Saving? && !MidSigning(p.pc) && p.pc.after != AfterPrepare
    ensures var (q, v) := Save(p, w, throws); v.sent == w.sent && BothClosed(v) && !InFlight(q.pc)
  {
    if p.pc.after == AfterReconcile {
      MirrorIsClosed(p, w.disk.file);
    } else {
      MirrorIsClosed(p, w.disk.durable);
    }
    SaveKeepsClosed(p, w, throws);
  }

  lemma StuckAct(p: Proc, w: World, c: Choice)
    requires HolderOk(p, w) && BothClosed(w) && !InFlight(p.pc)
    ensures var (q, v) := Act(p, w, c); v.sent == w.sent && BothClosed(v) && (q.Some? ==> !InFlight(q.value.pc))
  {
    NotPreparing(p, w);
    if p.pc.Saving? {
      StuckSave(p, w, c.throws);
    }
  }

  ghost predicate Stuck(s: Sys) {
    Inv(s) && BothClosed(s.world) && forall pid | pid in s.procs :: !InFlight(s.procs[pid].pc)
  }

  lemma StuckAdvance(s: Sys, pid: nat, c: Choice)
    requires Stuck(s) && pid in s.procs
    ensures Stuck(Apply(s, Advance(pid, c))) && Apply(s, Advance(pid, c)).world.sent == s.world.sent
  {
    AdvanceKeepsInv(s, pid, c);
    if s.procs[pid].pc != Starting {
      StuckAct(s.procs[pid], s.world, c);
    }
  }

  lemma StuckThroughPowerLoss(s: Sys, step: Step)
    requires Stuck(s) && step.LosePower?
    ensures Stuck(Apply(s, step)) && Apply(s, step).world.sent == s.world.sent
  {
  }

  lemma StuckOtherwise(s: Sys, step: Step)
    requires Stuck(s) && !step.Advance? && !step.LosePower?
    ensures Stuck(Apply(s, step)) && Apply(s, step).world.sent == s.world.sent
  {
    StepKeepsInv(s, step);
    assert BothClosed(Apply(s, step).world);
  }

  lemma StuckStays(s: Sys, step: Step)
    requires Stuck(s)
    ensures Stuck(Apply(s, step)) && Apply(s, step).world.sent == s.world.sent
  {
    match step
    case Advance(pid, c) =>
      if pid in s.procs {
        StuckAdvance(s, pid, c);
      }
    case LosePower(_, _, _) => StuckThroughPowerLoss(s, step);
    case _ => StuckOtherwise(s, step);
  }

  lemma {:induction false} StuckForever(s: Sys, steps: seq<Step>)
    requires Stuck(s)
    ensures Run(s, steps).world.sent == s.world.sent
    decreases |steps|
  {
    if steps != [] {
      StuckStays(s, steps[0]);
      StuckForever(Apply(s, steps[0]), steps[1..]);
    }
  }

  function StepsToSend(pc: Pc): nat {
    match pc
    case Signing => 6
    case Saving(_, Opening) => 5
    case Saving(_, Writing) => 4
    case Saving(_, Renaming) => 3
    case Saving(_, Syncing) => 2
    case _ => 1
  }

  const CLEAN := Choice(false, [], Some("1"), Some("1"))

  lemma SignerAdvances(p: Proc, w: World)
    requires HolderOk(p, w) && MidSigning(p.pc)
    ensures var (q, v) := Act(p, w, CLEAN);
            q.Some? && InFlight(q.value.pc) && v.sent == w.sent
            && StepsToSend(q.value.pc) < StepsToSend(p.pc)
  {
  }

  /** Left alone, a process that is about to sign, or saving a signature, goes on to send. */
  lemma {:induction false} SignerSends(s: Sys, pid: nat) returns (steps: seq<Step>)
    requires Inv(s) && pid in s.procs && InFlight(s.procs[pid].pc)
    ensures |Run(s, steps).world.sent| > |s.world.sent|
    decreases StepsToSend(s.procs[pid].pc)
  {
    var step := Advance(pid, CLEAN);
    if s.procs[pid].pc == Sending {
      steps := [step];
      assert Run(s, steps) == Run(Apply(s, step), []);
    } else {
      SignerAdvances(s.procs[pid], s.world);
      StepKeepsInv(s, step);
      var rest := SignerSends(Apply(s, step), pid);
      steps := [step] + rest;
      assert steps[1..] == rest;
    }
  }
}
