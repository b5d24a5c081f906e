/** Replacing the receipt file (`save` in src/bin/flp-mainnet-smoke.ts): write a temporary file exclusively, flush it,
    rename it over the receipt, flush the directory. `file` is what a reader sees now; `durable` is what a reader is
    sure to find after the machine loses power. */
module ReceiptFile {
  import opened Results

  /** The temporary file: absent, with contents not to be relied on, or whole. */
  datatype Tmp<+C> = NoTmp | Partial | Full(content: C)

  datatype Disk<+C> = Disk(tmp: Tmp<C>, file: Option<C>, durable: Option<C>)

  datatype Phase = Opening | Writing | Renaming | Syncing

  /** One system call of the replacement; None when it throws whatever the disk would like. */
  function Perform<C>(d: Disk<C>, phase: Phase, content: C): Option<Disk<C>> {
    match phase
    case Opening => if d.tmp.NoTmp? then Some(d.(tmp := Partial)) else None
    case Writing => Some(d.(tmp := Full(content)))
    case Renaming => if d.tmp.Full? then Some(d.(tmp := NoTmp, file := Some(d.tmp.content))) else None
    case Syncing => Some(d.(durable := d.file))
  }

  /** The machine loses power: an unflushed rename may or may not survive, and the temporary file may hold anything. */
  function PowerLoss<C>(d: Disk<C>, keepRename: bool, tmp: Tmp<C>): Disk<C> {
    var survivor := if keepRename then d.file else d.durable;
    Disk(tmp, survivor, survivor)
  }

  /** The disk after the first `n` calls of a replacement that meets no temporary file. */
  function Partway<C>(d: Disk<C>, content: C, n: nat): Option<Disk<C>>
    requires n <= 4
  {
    if n == 0 then Some(d)
    else
      var before := Partway(d, content, n - 1);
      if before == None then None else Perform(before.value, [Opening, Writing, Renaming, Syncing][n - 1], content)
  }

  /** Interrupted anywhere, with or without a power loss, the replacement leaves the whole old file or the whole new
      one; it runs to its end exactly when no temporary file stood in its way, and from then on only the new one can
      be found. A leftover temporary file blocks every replacement until someone removes it. */
  lemma {:induction false} ReplacementIsAtomic<C>(d: Disk<C>, content: C, n: nat, keepRename: bool, tmp: Tmp<C>)
    requires n <= 4
    ensures n > 0 ==> (Partway(d, content, n).Some? <==> d.tmp.NoTmp?)
    ensures Partway(d, content, n).Some? ==>
              var now := Partway(d, content, n).value;
              var later := PowerLoss(now, keepRename, tmp).file;
              && now.file == (if n < 3 then d.file else Some(content))
              && later in {d.durable, d.file, Some(content)}
              && (n < 3 ==> later in {d.durable, d.file})
              && (n == 4 ==> later == Some(content))
              && (now.tmp.NoTmp? <==> (n == 0 && d.tmp.NoTmp?) || n >= 3)
  {
    if n > 0 {
      ReplacementIsAtomic(d, content, n - 1, keepRename, tmp);
    }
  }

  /** How many calls of a replacement work when the given one fails. */
  function CallsBefore(fails: Option<Phase>): (n: nat)
    ensures n <= 4
  {
    match fails
    case None => 4
    case Some(Opening) => 0
    case Some(Writing) => 1
    case Some(Renaming) => 2
    case Some(Syncing) => 3
  }

  /** The four states a replacement goes through. */
  lemma PartwayStates<C>(d: Disk<C>, content: C)
    requires d.tmp.NoTmp?
    ensures Partway(d, content, 0) == Some(d)
    ensures Partway(d, content, 1) == Some(d.(tmp := Partial))
    ensures Partway(d, content, 2) == Some(d.(tmp := Full(content)))
    ensures Partway(d, content, 3) == Some(Disk(NoTmp, Some(content), d.durable))
    ensures Partway(d, content, 4) == Some(Disk(NoTmp, Some(content), Some(content)))
  {
    assert Partway(d, content, 1) == Some(d.(tmp := Partial));
    assert Partway(d, content, 2) == Some(d.(tmp := Full(content)));
    assert Partway(d, content, 3) == Some(Disk(NoTmp, Some(content), d.durable));
  }

  class Storage<C> {
    var tmp: Tmp<C>
    var file: Option<C>
    var durable: Option<C>

    constructor ()
      ensures tmp == NoTmp && file == None && durable == None
    {
      tmp, file, durable := NoTmp, None, None;
    }

    ghost function Now(): Disk<C>
      reads this
    {
      Disk(tmp, file, durable)
    }

    /** `fails` names the call the disk refuses, if any. The disk is left partway, by exactly the calls that worked. */
    method Save(content: C, fails: Option<Phase>) returns (ok: bool)
      modifies this
      ensures old(tmp).NoTmp? ==> Partway(old(Now()), content, CallsBefore(fails)) == Some(Now())
      ensures !old(tmp).NoTmp? ==> Now() == old(Now())
      ensures ok <==> old(tmp).NoTmp? && fails == None
      ensures durable == if ok then Some(content) else old(durable)
      ensures file == if old(tmp).NoTmp? && fails in {None, Some(Syncing)} then Some(content) else old(file)
      ensures tmp == if !old(tmp).NoTmp? then old(tmp)
                     else match fails
                       case Some(Writing) => Partial
                       case Some(Renaming) => Full(content)
                       case _ => NoTmp
    {
      assert fails.Some? ==>
          fails.value.Opening? || fails.value.Writing? || fails.value.Renaming? || fails.value.Syncing?;
      if tmp.NoTmp? {
        PartwayStates(Now(), content);
      }
      if fails == Some(Opening) || !tmp.NoTmp? {
        return false;
      }
      tmp := Partial;
      if fails == Some(Writing) {
        return false;
      }
      tmp := Full(content);
      if fails == Some(Renaming) {
        return false;
      }
      tmp, file := NoTmp, Some(content);
      if fails == Some(Syncing) {
        return false;
      }
      durable := file;
      ok := true;
    }
  }
}
