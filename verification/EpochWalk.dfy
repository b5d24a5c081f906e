/** The epoch-close walk over the vault's deferred withdrawal queue (src/flp/index.ts, same walk in src/flp/v4.ts). */
module EpochWalk {
  import opened Results

  const NONE_EPOCH := 18446744073709551615
  const MAX_EQUITY_BATCHES := 8
  const DEFERRED := 2

  /** An epoch record as fetched; `vault` and `epoch` are the identity it claims. */
  datatype Record = Record(vault: int, epoch: int, status: int, nextDeferred: int)

  /** What the chain answers for each epoch's record address; an absent one makes the fetch throw. */
  type Chain = map<int, Record>

  datatype Error = UnsupportedCount | QueueCycle | FetchFailed | QueueChanged

  predicate Deferred(chain: Chain, vault: int, e: int) {
    e in chain && chain[e].vault == vault && chain[e].epoch == e && chain[e].status == DEFERRED
  }

  /** The i-th epoch of the linked list from head. The end of the list, and whatever follows a missing record, is
      NONE_EPOCH. */
  function Nth(chain: Chain, head: int, i: nat): int {
    if i == 0 then head
    else
      var prev := Nth(chain, head, i - 1);
      if prev != NONE_EPOCH && prev in chain then chain[prev].nextDeferred else NONE_EPOCH
  }

  /** The list reaches position i. */
  predicate Reaches(chain: Chain, head: int, i: nat) {
    forall j | 0 <= j <= i :: Nth(chain, head, j) != NONE_EPOCH
  }

  predicate Repeats(chain: Chain, head: int, i: nat) {
    exists j | 0 <= j < i :: Nth(chain, head, j) == Nth(chain, head, i)
  }

  /** Positions before n are present, deferred and distinct. */
  predicate GoodPrefix(chain: Chain, vault: int, head: int, n: nat) {
    forall i | 0 <= i < n ::
      && Nth(chain, head, i) != NONE_EPOCH
      && !Repeats(chain, head, i)
      && Deferred(chain, vault, Nth(chain, head, i))
  }

  function Prefix(chain: Chain, head: int, n: nat): (s: seq<int>)
    ensures |s| == n && forall i | 0 <= i < n :: s[i] == Nth(chain, head, i)
  {
    seq(n, i requires 0 <= i < n => Nth(chain, head, i))
  }

  /** Why position i stops the walk with an error. */
  ghost predicate FailsAt(chain: Chain, vault: int, head: int, i: nat, error: Error) {
    var e := Nth(chain, head, i);
    && e != NONE_EPOCH
    && (match error
        case UnsupportedCount => false
        case QueueCycle => Repeats(chain, head, i)
        case FetchFailed => !Repeats(chain, head, i) && e !in chain
        case QueueChanged => !Repeats(chain, head, i) && e in chain && !Deferred(chain, vault, e))
  }

  /** The batches are the first min(maxBatches, length) epochs of the list, all distinct and deferred. */
  ghost predicate Walked(chain: Chain, vault: int, head: int, maxBatches: int, batches: seq<int>) {
    var n := |batches|;
    && n <= maxBatches
    && GoodPrefix(chain, vault, head, n)
    && batches == Prefix(chain, head, n)
    && (n == maxBatches || Nth(chain, head, n) == NONE_EPOCH)
  }

  /** What a walk comes to: the batches, or an error met at one position with everything before it in order; and how
      many records it fetched. A repeat is noticed before its record is fetched again. */
  ghost predicate Yields(chain: Chain, vault: int, head: int, maxBatches: int,
                         r: Result<seq<int>, Error>, fetches: nat) {
    match r
    case Ok(batches) => Walked(chain, vault, head, maxBatches, batches) && fetches == |batches|
    case Err(error) =>
      exists i: nat | i < maxBatches ::
        && GoodPrefix(chain, vault, head, i) && FailsAt(chain, vault, head, i, error)
        && fetches == if error == QueueCycle then i else i + 1
  }

  lemma RepeatsInPrefix(chain: Chain, head: int, n: nat)
    ensures Repeats(chain, head, n) <==> Nth(chain, head, n) in Prefix(chain, head, n)
  {
    var s := Prefix(chain, head, n);
    assert forall j | 0 <= j < n :: s[j] == Nth(chain, head, j);
  }

  lemma GoodStep(chain: Chain, vault: int, head: int, n: nat)
    requires GoodPrefix(chain, vault, head, n) && Nth(chain, head, n) != NONE_EPOCH
    requires !Repeats(chain, head, n) && Deferred(chain, vault, Nth(chain, head, n))
    ensures GoodPrefix(chain, vault, head, n + 1)
    ensures Prefix(chain, head, n + 1) == Prefix(chain, head, n) + [Nth(chain, head, n)]
    ensures Nth(chain, head, n + 1) == chain[Nth(chain, head, n)].nextDeferred
  {
  }

  /** Walks the list, fetching each record once. Terminates within maxBatches fetches on any pointer graph. */
  method Walk(chain: Chain, vault: int, head: int, maxBatches: int) returns (r: Result<seq<int>, Error>, fetches: nat)
    ensures r == Err(UnsupportedCount) <==> maxBatches < 1 || maxBatches > MAX_EQUITY_BATCHES
    ensures r != Err(UnsupportedCount) ==> Yields(chain, vault, head, maxBatches, r, fetches)
    ensures fetches <= if r == Err(UnsupportedCount) then 0 else maxBatches
  {
    fetches := 0;
    if maxBatches < 1 || maxBatches > MAX_EQUITY_BATCHES {
      return Err(UnsupportedCount), fetches;
    }
    var batches: seq<int> := [];
    var seen: set<int> := {};
    var next := head;
    while next != NONE_EPOCH && |batches| < maxBatches
      invariant |batches| <= maxBatches && fetches == |batches|
      invariant next == Nth(chain, head, |batches|)
      invariant GoodPrefix(chain, vault, head, |batches|)
      invariant batches == Prefix(chain, head, |batches|)
      invariant forall e :: e in seen <==> e in batches
      decreases maxBatches - |batches|
    {
      ghost var n := |batches|;
      RepeatsInPrefix(chain, head, n);
      if next in seen {
        assert FailsAt(chain, vault, head, n, QueueCycle);
        return Err(QueueCycle), fetches;
      }
      seen := seen + {next};
      fetches := fetches + 1;
      if next !in chain {
        assert FailsAt(chain, vault, head, n, FetchFailed);
        return Err(FetchFailed), fetches;
      }
      var record := chain[next];
      if record.vault != vault || record.epoch != next || record.status != DEFERRED {
        assert FailsAt(chain, vault, head, n, QueueChanged);
        return Err(QueueChanged), fetches;
      }
      GoodStep(chain, vault, head, n);
      batches := batches + [next];
      next := record.nextDeferred;
    }
    r := Ok(batches);
  }

  // ---- The outcome is determined by the graph ----

  /** Past the end of the list there is nothing. */
  lemma {:induction false} EndIsFinal(chain: Chain, head: int, i: nat, j: nat)
    requires i <= j && Nth(chain, head, i) == NONE_EPOCH
    ensures Nth(chain, head, j) == NONE_EPOCH
  {
    if i < j {
      EndIsFinal(chain, head, i, j - 1);
    }
  }

  lemma GoodStops(chain: Chain, vault: int, head: int, n: nat, error: Error, m: nat)
    requires GoodPrefix(chain, vault, head, m) && FailsAt(chain, vault, head, n, error)
    ensures m <= n
  {
  }

  lemma WalkedNoLonger(chain: Chain, vault: int, head: int, maxBatches: int, a: seq<int>, b: seq<int>)
    requires Walked(chain, vault, head, maxBatches, a) && Walked(chain, vault, head, maxBatches, b)
    ensures |b| <= |a|
  {
    assert |a| == maxBatches || Nth(chain, head, |a|) == NONE_EPOCH;
  }

  lemma FailsOnce(chain: Chain, vault: int, head: int, i: nat, e: Error, j: nat, f: Error)
    requires GoodPrefix(chain, vault, head, i) && FailsAt(chain, vault, head, i, e)
    requires GoodPrefix(chain, vault, head, j) && FailsAt(chain, vault, head, j, f)
    ensures i == j && e == f
  {
    GoodStops(chain, vault, head, i, e, j);
    GoodStops(chain, vault, head, j, f, i);
  }

  lemma WalkedNeverFails(chain: Chain, vault: int, head: int, maxBatches: int, batches: seq<int>, i: nat, e: Error)
    requires Walked(chain, vault, head, maxBatches, batches) && i < maxBatches
    ensures !FailsAt(chain, vault, head, i, e)
  {
    if |batches| <= i {
      EndIsFinal(chain, head, |batches|, i);
    }
  }

  /** A graph allows one outcome only: the same batches, or the same error after the same number of fetches. */
  lemma WalkIsDetermined(chain: Chain, vault: int, head: int, maxBatches: int,
                         r: Result<seq<int>, Error>, m: nat, t: Result<seq<int>, Error>, n: nat)
    requires Yields(chain, vault, head, maxBatches, r, m) && Yields(chain, vault, head, maxBatches, t, n)
    ensures r == t && m == n
  {
    if r.Err? {
      var i: nat :| i < maxBatches && GoodPrefix(chain, vault, head, i) && FailsAt(chain, vault, head, i, r.error)
                    && m == if r.error == QueueCycle then i else i + 1;
      if t.Ok? {
        WalkedNeverFails(chain, vault, head, maxBatches, t.value, i, r.error);
      } else {
        var j: nat :| j < maxBatches && GoodPrefix(chain, vault, head, j) && FailsAt(chain, vault, head, j, t.error)
                      && n == if t.error == QueueCycle then j else j + 1;
        FailsOnce(chain, vault, head, i, r.error, j, t.error);
      }
    } else if t.Err? {
      var j: nat :| j < maxBatches && GoodPrefix(chain, vault, head, j) && FailsAt(chain, vault, head, j, t.error);
      WalkedNeverFails(chain, vault, head, maxBatches, r.value, j, t.error);
    } else {
      WalkedNoLonger(chain, vault, head, maxBatches, r.value, t.value);
      WalkedNoLonger(chain, vault, head, maxBatches, t.value, r.value);
    }
  }

  /** And every graph, cyclic or not, allows one: continued from any good prefix, the walk ends within the bound. */
  lemma {:induction false} WalkHasOutcome(chain: Chain, vault: int, head: int, maxBatches: int, n: nat)
    returns (r: Result<seq<int>, Error>, fetches: nat)
    requires n <= maxBatches && GoodPrefix(chain, vault, head, n)
    ensures Yields(chain, vault, head, maxBatches, r, fetches) && fetches <= maxBatches
    decreases maxBatches - n
  {
    var e := Nth(chain, head, n);
    if n == maxBatches || e == NONE_EPOCH {
      r, fetches := Ok(Prefix(chain, head, n)), n;
    } else if !Repeats(chain, head, n) && Deferred(chain, vault, e) {
      GoodStep(chain, vault, head, n);
      r, fetches := WalkHasOutcome(chain, vault, head, maxBatches, n + 1);
    } else {
      var error := if Repeats(chain, head, n) then QueueCycle else if e !in chain then FetchFailed else QueueChanged;
      assert FailsAt(chain, vault, head, n, error);
      r, fetches := Err(error), if error == QueueCycle then n else n + 1;
    }
  }

  /** A walk can succeed exactly when, within the bound, every epoch the list reaches is deferred and new. */
  lemma SucceedsIff(chain: Chain, vault: int, head: int, maxBatches: int)
    requires 1 <= maxBatches
    ensures (exists batches :: Walked(chain, vault, head, maxBatches, batches)) <==>
              forall i | 0 <= i < maxBatches && Reaches(chain, head, i) ::
                Deferred(chain, vault, Nth(chain, head, i)) && !Repeats(chain, head, i)
  {
    if batches :| Walked(chain, vault, head, maxBatches, batches) {
      forall i | 0 <= i < maxBatches && Reaches(chain, head, i)
        ensures Deferred(chain, vault, Nth(chain, head, i)) && !Repeats(chain, head, i)
      {
        assert |batches| == maxBatches || Nth(chain, head, |batches|) == NONE_EPOCH;
      }
    }
    if forall i | 0 <= i < maxBatches && Reaches(chain, head, i) ::
         Deferred(chain, vault, Nth(chain, head, i)) && !Repeats(chain, head, i)
    {
      var n := ListLength(chain, head, maxBatches);
      forall i | 0 <= i < n
        ensures Nth(chain, head, i) != NONE_EPOCH && !Repeats(chain, head, i)
        ensures Deferred(chain, vault, Nth(chain, head, i))
      {
        assert Reaches(chain, head, i);
      }
      assert Walked(chain, vault, head, maxBatches, Prefix(chain, head, n));
    }
  }

  /** The length of the list, cut at the bound. */
  ghost function ListLength(chain: Chain, head: int, bound: nat): (n: nat)
    ensures n <= bound
    ensures forall i | 0 <= i < n :: Nth(chain, head, i) != NONE_EPOCH
    ensures n == bound || Nth(chain, head, n) == NONE_EPOCH
  {
    if bound == 0 then 0
    else
      var n := ListLength(chain, head, bound - 1);
      if n < bound - 1 || Nth(chain, head, n) == NONE_EPOCH then n else bound
  }

  /** Any repeat the list reaches within the bound rejects the walk: no list of batches is returned. */
  lemma CycleWithinBoundRejected(chain: Chain, vault: int, head: int, maxBatches: int, i: nat, batches: seq<int>)
    requires i < maxBatches && Reaches(chain, head, i) && Repeats(chain, head, i)
    ensures !Walked(chain, vault, head, maxBatches, batches)
  {
    if Walked(chain, vault, head, maxBatches, batches) {
      SucceedsIff(chain, vault, head, maxBatches);
      assert false;
    }
  }
}
