/** Account lists: the flag merge and the byte form that is hashed into an intent (src/intents.ts). */
module RuntimeFlags {
  type byte = b: int | 0 <= b < 256

  type Pubkey = k: seq<byte> | |k| == 32 witness seq(32, _ => 0)

  datatype AccountMeta = AccountMeta(pubkey: Pubkey, isSigner: bool, isWritable: bool)

  datatype Flags = Flags(isSigner: bool, isWritable: bool)

  const RECORD_BYTES := 34

  // ---- What the merge means ----

  predicate Signs(metas: seq<AccountMeta>, key: Pubkey) {
    exists i | 0 <= i < |metas| :: metas[i].pubkey == key && metas[i].isSigner
  }

  predicate Writes(metas: seq<AccountMeta>, key: Pubkey) {
    exists i | 0 <= i < |metas| :: metas[i].pubkey == key && metas[i].isWritable
  }

  /** Every remaining account keeps its place and gets the OR of its flags over all its occurrences. */
  function Merged(remaining: seq<AccountMeta>, fixed: seq<AccountMeta>): (r: seq<AccountMeta>)
    ensures |r| == |remaining|
  {
    var all := fixed + remaining;
    seq(|remaining|, i requires 0 <= i < |remaining| =>
      AccountMeta(remaining[i].pubkey, Signs(all, remaining[i].pubkey), Writes(all, remaining[i].pubkey)))
  }

  method MergeEffectiveRuntimeFlags(remaining: seq<AccountMeta>, fixed: seq<AccountMeta>) returns (r: seq<AccountMeta>)
    ensures r == Merged(remaining, fixed)
  {
    var merged: map<Pubkey, Flags> := map[];
    var all := fixed + remaining;
    for i := 0 to |all|
      invariant forall k :: k in merged <==> exists j | 0 <= j < i :: all[j].pubkey == k
      invariant forall k | k in merged :: merged[k] == Flags(Signs(all[..i], k), Writes(all[..i], k))
    {
      var account := all[i];
      var key := account.pubkey;
      SnocFlags(all, i);
      if key !in merged {
        assert forall j | 0 <= j < i :: all[..i][j].pubkey != key;
        merged := merged[key := Flags(account.isSigner, account.isWritable)];
        continue;
      }
      var prev := merged[key];
      merged := merged[key := Flags(prev.isSigner || account.isSigner, prev.isWritable || account.isWritable)];
    }
    assert all[..|all|] == all;
    r := [];
    for i := 0 to |remaining|
      invariant r == Merged(remaining, fixed)[..i]
    {
      assert all[|fixed| + i] == remaining[i];
      var effective := merged[remaining[i].pubkey];
      r := r + [AccountMeta(remaining[i].pubkey, effective.isSigner, effective.isWritable)];
    }
  }

  lemma SnocFlags(all: seq<AccountMeta>, i: nat)
    requires i < |all|
    ensures forall k :: Signs(all[..i + 1], k) <==> Signs(all[..i], k) || (all[i].pubkey == k && all[i].isSigner)
    ensures forall k :: Writes(all[..i + 1], k) <==> Writes(all[..i], k) || (all[i].pubkey == k && all[i].isWritable)
  {
    assert all[..i + 1] == all[..i] + [all[i]];
    forall k
      ensures Signs(all[..i + 1], k) <==> Signs(all[..i], k) || (all[i].pubkey == k && all[i].isSigner)
      ensures Writes(all[..i + 1], k) <==> Writes(all[..i], k) || (all[i].pubkey == k && all[i].isWritable)
    {
      FlagsOfAppend(all[..i], [all[i]], k);
      assert [all[i]][0] == all[i];
    }
  }

  lemma FlagsOfAppend(a: seq<AccountMeta>, b: seq<AccountMeta>, k: Pubkey)
    ensures Signs(a + b, k) <==> Signs(a, k) || Signs(b, k)
    ensures Writes(a + b, k) <==> Writes(a, k) || Writes(b, k)
  {
    forall i | 0 <= i < |a|
      ensures (a + b)[i] == a[i]
    {
    }
    forall i | 0 <= i < |b|
      ensures (a + b)[|a| + i] == b[i]
    {
    }
  }

  lemma MergedFlags(remaining: seq<AccountMeta>, fixed: seq<AccountMeta>, k: Pubkey)
    ensures Signs(Merged(remaining, fixed), k) ==> Signs(fixed + remaining, k)
    ensures Writes(Merged(remaining, fixed), k) ==> Writes(fixed + remaining, k)
    ensures Signs(remaining, k) ==> Signs(Merged(remaining, fixed), k)
    ensures Writes(remaining, k) ==> Writes(Merged(remaining, fixed), k)
  {
    FlagsOfAppend(fixed, remaining, k);
    var m := Merged(remaining, fixed);
    if i :| 0 <= i < |remaining| && remaining[i].pubkey == k && remaining[i].isSigner {
      assert m[i].pubkey == k && m[i].isSigner;
    }
    if i :| 0 <= i < |remaining| && remaining[i].pubkey == k && remaining[i].isWritable {
      assert m[i].pubkey == k && m[i].isWritable;
    }
  }

  /** Merging again changes nothing. */
  lemma MergeIdempotent(remaining: seq<AccountMeta>, fixed: seq<AccountMeta>)
    ensures Merged(Merged(remaining, fixed), fixed) == Merged(remaining, fixed)
  {
    var m := Merged(remaining, fixed);
    forall i | 0 <= i < |remaining|
      ensures Merged(m, fixed)[i] == m[i]
    {
      var k := remaining[i].pubkey;
      MergedFlags(remaining, fixed, k);
      FlagsOfAppend(fixed, m, k);
      FlagsOfAppend(fixed, remaining, k);
    }
  }

  /** Only which fixed accounts there are matters, not their order or how often they are listed. */
  lemma FixedOrderIrrelevant(remaining: seq<AccountMeta>, fixed: seq<AccountMeta>, other: seq<AccountMeta>)
    requires forall m :: m in fixed <==> m in other
    ensures Merged(remaining, fixed) == Merged(remaining, other)
  {
    forall i | 0 <= i < |remaining|
      ensures Merged(remaining, fixed)[i] == Merged(remaining, other)[i]
    {
      var k := remaining[i].pubkey;
      FlagsOfAppend(fixed, remaining, k);
      FlagsOfAppend(other, remaining, k);
      SameFlags(fixed, other, k);
      SameFlags(other, fixed, k);
    }
  }

  lemma SameFlags(a: seq<AccountMeta>, b: seq<AccountMeta>, k: Pubkey)
    requires forall m :: m in a <==> m in b
    ensures Signs(a, k) ==> Signs(b, k)
    ensures Writes(a, k) ==> Writes(b, k)
  {
    if i :| 0 <= i < |a| && a[i].pubkey == k && a[i].isSigner {
      assert a[i] in b;
    }
    if i :| 0 <= i < |a| && a[i].pubkey == k && a[i].isWritable {
      assert a[i] in b;
    }
  }

  // ---- The bytes that are hashed ----

  function RecordBytes(m: AccountMeta): (r: seq<byte>)
    ensures |r| == RECORD_BYTES
  {
    m.pubkey + [if m.isSigner then 1 else 0] + [if m.isWritable then 1 else 0]
  }

  function AccountBytes(metas: seq<AccountMeta>): (r: seq<byte>)
    ensures |r| == RECORD_BYTES * |metas|
  {
    if metas == [] then [] else AccountBytes(metas[..|metas| - 1]) + RecordBytes(metas[|metas| - 1])
  }

  /** Fills a zeroed buffer with a running offset, 34 bytes an account. */
  method FillAccountBytes(metas: seq<AccountMeta>) returns (bytes: array<byte>)
    ensures fresh(bytes)
    ensures bytes[..] == AccountBytes(metas)
  {
    bytes := new byte[|metas| * RECORD_BYTES](_ => 0);
    var offset := 0;
    for i := 0 to |metas|
      invariant offset == RECORD_BYTES * i
      invariant bytes[..offset] == AccountBytes(metas[..i])
    {
      PutRecord(bytes, metas[i], offset);
      offset := offset + RECORD_BYTES;
      AccountBytesSnoc(metas, i);
    }
    assert metas[..|metas|] == metas;
    assert bytes[..offset] == bytes[..];
  }

  /** One account at the running offset: its key, then a byte for each flag. */
  method PutRecord(buffer: array<byte>, account: AccountMeta, offset: nat)
    requires offset + RECORD_BYTES <= buffer.Length
    modifies buffer
    ensures buffer[..] == old(buffer[..offset]) + RecordBytes(account) + old(buffer[offset + RECORD_BYTES..])
  {
    SetBytes(buffer, account.pubkey, offset);
    buffer[offset + 32] := if account.isSigner then 1 else 0;
    buffer[offset + 33] := if account.isWritable then 1 else 0;
  }

  lemma AccountBytesSnoc(metas: seq<AccountMeta>, i: nat)
    requires i < |metas|
    ensures AccountBytes(metas[..i + 1]) == AccountBytes(metas[..i]) + RecordBytes(metas[i])
  {
    assert metas[..i + 1][..i] == metas[..i];
  }

  /** Copies s into the buffer at the offset. */
  method SetBytes(buffer: array<byte>, s: seq<byte>, offset: nat)
    requires offset + |s| <= buffer.Length
    modifies buffer
    ensures buffer[..] == old(buffer[..offset]) + s + old(buffer[offset + |s|..])
  {
    for j := 0 to |s|
      invariant buffer[..] == old(buffer[..offset]) + s[..j] + old(buffer[offset + j..])
    {
      buffer[offset + j] := s[j];
    }
    assert s[..|s|] == s;
  }

  lemma RecordInjective(a: AccountMeta, b: AccountMeta)
    requires RecordBytes(a) == RecordBytes(b)
    ensures a == b
  {
    assert a.pubkey == RecordBytes(a)[..32] && b.pubkey == RecordBytes(b)[..32];
    assert RecordBytes(a)[32] == RecordBytes(b)[32] && RecordBytes(a)[33] == RecordBytes(b)[33];
  }

  lemma SameSplit(a: seq<byte>, b: seq<byte>, c: seq<byte>, d: seq<byte>)
    requires a + b == c + d && |a| == |c|
    ensures a == c && b == d
  {
    assert a == (a + b)[..|a|] && b == (a + b)[|a|..] && c == (c + d)[..|c|] && d == (c + d)[|c|..];
  }

  /** The byte form is injective on account lists: the hash input determines the accounts and their flags. */
  lemma {:induction false} AccountBytesInjective(a: seq<AccountMeta>, b: seq<AccountMeta>)
    requires AccountBytes(a) == AccountBytes(b)
    ensures a == b
  {
    assert |a| == |b|;
    if a != [] {
      var ha, hb := a[..|a| - 1], b[..|b| - 1];
      var la, lb := a[|a| - 1], b[|b| - 1];
      SameSplit(AccountBytes(ha), RecordBytes(la), AccountBytes(hb), RecordBytes(lb));
      AccountBytesInjective(ha, hb);
      RecordInjective(la, lb);
      assert a == ha + [la] && b == hb + [lb];
    }
  }

  // ---- The two account hashes ----

  /** Hash input of a sequenced enqueue: the fixed accounts are the group and queue, writable, and the
      instructions sysvar. */
  function CtmAccountBytes(group: Pubkey, queue: Pubkey, sysvar: Pubkey, remaining: seq<AccountMeta>): seq<byte> {
    AccountBytes(Merged(remaining, [AccountMeta(group, false, true), AccountMeta(queue, false, true),
          AccountMeta(sysvar, false, false)]))
  }

  /** The flags a direct enqueue hashes: fixed for the group, the queue and the sysvar, whatever was passed; and
      cleared for the first account with the owner's key. */
  method DirectEnqueueAccounts(group: Pubkey, queue: Pubkey, sysvar: Pubkey, remaining: seq<AccountMeta>, owner: Pubkey)
    returns (r: seq<AccountMeta>)
    ensures |r| == |remaining|
    ensures forall i | 0 <= i < |r| ::
              var key := remaining[i].pubkey;
              && r[i].pubkey == key
              && (var firstOwner := key == owner && forall j | 0 <= j < i :: remaining[j].pubkey != owner;
                  Flags(r[i].isSigner, r[i].isWritable) ==
                    if firstOwner then Flags(false, false)
                    else if key == group || key == queue then Flags(false, true)
                    else if key == sysvar then Flags(false, false)
                    else Flags(remaining[i].isSigner, remaining[i].isWritable))
  {
    r := seq(|remaining|, i requires 0 <= i < |remaining| =>
      var key := remaining[i].pubkey;
      if key == group || key == queue then AccountMeta(key, false, true)
      else if key == sysvar then AccountMeta(key, false, false)
      else remaining[i]);
    var ownerIndex := 0;
    while ownerIndex < |r| && r[ownerIndex].pubkey != owner
      invariant 0 <= ownerIndex <= |r|
      invariant forall j | 0 <= j < ownerIndex :: r[j].pubkey != owner
    {
      ownerIndex := ownerIndex + 1;
    }
    if ownerIndex < |r| {
      r := r[ownerIndex := AccountMeta(owner, false, false)];
    }
  }
}
