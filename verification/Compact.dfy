/** Packing, hashing and executing compact instructions. */
module Compact {
  import opened Bytes
  import opened Wrappers
  import opened Errors
  import opened CompactTypes

  // ---------------------------------------------------------------- the packed form

  /** One instruction: program index, account count and indexes, data length and data. */
  function PackOne(ix: CompactInstruction): (b: seq<byte>)
    ensures |b| == 1 + 1 + |ix.accountIndexes| + 2 + |ix.data|
  {
    [ix.programIdIndex] + ([|ix.accountIndexes| % 256] + (ix.accountIndexes + (Le(|ix.data|, 2) + ix.data)))
  }

  predicate Packable(ix: CompactInstruction) {
    |ix.accountIndexes| <= 255 && |ix.data| <= 65535
  }

  function PackItems(ixs: seq<CompactInstruction>): seq<byte> {
    if ixs == [] then [] else PackItems(ixs[..|ixs| - 1]) + PackOne(ixs[|ixs| - 1])
  }

  predicate AllPackable(ixs: seq<CompactInstruction>) {
    |ixs| <= 255 && forall i :: 0 <= i < |ixs| ==> Packable(ixs[i])
  }

  function Packed(ixs: seq<CompactInstruction>): Result<seq<byte>, PhygitalError> {
    if AllPackable(ixs) then Ok([|ixs|] + PackItems(ixs)) else Err(InvalidAccountData)
  }

  /** The first pass: refuse what the counts cannot express, and add up the size. */
  method PackedSize(ixs: seq<CompactInstruction>) returns (r: Option<nat>)
    ensures r == if AllPackable(ixs) then Some(1 + |PackItems(ixs)|) else None
  {
    if |ixs| > 255 {
      return None;
    }
    var size := 1;
    for i := 0 to |ixs|
      invariant forall k :: 0 <= k < i ==> Packable(ixs[k])
      invariant size == 1 + |PackItems(ixs[..i])|
    {
      var ix := ixs[i];
      if |ix.accountIndexes| > 255 || |ix.data| > 65535 {
        return None;
      }
      size := size + (1 + 1 + |ix.accountIndexes| + 2 + |ix.data|);
      assert ixs[..i + 1][..i] == ixs[..i];
    }
    assert ixs[..|ixs|] == ixs;
    r := Some(size);
  }

  method PushOne(bytes: seq<byte>, ix: CompactInstruction) returns (more: seq<byte>)
    requires |ix.accountIndexes| <= 255
    ensures more == bytes + PackOne(ix)
  {
    more := bytes + [ix.programIdIndex];
    more := more + [|ix.accountIndexes|];
    more := more + ix.accountIndexes;
    more := more + Le(|ix.data|, 2);
    more := more + ix.data;
    Concat5(bytes, [ix.programIdIndex], [|ix.accountIndexes|], ix.accountIndexes, Le(|ix.data|, 2), ix.data);
  }

  lemma {:induction false} Concat5(z: seq<byte>, a: seq<byte>, b: seq<byte>, c: seq<byte>, d: seq<byte>, e: seq<byte>)
    ensures z + a + b + c + d + e == z + (a + (b + (c + (d + e))))
  {
  }

  /** The second pass writes exactly the bytes the first one counted. */
  method Pack(ixs: seq<CompactInstruction>) returns (r: Result<seq<byte>, PhygitalError>)
    ensures r == Packed(ixs)
  {
    hide PackOne;
    var size := PackedSize(ixs);
    if size.None? {
      return Err(InvalidAccountData);
    }
    var bytes := [|ixs|];
    for i := 0 to |ixs|
      invariant bytes == [|ixs|] + PackItems(ixs[..i])
    {
      assert Packable(ixs[i]);
      ghost var before := PackItems(ixs[..i]);
      bytes := PushOne(bytes, ixs[i]);
      assert ixs[..i + 1][..i] == ixs[..i];
      assert [|ixs|] + before + PackOne(ixs[i]) == [|ixs|] + (before + PackOne(ixs[i]));
    }
    assert ixs[..|ixs|] == ixs;
    assert |bytes| == size.value;
    r := Ok(bytes);
  }

  lemma {:induction false} PackOneLayout(ix: CompactInstruction, x: seq<byte>)
    ensures PackOne(ix) + x
         == [ix.programIdIndex] + ([|ix.accountIndexes| % 256] + (ix.accountIndexes + (Le(|ix.data|, 2) + (ix.data + x))))
  {
    var d := Le(|ix.data|, 2) + ix.data;
    Regroup([ix.programIdIndex], [|ix.accountIndexes| % 256] + (ix.accountIndexes + d), x);
    Regroup([|ix.accountIndexes| % 256], ix.accountIndexes + d, x);
    Regroup(ix.accountIndexes, d, x);
    Regroup(Le(|ix.data|, 2), ix.data, x);
  }

  lemma {:induction false} PackOneInjective(a: CompactInstruction, b: CompactInstruction, x: seq<byte>, y: seq<byte>)
    requires Packable(a) && Packable(b) && PackOne(a) + x == PackOne(b) + y
    ensures a == b && x == y
  {
    PackOneLayout(a, x);
    PackOneLayout(b, y);
    hide PackOne, Le;
    var a4, b4 := a.data + x, b.data + y;
    var a3, b3 := Le(|a.data|, 2) + a4, Le(|b.data|, 2) + b4;
    var a2, b2 := a.accountIndexes + a3, b.accountIndexes + b3;
    var a1, b1 := [|a.accountIndexes| % 256] + a2, [|b.accountIndexes| % 256] + b2;
    SplitEqual([a.programIdIndex], a1, [b.programIdIndex], b1);
    SplitEqual([|a.accountIndexes| % 256], a2, [|b.accountIndexes| % 256], b2);
    assert [|a.accountIndexes| % 256][0] == [|b.accountIndexes| % 256][0];
    SplitEqual(a.accountIndexes, a3, b.accountIndexes, b3);
    SplitEqual(Le(|a.data|, 2), a4, Le(|b.data|, 2), b4);
    Pow256Values();
    LeRoundTrip(|a.data|, 2);
    LeRoundTrip(|b.data|, 2);
    SplitEqual(a.data, x, b.data, y);
  }

  lemma {:induction false} PackItemsFront(ixs: seq<CompactInstruction>)
    requires ixs != []
    ensures PackItems(ixs) == PackOne(ixs[0]) + PackItems(ixs[1..])
  {
    hide PackOne;
    if |ixs| == 1 {
      assert ixs[..0] == [] && ixs[1..] == [];
    } else {
      var init := ixs[..|ixs| - 1];
      PackItemsFront(init);
      assert ixs[1..][..|ixs| - 2] == init[1..];
      Regroup(PackOne(ixs[0]), PackItems(init[1..]), PackOne(ixs[|ixs| - 1]));
    }
  }

  lemma {:induction false} PackItemsInjective(a: seq<CompactInstruction>, b: seq<CompactInstruction>)
    requires AllPackable(a) && AllPackable(b) && |a| == |b| && PackItems(a) == PackItems(b)
    ensures a == b
  {
    hide PackOne;
    if a != [] {
      PackItemsFront(a);
      PackItemsFront(b);
      PackOneInjective(a[0], b[0], PackItems(a[1..]), PackItems(b[1..]));
      PackItemsInjective(a[1..], b[1..]);
      assert a == [a[0]] + a[1..] && b == [b[0]] + b[1..];
    }
  }

  /** The packed bytes determine the instructions. */
  lemma {:induction false} PackedInjective(a: seq<CompactInstruction>, b: seq<CompactInstruction>)
    requires Packed(a).Ok? && Packed(a) == Packed(b)
    ensures a == b
  {
    hide PackItems;
    assert Packed(a).value[0] == |a| && Packed(b).value[0] == |b|;
    assert Packed(a).value[1..] == PackItems(a) && Packed(b).value[1..] == PackItems(b);
    PackItemsInjective(a, b);
  }

  /** Where the fields of a packed instruction are, counts and lengths little-endian. */
  lemma {:induction false} PackedOffsets(ix: CompactInstruction)
    requires Packable(ix)
    ensures var b, n := PackOne(ix), |ix.accountIndexes|;
            && |b| == n + 4 + |ix.data|
            && b[0] == ix.programIdIndex && b[1] == n
            && b[2..2 + n] == ix.accountIndexes
            && (b[2 + n] as int) + 256 * (b[3 + n] as int) == |ix.data|
            && b[4 + n..] == ix.data
  {
    var n := |ix.accountIndexes|;
    var size := Le(|ix.data|, 2);
    assert Le(|ix.data| / 256, 1) == [|ix.data| / 256 % 256] + [];
    assert size == [|ix.data| % 256, |ix.data| / 256];
    PackOneLayout(ix, []);
    assert PackOne(ix) == [ix.programIdIndex, n] + ix.accountIndexes + size + ix.data;
  }

  // ---------------------------------------------------------------- the accounts a batch refers to

  /** What never changes about an account during execution: its key and its privileges. */
  datatype AccountRef = AccountRef(key: Pubkey, isSigner: bool, isWritable: bool)

  function PrivilegeByte(isSigner: bool, isWritable: bool): (p: byte)
    ensures p < 4 && (p % 2 == 1 <==> isSigner) && (p / 2 == 1 <==> isWritable)
  {
    (if isSigner then 1 else 0) + (if isWritable then 2 else 0)
  }

  function RefEntry(r: AccountRef): (b: seq<byte>)
    ensures |b| == 33
  {
    r.key + [PrivilegeByte(r.isSigner, r.isWritable)]
  }

  /** The indexes an instruction refers to: its program, then its accounts. */
  function Indexes(ix: CompactInstruction): (r: seq<u8>)
    ensures |r| == 1 + |ix.accountIndexes|
  {
    [ix.programIdIndex] + ix.accountIndexes
  }

  function AllIndexes(ixs: seq<CompactInstruction>): seq<u8> {
    if ixs == [] then [] else AllIndexes(ixs[..|ixs| - 1]) + Indexes(ixs[|ixs| - 1])
  }

  predicate Bounded(refs: seq<AccountRef>, indexes: seq<u8>) {
    forall k :: 0 <= k < |indexes| ==> indexes[k] < |refs|
  }

  /** Key and privilege of each reference, in order. */
  function Entries(refs: seq<AccountRef>, indexes: seq<u8>): seq<byte>
    requires Bounded(refs, indexes)
  {
    if indexes == [] then []
    else Entries(refs, indexes[..|indexes| - 1]) + RefEntry(refs[indexes[|indexes| - 1]])
  }

  /** The k-th reference takes 33 bytes: the key, then one byte for its privileges. */
  lemma {:induction false} EntryOffsets(refs: seq<AccountRef>, indexes: seq<u8>, k: nat)
    requires Bounded(refs, indexes) && k < |indexes|
    ensures var b := Entries(refs, indexes);
            && |b| == 33 * |indexes|
            && b[33 * k..33 * k + 32] == refs[indexes[k]].key
            && (b[33 * k + 32] % 2 == 1 <==> refs[indexes[k]].isSigner)
            && (b[33 * k + 32] / 2 == 1 <==> refs[indexes[k]].isWritable)
    decreases |indexes|
  {
    var n := |indexes| - 1;
    var head, last := Entries(refs, indexes[..n]), RefEntry(refs[indexes[n]]);
    assert Entries(refs, indexes) == head + last;
    EntriesLength(refs, indexes[..n]);
    if k < n {
      EntryOffsets(refs, indexes[..n], k);
      assert (head + last)[33 * k..33 * k + 32] == head[33 * k..33 * k + 32];
    } else {
      assert (head + last)[33 * k..33 * k + 32] == last[..32];
    }
  }

  lemma {:induction false} EntriesLength(refs: seq<AccountRef>, indexes: seq<u8>)
    requires Bounded(refs, indexes)
    ensures |Entries(refs, indexes)| == 33 * |indexes|
  {
    if indexes != [] {
      EntriesLength(refs, indexes[..|indexes| - 1]);
    }
  }

  /** What `accounts_hash` digests. */
  function HashInput(refs: seq<AccountRef>, ixs: seq<CompactInstruction>): Result<seq<byte>, PhygitalError> {
    if Bounded(refs, AllIndexes(ixs)) then Ok(Entries(refs, AllIndexes(ixs))) else Err(InvalidAccountIndex)
  }

  /** Push one reference's key and privilege onto the slices handed to the hasher, which digests them joined. */
  method PushRef(refs: seq<AccountRef>, index: u8, parts: seq<seq<byte>>, ghost seen: seq<u8>)
    returns (r: Option<seq<seq<byte>>>)
    requires Bounded(refs, seen) && Flatten(parts) == Entries(refs, seen)
    ensures r.Some? <==> index < |refs|
    ensures r.Some? ==> Bounded(refs, seen + [index]) && Flatten(r.value) == Entries(refs, seen + [index])
  {
    if index >= |refs| {
      return None;
    }
    var account := refs[index];
    var privilege := [PrivilegeByte(account.isSigner, account.isWritable)];
    var more := parts + [account.key] + [privilege];
    assert more[..|more| - 1] == parts + [account.key];
    assert (parts + [account.key])[..|parts|] == parts;
    assert (seen + [index])[..|seen|] == seen;
    assert Flatten(parts) + account.key + privilege == Flatten(parts) + RefEntry(account);
    r := Some(more);
  }

  lemma {:induction false} StepIndexes(ixs: seq<CompactInstruction>, k: nat)
    requires k < |ixs|
    ensures AllIndexes(ixs[..k + 1]) == AllIndexes(ixs[..k]) + Indexes(ixs[k])
  {
    assert ixs[..k + 1][..k] == ixs[..k];
  }

  lemma {:induction false} OutOfRange(refs: seq<AccountRef>, ixs: seq<CompactInstruction>, k: nat, i: nat)
    requires k < |ixs| && i < |Indexes(ixs[k])| && Indexes(ixs[k])[i] >= |refs|
    ensures !Bounded(refs, AllIndexes(ixs))
    decreases |ixs|
  {
    var init := ixs[..|ixs| - 1];
    var all := AllIndexes(ixs);
    if k == |ixs| - 1 {
      assert all[|AllIndexes(init)| + i] == Indexes(ixs[k])[i];
    } else {
      OutOfRange(refs, init, k, i);
      var j :| 0 <= j < |AllIndexes(init)| && AllIndexes(init)[j] >= |refs|;
      assert all[j] == AllIndexes(init)[j];
    }
  }

  method HashReferencedAccounts(refs: seq<AccountRef>, ixs: seq<CompactInstruction>)
    returns (r: Result<seq<byte>, PhygitalError>)
    ensures r == HashInput(refs, ixs)
  {
    hide Entries, Flatten;
    var parts: seq<seq<byte>> := [];
    EmptyParts(refs);
    for k := 0 to |ixs|
      invariant Bounded(refs, AllIndexes(ixs[..k])) && Flatten(parts) == Entries(refs, AllIndexes(ixs[..k]))
    {
      var indexes := Indexes(ixs[k]);
      ghost var base := AllIndexes(ixs[..k]);
      assert base + indexes[..0] == base;
      for i := 0 to |indexes|
        invariant Bounded(refs, base + indexes[..i]) && Flatten(parts) == Entries(refs, base + indexes[..i])
      {
        var next := PushRef(refs, indexes[i], parts, base + indexes[..i]);
        if next.None? {
          OutOfRange(refs, ixs, k, i);
          return Err(InvalidAccountIndex);
        }
        parts := next.value;
        assert base + indexes[..i] + [indexes[i]] == base + indexes[..i + 1];
      }
      assert indexes[..|indexes|] == indexes;
      StepIndexes(ixs, k);
    }
    assert ixs[..|ixs|] == ixs;
    r := Ok(Flatten(parts));
  }

  lemma {:induction false} EmptyParts(refs: seq<AccountRef>)
    ensures Bounded(refs, AllIndexes([])) && Entries(refs, AllIndexes([])) == [] && Flatten([]) == []
  {
  }
}
