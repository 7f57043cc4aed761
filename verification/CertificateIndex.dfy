/** The two-level index of the certificate reconciler: `storeMapping` and the store behind it. */
module CertificateIndex {
  import opened Wrappers
  import opened Cluster

  datatype Index = Index(mapping: map<string, string>, store: map<string, Bytes>)

  const EMPTY := Index(map[], map[])

  /** `createMapping`: the previous data key of `mapKey`, if any, is left in the store. */
  function CreateMapping(ix: Index, mapKey: string, dataKey: string, data: Bytes): Index {
    Index(ix.mapping[mapKey := dataKey], ix.store[dataKey := data])
  }

  /** `deleteMapping`: an absent mapping reads as the empty data key. */
  function DeleteMapping(ix: Index, mapKey: string): Index {
    var dataKey := if mapKey in ix.mapping then ix.mapping[mapKey] else "";
    Index(ix.mapping - {mapKey}, ix.store - {dataKey})
  }

  datatype Op = Create(mapKey: string, dataKey: string, data: Bytes) | Delete(mapKey: string)

  function Do(ix: Index, op: Op): Index {
    match op
    case Create(m, k, d) => CreateMapping(ix, m, k, d)
    case Delete(m) => DeleteMapping(ix, m)
  }

  function DoAll(ops: seq<Op>): Index {
    if ops == [] then EMPTY else Do(DoAll(ops[..|ops| - 1]), ops[|ops| - 1])
  }

  /** Data keys are joined with `--`, so none is the empty string. */
  ghost predicate NamedKeys(ops: seq<Op>) {
    forall i | 0 <= i < |ops| :: ops[i].Create? ==> ops[i].dataKey != ""
  }

  // ---------------------------------------------------------------- what a trace of operations leaves behind

  /** Operation `i` is the last one on `m`, and creates it with data key `k`. */
  ghost predicate LastOn(ops: seq<Op>, i: nat, m: string, k: string) {
    i < |ops| && ops[i].Create? && ops[i].mapKey == m && ops[i].dataKey == k
        && forall j | i < j < |ops| :: ops[j].mapKey != m
  }

  /** Operation `j` takes `k` out of the store: a delete by a configmap mapped to `k` at that moment. */
  ghost predicate Evicts(ops: seq<Op>, j: nat, k: string)
    requires j < |ops|
  {
    ops[j].Delete? && Lookup(DoAll(ops[..j]).mapping, ops[j].mapKey) == Some(k)
  }

  /** Operation `i` stores `d` under `k`, and nothing later overwrites or evicts `k`. */
  ghost predicate LastStore(ops: seq<Op>, i: nat, k: string, d: Bytes) {
    && i < |ops| && ops[i].Create? && ops[i].dataKey == k && ops[i].data == d
    && forall j | i < j < |ops| :: !(ops[j].Create? && ops[j].dataKey == k) && !Evicts(ops, j, k)
  }

  /** `storeMapping[m]` is the data key of `m`'s last create not followed by a delete of `m`. */
  lemma {:induction false} MappingTrace(ops: seq<Op>, m: string, k: string)
    ensures Lookup(DoAll(ops).mapping, m) == Some(k) <==> exists i :: LastOn(ops, i, m, k)
  {
    if ops != [] {
      var n := |ops| - 1;
      MappingTrace(ops[..n], m, k);
      if ops[n].mapKey != m {
        if i :| LastOn(ops, i, m, k) { assert LastOn(ops[..n], i, m, k); }
        if i :| LastOn(ops[..n], i, m, k) { assert LastOn(ops, i, m, k); }
      } else if ops[n].Create? && ops[n].dataKey == k {
        assert LastOn(ops, n, m, k);
      } else {
        assert forall i :: LastOn(ops, i, m, k) ==> i == n;
      }
    }
  }

  /** `store[k]` is the payload of the last create on `k` not followed by a delete from a configmap mapped to `k`. */
  lemma {:induction false} StoreTrace(ops: seq<Op>, k: string, d: Bytes)
    requires NamedKeys(ops)
    ensures Lookup(DoAll(ops).store, k) == Some(d) <==> exists i :: LastStore(ops, i, k, d)
  {
    if ops != [] {
      var n := |ops| - 1;
      StoreTrace(ops[..n], k, d);
      if ops[n].Create? && ops[n].dataKey == k {
        if ops[n].data == d { assert LastStore(ops, n, k, d); }
      } else {
        forall i: nat | i < n ensures LastStore(ops, i, k, d) <==> LastStore(ops[..n], i, k, d) && !Evicts(ops, n, k) {
          LastStoreOfPrefix(ops, i, k, d);
        }
        NoEmptyKeyStored(ops[..n]);
      }
    }
  }

  lemma LastStoreOfPrefix(ops: seq<Op>, i: nat, k: string, d: Bytes)
    requires ops != [] && i < |ops| - 1
    ensures LastStore(ops, i, k, d) <==>
              var n := |ops| - 1;
              LastStore(ops[..n], i, k, d) && !(ops[n].Create? && ops[n].dataKey == k) && !Evicts(ops, n, k)
  {
    var n := |ops| - 1;
    forall j | i < j < n ensures Evicts(ops[..n], j, k) <==> Evicts(ops, j, k) {
      assert ops[..n][..j] == ops[..j];
    }
  }

  lemma {:induction false} NoEmptyKeyStored(ops: seq<Op>)
    requires NamedKeys(ops)
    ensures "" !in DoAll(ops).store && "" !in DoAll(ops).mapping.Values
  {
    if ops != [] { NoEmptyKeyStored(ops[..|ops| - 1]); }
  }

  /** Deleting a configmap that is not mapped changes nothing, exactly because no data key is empty. */
  lemma DeleteUnmapped(ix: Index, m: string)
    requires m !in ix.mapping
    ensures DeleteMapping(ix, m) == ix <==> "" !in ix.store
  {
  }

  // ---------------------------------------------------------------- when mapping and store correspond

  ghost predicate Injective(mapping: map<string, string>) {
    forall m, n | m in mapping && n in mapping && m != n :: mapping[m] != mapping[n]
  }

  /** The store's keys are exactly the mapped data keys, one configmap each. */
  ghost predicate Consistent(ix: Index) {
    && Injective(ix.mapping) && "" !in ix.mapping.Values
    && (forall m | m in ix.mapping :: ix.mapping[m] in ix.store)
    && forall k | k in ix.store :: k in ix.mapping.Values
  }

  /** A consistent index has as many store entries as mappings. */
  lemma {:induction false} ConsistentSizes(ix: Index)
    requires Consistent(ix)
    ensures ix.store.Keys == ix.mapping.Values && |ix.store| == |ix.mapping|
    decreases |ix.mapping|
  {
    assert ix.store.Keys == ix.mapping.Values;
    if ix.mapping == map[] {
      assert ix.store.Keys == {};
    } else {
      var m :| m in ix.mapping;
      DeleteKeeps(ix, m);
      var smaller := DeleteMapping(ix, m);
      assert smaller.mapping.Keys == ix.mapping.Keys - {m} && smaller.store.Keys == ix.store.Keys - {ix.mapping[m]};
      ConsistentSizes(smaller);
    }
  }

  lemma DeleteKeeps(ix: Index, m: string)
    requires Consistent(ix)
    ensures Consistent(DeleteMapping(ix, m))
  {
    var after := DeleteMapping(ix, m);
    forall k | k in after.store ensures k in after.mapping.Values {
      var n :| n in ix.mapping && ix.mapping[n] == k;
      assert n in after.mapping && after.mapping[n] == k;
    }
  }

  /** `m` is not re-pointed, and nobody else is mapped to `k`: what a caller could look up beforehand. */
  ghost predicate Guard(ix: Index, m: string, k: string) {
    (m in ix.mapping ==> ix.mapping[m] == k) && forall n | n in ix.mapping && n != m :: ix.mapping[n] != k
  }

  /** A create keeps a consistent index consistent if and only if it meets the guard. */
  lemma CreateKeepsIff(ix: Index, m: string, k: string, d: Bytes)
    requires Consistent(ix) && k != ""
    ensures Consistent(CreateMapping(ix, m, k, d)) <==> Guard(ix, m, k)
  {
    var after := CreateMapping(ix, m, k, d);
    assert after.mapping[m] == k && (m in ix.mapping ==> ix.mapping[m] in after.store);
    if Guard(ix, m, k) {
      forall l | l in after.store ensures l in after.mapping.Values {
        if l != k {
          var n :| n in ix.mapping && ix.mapping[n] == l;
          assert n in after.mapping && after.mapping[n] == l;
        }
      }
    }
    if Consistent(after) {
      forall n | n in ix.mapping && n != m ensures ix.mapping[n] != k { assert n in after.mapping; }
    }
  }

  ghost predicate GuardedAt(ops: seq<Op>, i: nat)
    requires i < |ops|
  {
    ops[i].Create? ==> Guard(DoAll(ops[..i]), ops[i].mapKey, ops[i].dataKey)
  }

  ghost predicate ConsistentAt(ops: seq<Op>, i: nat)
    requires i <= |ops|
  {
    Consistent(DoAll(ops[..i]))
  }

  lemma ConsistentStep(ops: seq<Op>, i: nat)
    requires NamedKeys(ops) && i < |ops| && ConsistentAt(ops, i)
    ensures ConsistentAt(ops, i + 1) <==> GuardedAt(ops, i)
  {
    var before := DoAll(ops[..i]);
    assert DoAll(ops[..i + 1]) == Do(before, ops[i]) by { assert ops[..i + 1][..i] == ops[..i]; }
    match ops[i]
    case Create(m, k, d) => CreateKeepsIff(before, m, k, d);
    case Delete(m) => DeleteKeeps(before, m);
  }

  /** Whole runs: the index is consistent all along exactly when every create met the guard in its turn. */
  lemma {:induction false} ConsistentThroughoutIff(ops: seq<Op>, n: nat)
    requires NamedKeys(ops) && n <= |ops|
    ensures (forall i | 0 <= i <= n :: ConsistentAt(ops, i)) <==> (forall i | 0 <= i < n :: GuardedAt(ops, i))
  {
    if n > 0 {
      ConsistentThroughoutIff(ops, n - 1);
      if ConsistentAt(ops, n - 1) { ConsistentStep(ops, n - 1); }
    }
  }

  // ---------------------------------------------------------------- what goes wrong without the guard

  lemma OrphanStaysOnce(ix: Index, op: Op, k: string)
    requires k in ix.store && k !in ix.mapping.Values && k != "" && !(op.Create? && op.dataKey == k)
    ensures Lookup(Do(ix, op).store, k) == Some(ix.store[k]) && k !in Do(ix, op).mapping.Values
  {
    assert forall m | m in Do(ix, op).mapping :: Do(ix, op).mapping[m] != k;
  }

  /** An entry no configmap is mapped to stays as it is until somebody creates on its key again. */
  lemma {:induction false} OrphanStays(before: seq<Op>, after: seq<Op>, k: string)
    requires NamedKeys(before + after) && k != ""
    requires k in DoAll(before).store && k !in DoAll(before).mapping.Values
    requires forall i | 0 <= i < |after| :: !(after[i].Create? && after[i].dataKey == k)
    ensures Lookup(DoAll(before + after).store, k) == Some(DoAll(before).store[k])
    ensures k !in DoAll(before + after).mapping.Values
  {
    if after == [] {
      assert before + after == before;
    } else {
      var n := |after| - 1;
      assert (before + after)[..|before| + n] == before + after[..n];
      OrphanStays(before, after[..n], k);
    }
  }

  /** Re-pointing a configmap orphans its old entry, when it was the only one mapped to it. */
  lemma RepointingOrphans(ix: Index, m: string, k: string, d: Bytes)
    requires Consistent(ix) && m in ix.mapping && ix.mapping[m] != k
    ensures var after := CreateMapping(ix, m, k, d);
            ix.mapping[m] in after.store && ix.mapping[m] !in after.mapping.Values
  {
  }

  /** Two configmaps with one data key: deleting either leaves the other mapped but not stored. */
  lemma SharingUnservesTheOther(ix: Index, m: string, n: string)
    requires m in ix.mapping && n in ix.mapping && m != n && ix.mapping[m] == ix.mapping[n]
    ensures var after := DeleteMapping(ix, m); n in after.mapping && after.mapping[n] !in after.store
  {
  }

  /** Both failures do happen, from the empty index. */
  lemma IndexFailures(d: Bytes)
    ensures var repointed := DoAll([Create("ns/a", "p--1", d), Create("ns/a", "p--2", d), Delete("ns/a")]);
            repointed.mapping == map[] && "p--1" in repointed.store
    ensures var shared := DoAll([Create("ns/a", "p--1", d), Create("ns/b", "p--1", d), Delete("ns/a")]);
            "ns/b" in shared.mapping && shared.store == map[]
  {
    var c1, c2, c3, x :=
        Create("ns/a", "p--1", d), Create("ns/a", "p--2", d), Create("ns/b", "p--1", d), Delete("ns/a");
    assert [c1, c2, x][..2] == [c1, c2] && [c1, c2][..1] == [c1] && [c1][..0] == [];
    assert [c1, c3, x][..2] == [c1, c3] && [c1, c3][..1] == [c1];
    assert DoAll([c1]) == Do(EMPTY, c1);
    assert DoAll([c1, c2]) == Do(Do(EMPTY, c1), c2) && DoAll([c1, c3]) == Do(Do(EMPTY, c1), c3);
    assert DoAll([c1, c2, x]) == Do(Do(Do(EMPTY, c1), c2), x);
    assert DoAll([c1, c3, x]) == Do(Do(Do(EMPTY, c1), c3), x);
  }
}
