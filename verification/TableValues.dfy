/** Operations on the reference counts of one table, and on lists of keys and tables, as the manager
    performs them: from values to values. */
module TableValues {
  import opened LookupTables
  import opened TableProtocol
  import opened RefcountedPubkeysModule

  /** Takes every key the table has out of `remaining`, reserving it on the way if asked to. */
  method FilterPubkeysPresentInTable(keys: RefcountedPubkeys, remaining: seq<Pubkey>, mode: Mode, reserved: set<Pubkey>)
    returns (kept: seq<Pubkey>, reserved': set<Pubkey>)
    requires Distinct(remaining)
    modifies keys
    ensures reserved' == if mode == Reserve then reserved + Elements(remaining) * old(keys.pubkeys).Keys else reserved
    ensures keys.pubkeys == if mode == Reserve then ReservedAll(old(keys.pubkeys), Elements(remaining))
                            else old(keys.pubkeys)
    ensures Distinct(kept) && Elements(kept) == Elements(remaining) - old(keys.pubkeys).Keys
    ensures |kept| <= |remaining|
  {
    kept, reserved' := [], reserved;
    ghost var before := keys.pubkeys;
    assert ReservedAll(before, {}) == before;
    for i := 0 to |remaining|
      invariant keys.pubkeys == if mode == Reserve then ReservedAll(before, Elements(remaining[..i])) else before
      invariant Distinct(kept) && Elements(kept) == Elements(remaining[..i]) - before.Keys
      invariant |kept| <= i
      invariant reserved' == if mode == Reserve then reserved + Elements(remaining[..i]) * before.Keys else reserved
    {
      var k := remaining[i];
      assert remaining[..i + 1] == remaining[..i] + [k];
      assert Elements(remaining[..i + 1]) == Elements(remaining[..i]) + {k};
      assert k !in Elements(remaining[..i]);
      assert k !in kept by { assert k in kept ==> k in Elements(kept); }
      assert Elements(kept + [k]) == Elements(kept) + {k};
      var present: bool;
      if mode == Reserve {
        present := keys.Reserve(k);
        if present {
          reserved' := reserved' + {k};
        }
      } else {
        present := k in keys.pubkeys;
      }
      if !present {
        kept := kept + [k];
      }
    }
    assert remaining[..|remaining|] == remaining;
  }

  lemma AdoptedKeys(counts: map<Pubkey, nat>, seen: seq<Pubkey>)
    ensures Adopted(counts, seen).Keys == counts.Keys + Elements(seen)
  {
  }

  /** Keys the chain lists join the table; those of them the call still wants are settled. */
  method AdoptAndFilter(counts: map<Pubkey, nat>, seen: seq<Pubkey>, remaining: seq<Pubkey>, mode: Mode,
                        reserved: set<Pubkey>)
    returns (counts': map<Pubkey, nat>, kept: seq<Pubkey>, reserved': set<Pubkey>)
    requires Distinct(remaining)
    ensures counts' == if mode == Reserve then ReservedAll(Adopted(counts, seen), Elements(remaining))
                       else Adopted(counts, seen)
    ensures Distinct(kept) && |kept| <= |remaining|
    ensures Elements(kept) == Elements(remaining) - Elements(remaining) * Adopted(counts, seen).Keys
    ensures reserved' == if mode == Reserve then reserved + Elements(remaining) * Adopted(counts, seen).Keys
                         else reserved
  {
    var keys := new RefcountedPubkeys(counts);
    var inserted := keys.InsertUnreservedMany(seen);
    kept, reserved' := FilterPubkeysPresentInTable(keys, remaining, mode, reserved);
    counts' := keys.pubkeys;
  }

  method InsertInto(counts: map<Pubkey, nat>, batch: seq<Pubkey>) returns (counts': map<Pubkey, nat>)
    ensures counts' == Inserted(counts, batch)
  {
    var keys := new RefcountedPubkeys(counts);
    keys.InsertMany(batch);
    counts' := keys.pubkeys;
  }

  method FirstReservations(batch: seq<Pubkey>) returns (counts: map<Pubkey, nat>)
    requires Distinct(batch)
    ensures counts == Inserted(map[], batch)
  {
    var keys := new RefcountedPubkeys.New(batch);
    counts := keys.pubkeys;
  }

  method TryReserve(counts: map<Pubkey, nat>, k: Pubkey) returns (ok: bool, counts': map<Pubkey, nat>)
    ensures ok <==> k in counts
    ensures counts' == Reserved(counts, k)
  {
    var keys := new RefcountedPubkeys(counts);
    ok := keys.Reserve(k);
    counts' := keys.pubkeys;
  }

  method TryRelease(counts: map<Pubkey, nat>, k: Pubkey) returns (ok: bool, counts': map<Pubkey, nat>)
    ensures ok <==> CountIn(counts, k) > 0
    ensures counts' == Released(counts, k)
  {
    var keys := new RefcountedPubkeys(counts);
    ok := keys.Release(k);
    counts' := keys.pubkeys;
  }

  lemma PartitionOneMore(tables: seq<Table>, i: nat)
    requires i < |tables|
    ensures WithReservations(tables[i..])
         == (if HasReservations(tables[i]) then [tables[i]] else []) + WithReservations(tables[i + 1..])
    ensures WithoutReservations(tables[i..])
         == (if HasReservations(tables[i]) then [] else [tables[i]]) + WithoutReservations(tables[i + 1..])
  {
    assert tables[i..][1..] == tables[i + 1..];
  }

  lemma NothingToPartition()
    ensures WithReservations([]) == [] && WithoutReservations([]) == []
  {
  }

  /** One pass over the drained list. */
  method Partition(tables: seq<Table>) returns (kept: seq<Table>, gone: seq<Table>)
    ensures kept == WithReservations(tables) && gone == WithoutReservations(tables)
  {
    hide WithReservations;
    hide WithoutReservations;
    kept, gone := [], [];
    for i := 0 to |tables|
      invariant kept + WithReservations(tables[i..]) == WithReservations(tables)
      invariant gone + WithoutReservations(tables[i..]) == WithoutReservations(tables)
    {
      var t := tables[i];
      PartitionOneMore(tables, i);
      var used := false;
      if t.Active? {
        var keys := new RefcountedPubkeys(t.counts);
        used := keys.AnyReserved();
      }
      if used {
        kept := kept + [t];
      } else {
        gone := gone + [t];
      }
    }
    assert tables[|tables|..] == [];
    NothingToPartition();
  }

  /** Keeps the keys that are not in `stored`. */
  method Retain(keys: seq<Pubkey>, stored: seq<Pubkey>) returns (kept: seq<Pubkey>)
    requires Distinct(keys) && stored <= keys
    ensures Distinct(kept) && Elements(kept) == Elements(keys) - Elements(stored)
    ensures stored != [] ==> |kept| < |keys|
  {
    kept := [];
    for i := 0 to |keys|
      invariant Distinct(kept) && Elements(kept) == Elements(keys[..i]) - Elements(stored)
      invariant |kept| <= i && (stored != [] && i > 0 ==> |kept| < i)
    {
      var k := keys[i];
      assert keys[..i + 1] == keys[..i] + [k];
      assert Elements(keys[..i + 1]) == Elements(keys[..i]) + {k};
      assert k !in Elements(keys[..i]);
      assert k !in kept by { assert k in kept ==> k in Elements(kept); }
      assert Elements(kept + [k]) == Elements(kept) + {k};
      assert i == 0 && stored != [] ==> k == stored[0];
      if k !in stored {
        kept := kept + [k];
      }
    }
    assert keys[..|keys|] == keys;
  }
}
