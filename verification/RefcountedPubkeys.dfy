/** The reference counted keys of one table, updated entry by entry. */
module RefcountedPubkeysModule {
  import opened LookupTables

  lemma InsertedOneMore(counts: map<Pubkey, nat>, keys: seq<Pubkey>, i: nat)
    requires i < |keys|
    ensures var sofar := Inserted(counts, keys[..i]);
            Inserted(counts, keys[..i + 1]) == sofar[keys[i] := CountIn(sofar, keys[i]) + 1]
  {
    assert keys[..i + 1] == keys[..i] + [keys[i]];
  }

  lemma AdoptedOneMore(counts: map<Pubkey, nat>, keys: seq<Pubkey>, i: nat)
    requires i < |keys|
    ensures var sofar := Adopted(counts, keys[..i]);
            Adopted(counts, keys[..i + 1]) == sofar[keys[i] := CountIn(sofar, keys[i])]
  {
    assert keys[..i + 1] == keys[..i] + [keys[i]];
  }

  class RefcountedPubkeys {
    var pubkeys: map<Pubkey, nat>

    /** Takes over the counts a table has. */
    constructor (counts: map<Pubkey, nat>)
      ensures pubkeys == counts
    {
      pubkeys := counts;
    }

    /** Keys of a fresh table: reserved once each, however often they are named. */
    constructor New(keys: seq<Pubkey>)
      ensures pubkeys.Keys == Elements(keys) && forall k :: k in keys ==> pubkeys[k] == 1
      ensures Distinct(keys) ==> pubkeys == Inserted(map[], keys)
    {
      pubkeys := map k | k in keys :: 1;
      if Distinct(keys) {
        forall k | k in keys ensures multiset(keys)[k] == 1 { DistinctMultiplicity(keys, k); }
      }
    }

    /** Existing keys are counted up, new ones start with one reservation. */
    method InsertMany(keys: seq<Pubkey>)
      modifies this
      ensures pubkeys == Inserted(old(pubkeys), keys)
    {
      ghost var before := pubkeys;
      assert pubkeys == Inserted(before, []);
      for i := 0 to |keys|
        invariant pubkeys == Inserted(before, keys[..i])
      {
        var k := keys[i];
        InsertedOneMore(before, keys, i);
        if k in pubkeys {
          pubkeys := pubkeys[k := pubkeys[k] + 1];
        } else {
          pubkeys := pubkeys[k := 1];
        }
      }
      assert keys[..|keys|] == keys;
    }

    /** Keys already on chain join without a reservation; the result tells how many did. */
    method InsertUnreservedMany(keys: seq<Pubkey>) returns (inserted: nat)
      modifies this
      ensures pubkeys == Adopted(old(pubkeys), keys)
      ensures inserted == |pubkeys| - |old(pubkeys)|
    {
      inserted := 0;
      ghost var before := pubkeys;
      assert pubkeys == Adopted(before, []);
      for i := 0 to |keys|
        invariant pubkeys == Adopted(before, keys[..i])
        invariant |pubkeys| == |before| + inserted
      {
        var k := keys[i];
        AdoptedOneMore(before, keys, i);
        if k !in pubkeys {
          pubkeys := pubkeys[k := 0];
          inserted := inserted + 1;
        }
      }
      assert keys[..|keys|] == keys;
    }

    method Reserve(k: Pubkey) returns (ok: bool)
      modifies this
      ensures ok <==> k in old(pubkeys)
      ensures pubkeys == Reserved(old(pubkeys), k)
    {
      ok := k in pubkeys;
      if ok {
        pubkeys := pubkeys[k := pubkeys[k] + 1];
      }
    }

    /** Succeeds only if there is a reservation to give back. */
    method Release(k: Pubkey) returns (ok: bool)
      modifies this
      ensures ok <==> CountIn(old(pubkeys), k) > 0
      ensures pubkeys == Released(old(pubkeys), k)
    {
      ok := k in pubkeys && pubkeys[k] > 0;
      if ok {
        pubkeys := pubkeys[k := pubkeys[k] - 1];
      }
    }

    method AnyReserved() returns (b: bool)
      ensures b <==> exists k :: k in pubkeys && pubkeys[k] > 0
    {
      var rest := pubkeys.Keys;
      b := false;
      while rest != {} && !b
        invariant rest <= pubkeys.Keys
        invariant b <==> exists k :: k in pubkeys.Keys - rest && pubkeys[k] > 0
        decreases rest
      {
        var k :| k in rest;
        rest := rest - {k};
        if pubkeys[k] > 0 {
          b := true;
          assert k in pubkeys.Keys - rest;
        }
      }
      assert rest == {} ==> pubkeys.Keys - rest == pubkeys.Keys;
    }
  }
}
