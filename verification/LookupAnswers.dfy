/** Which tables answer a request for lookup tables. */
module LookupAnswers {
  import opened LookupTables

  predicate UniqueAddresses(tables: seq<Table>) {
    forall i, j :: 0 <= i < j < |tables| ==> tables[i].address != tables[j].address
  }

  /** No address without keys, and only requested keys. */
  predicate Within(matching: map<Address, set<Pubkey>>, keys: set<Pubkey>) {
    forall a :: a in matching ==> matching[a] != {} && matching[a] <= keys
  }

  predicate Separate(matching: map<Address, set<Pubkey>>) {
    forall a, b :: a in matching && b in matching && a != b ==> matching[a] !! matching[b]
  }

  predicate Assigned(matching: map<Address, set<Pubkey>>, k: Pubkey) {
    exists a :: a in matching && k in matching[a]
  }

  /** Every key of `keys` is assigned to exactly one address, and no address is without keys. */
  ghost predicate Partitions(matching: map<Address, set<Pubkey>>, keys: set<Pubkey>) {
    Within(matching, keys) && Separate(matching) && forall k :: k in keys ==> Assigned(matching, k)
  }

  predicate ServedBy(tables: seq<Table>, i: int, a: Address, keys: set<Pubkey>) {
    0 <= i < |tables| && tables[i].address == a && forall k :: k in keys ==> Contains(tables[i], k)
  }

  lemma AssignedGrows(matching: map<Address, set<Pubkey>>, a: Address, more: set<Pubkey>, k: Pubkey)
    requires a !in matching && (Assigned(matching, k) || k in more)
    ensures Assigned(matching[a := more], k)
  {
    var grown := matching[a := more];
    if k in more {
      assert k in grown[a];
    } else {
      var b :| b in matching && k in matching[b];
      assert k in grown[b];
    }
  }

  lemma SeparateGrows(matching: map<Address, set<Pubkey>>, keys: set<Pubkey>, a: Address, more: set<Pubkey>)
    requires Within(matching, keys) && Separate(matching) && a !in matching && more !! keys
    ensures Separate(matching[a := more])
  {
  }

  lemma PartitionGrows(matching: map<Address, set<Pubkey>>, keys: set<Pubkey>, a: Address, more: set<Pubkey>)
    requires Partitions(matching, keys) && a !in matching && more != {} && more !! keys
    ensures Partitions(matching[a := more], keys + more)
  {
    forall k | k in keys + more ensures Assigned(matching[a := more], k) { AssignedGrows(matching, a, more, k); }
    SeparateGrows(matching, keys, a, more);
  }

  predicate InNone(tables: seq<Table>, n: nat, k: Pubkey)
    requires n <= |tables|
  {
    forall j :: 0 <= j < n ==> !Contains(tables[j], k)
  }

  /** Each assigned address is one of the first `n` tables, and that table has the keys. */
  ghost predicate Served(tables: seq<Table>, n: nat, matching: map<Address, set<Pubkey>>) {
    forall a :: a in matching ==> exists j :: j < n && ServedBy(tables, j, a, matching[a])
  }

  lemma AddressIsNew(tables: seq<Table>, i: nat, matching: map<Address, set<Pubkey>>)
    requires UniqueAddresses(tables) && i < |tables| && Served(tables, i, matching)
    ensures tables[i].address !in matching
  {
  }

  lemma ServedGrows(tables: seq<Table>, i: nat, matching: map<Address, set<Pubkey>>, here: set<Pubkey>)
    requires i < |tables| && Served(tables, i, matching)
    requires forall k :: k in here ==> Contains(tables[i], k)
    ensures Served(tables, i + 1, matching[tables[i].address := here])
  {
    var grown := matching[tables[i].address := here];
    forall a | a in grown ensures exists j :: j < i + 1 && ServedBy(tables, j, a, grown[a]) {
      if a == tables[i].address {
        assert ServedBy(tables, i, a, grown[a]);
      } else {
        var j :| j < i && ServedBy(tables, j, a, matching[a]);
        assert ServedBy(tables, j, a, grown[a]);
      }
    }
  }

  /** Assigns every requested key to the first table that has it; keys in no table are left over. */
  method MatchTables(tables: seq<Table>, pubkeys: set<Pubkey>)
    returns (matching: map<Address, set<Pubkey>>, unmatched: set<Pubkey>)
    requires UniqueAddresses(tables)
    ensures forall k :: k in unmatched <==> k in pubkeys && InNone(tables, |tables|, k)
    ensures Partitions(matching, pubkeys - unmatched)
    ensures Served(tables, |tables|, matching)
  {
    matching, unmatched := map[], pubkeys;
    for i := 0 to |tables|
      invariant forall k :: k in unmatched <==> k in pubkeys && InNone(tables, i, k)
      invariant unmatched <= pubkeys
      invariant Partitions(matching, pubkeys - unmatched)
      invariant Served(tables, i, matching)
    {
      var here := set k | k in unmatched && Contains(tables[i], k);
      forall k ensures k in unmatched - here <==> k in pubkeys && InNone(tables, i + 1, k) {
        assert InNone(tables, i + 1, k) <==> InNone(tables, i, k) && !Contains(tables[i], k);
      }
      if here != {} {
        AddressIsNew(tables, i, matching);
        PartitionGrows(matching, pubkeys - unmatched, tables[i].address, here);
        ServedGrows(tables, i, matching, here);
        assert pubkeys - (unmatched - here) == (pubkeys - unmatched) + here;
        matching := matching[tables[i].address := here];
      }
      assert here == {} ==> unmatched - here == unmatched;
      unmatched := unmatched - here;
    }
  }

  /** Whether as many tables came back as were asked for and each lists all keys assigned to it. */
  method AllMatchesAreRemote(matching: map<Address, set<Pubkey>>, remote: map<Address, seq<Pubkey>>) returns (b: bool)
    requires remote.Keys <= matching.Keys
    ensures b ==> remote.Keys == matching.Keys
    ensures b ==> forall a, k :: a in matching && k in matching[a] ==> k in remote[a]
    ensures !b ==> exists a :: a in matching && (a !in remote || exists k :: k in matching[a] && k !in remote[a])
  {
    if |remote| != |matching| {
      assert remote.Keys != matching.Keys;
      return false;
    }
    b := forall a | a in matching :: a in remote && forall k | k in matching[a] :: k in remote[a];
  }
}
