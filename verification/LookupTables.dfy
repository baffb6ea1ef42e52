/** Lookup tables as values: the reference counts of one table and every way they change.

    A table is either tracked with the counts of its keys, or deactivated. The closed
    forms below say what an operation does to every count at once; the class in
    RefcountedPubkeys.dfy performs the same operations entry by entry. */
module LookupTables {
  datatype Pubkey = Pubkey(id: nat)

  /** The derivation of a table address from the slot and sub slot is injective. */
  datatype Address = Address(slot: nat, subSlot: nat)

  const LOOKUP_TABLE_MAX_ADDRESSES: nat := 256
  const MAX_ENTRIES_AS_PART_OF_EXTEND: nat := 24
  const MAX_ENTRIES: nat := 512

  datatype Table =
    | Active(address: Address, counts: map<Pubkey, nat>, extendable: bool)
    | Deactivated(address: Address, deactivationSlot: nat)

  function Elements<T>(s: seq<T>): set<T> {
    set x | x in s
  }

  /** At most the first `n` keys. */
  function First(keys: seq<Pubkey>, n: nat): seq<Pubkey> {
    if |keys| <= n then keys else keys[..n]
  }

  predicate Contains(t: Table, k: Pubkey) {
    t.Active? && k in t.counts
  }

  function CountIn(counts: map<Pubkey, nat>, k: Pubkey): nat {
    if k in counts then counts[k] else 0
  }

  function CountOf(t: Table, k: Pubkey): nat {
    if t.Active? then CountIn(t.counts, k) else 0
  }

  predicate HasReservations(t: Table) {
    t.Active? && exists k :: k in t.counts && t.counts[k] > 0
  }

  predicate IsFull(t: Table) {
    !(t.Active? && t.extendable && |t.counts| < LOOKUP_TABLE_MAX_ADDRESSES)
  }

  // ----- what one operation does to all counts of a table

  function Reserved(counts: map<Pubkey, nat>, k: Pubkey): map<Pubkey, nat> {
    if k in counts then counts[k := counts[k] + 1] else counts
  }

  function Released(counts: map<Pubkey, nat>, k: Pubkey): map<Pubkey, nat> {
    if k in counts && counts[k] > 0 then counts[k := counts[k] - 1] else counts
  }

  /** Every occurrence of a key in `keys` adds one to its count. */
  function Inserted(counts: map<Pubkey, nat>, keys: seq<Pubkey>): map<Pubkey, nat> {
    map k | k in counts.Keys + Elements(keys) :: CountIn(counts, k) + multiset(keys)[k]
  }

  /** Keys seen on chain are adopted without a reservation. */
  function Adopted(counts: map<Pubkey, nat>, keys: seq<Pubkey>): map<Pubkey, nat> {
    map k | k in counts.Keys + Elements(keys) :: CountIn(counts, k)
  }

  /** Every key of `wanted` that the table holds gets one more reservation. */
  function ReservedAll(counts: map<Pubkey, nat>, wanted: set<Pubkey>): map<Pubkey, nat> {
    map k | k in counts :: counts[k] + if k in wanted then 1 else 0
  }

  predicate Distinct<T(==)>(s: seq<T>) {
    forall i, j :: 0 <= i < j < |s| ==> s[i] != s[j]
  }

  lemma {:induction false} DistinctMultiplicity<T>(b: seq<T>, x: T)
    requires Distinct(b)
    ensures multiset(b)[x] == if x in b then 1 else 0
  {
    if b != [] {
      var n := |b| - 1;
      assert b == b[..n] + [b[n]];
      DistinctMultiplicity(b[..n], x);
    }
  }

  // ----- lists of tables

  /** The reservations for `k` in the tables from position `from` on. */
  function SuffixCount(tables: seq<Table>, k: Pubkey, from: nat): nat
    requires from <= |tables|
    decreases |tables| - from
  {
    if from == |tables| then 0 else CountOf(tables[from], k) + SuffixCount(tables, k, from + 1)
  }

  function Total(tables: seq<Table>, k: Pubkey): nat {
    SuffixCount(tables, k, 0)
  }

  function WithReservations(tables: seq<Table>): seq<Table> {
    if tables == [] then []
    else (if HasReservations(tables[0]) then [tables[0]] else []) + WithReservations(tables[1..])
  }

  function WithoutReservations(tables: seq<Table>): seq<Table> {
    if tables == [] then []
    else (if HasReservations(tables[0]) then [] else [tables[0]]) + WithoutReservations(tables[1..])
  }

  // ----- lemmas about the lists

  lemma {:induction false} SuffixAgree(a: seq<Table>, b: seq<Table>, k: Pubkey, i: nat, j: nat)
    requires i <= |a| && j <= |b| && a[i..] == b[j..]
    ensures SuffixCount(a, k, i) == SuffixCount(b, k, j)
    decreases |a| - i
  {
    assert |a| - i == |a[i..]| == |b[j..]| == |b| - j;
    if i < |a| {
      assert a[i] == a[i..][0] == b[j..][0] == b[j];
      assert a[i + 1..] == a[i..][1..] && b[j + 1..] == b[j..][1..];
      SuffixAgree(a, b, k, i + 1, j + 1);
    }
  }

  /** Replacing one table moves exactly the suffixes that include its position. */
  lemma {:induction false} SuffixUpdate(a: seq<Table>, p: nat, t: Table, k: Pubkey, j: nat)
    requires p < |a| && j <= |a|
    ensures SuffixCount(a[p := t], k, j) ==
            SuffixCount(a, k, j) + if j <= p then CountOf(t, k) - CountOf(a[p], k) else 0
    decreases |a| - j
  {
    if j > p {
      assert a[p := t][j..] == a[j..];
      SuffixAgree(a[p := t], a, k, j, j);
    } else if j == p {
      assert a[p := t][p + 1..] == a[p + 1..];
      SuffixAgree(a[p := t], a, k, p + 1, p + 1);
    } else {
      SuffixUpdate(a, p, t, k, j + 1);
    }
  }

  lemma {:induction false} SuffixAppend(a: seq<Table>, b: seq<Table>, k: Pubkey, j: nat)
    requires j <= |a|
    ensures SuffixCount(a + b, k, j) == SuffixCount(a, k, j) + Total(b, k)
    decreases |a| - j
  {
    if j == |a| {
      assert (a + b)[j..] == b[0..];
      SuffixAgree(a + b, b, k, j, 0);
    } else {
      SuffixAppend(a, b, k, j + 1);
    }
  }

  /** A positive suffix count is carried by some table of the suffix. */
  lemma {:induction false} SuffixWitness(a: seq<Table>, k: Pubkey, j: nat) returns (i: nat)
    requires j <= |a| && SuffixCount(a, k, j) > 0
    ensures j <= i < |a| && CountOf(a[i], k) > 0
    decreases |a| - j
  {
    if CountOf(a[j], k) > 0 {
      i := j;
    } else {
      i := SuffixWitness(a, k, j + 1);
    }
  }

  lemma {:induction false} PartitionMembers(a: seq<Table>)
    ensures forall t :: t in WithReservations(a) <==> t in a && HasReservations(t)
    ensures forall t :: t in WithoutReservations(a) <==> t in a && !HasReservations(t)
    ensures |WithReservations(a)| + |WithoutReservations(a)| == |a|
  {
    if a != [] {
      PartitionMembers(a[1..]);
      assert a == [a[0]] + a[1..];
    }
  }

  /** Moving the tables without reservations away changes no total. */
  lemma {:induction false} PartitionKeepsTotal(a: seq<Table>, k: Pubkey)
    ensures Total(WithReservations(a), k) == Total(a, k)
  {
    if a != [] {
      var head := if HasReservations(a[0]) then [a[0]] else [];
      var rest := WithReservations(a[1..]);
      PartitionKeepsTotal(a[1..], k);
      SuffixAppend(head, rest, k, 0);
      assert a[1..] == a[1..][0..];
      SuffixAgree(a, a[1..], k, 1, 0);
      assert Total(head, k) == CountOf(a[0], k);
    }
  }
}
