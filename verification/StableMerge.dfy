/** Signature entries in the order of the history, newest first: stable sorting, merging, and
    keeping the first entry of every signature. */
module StableMerge {
  type Signature = nat

  datatype Entry = Entry(signature: Signature, slot: nat, index: nat, fromEngine: bool)

  /** `a` may stand before `b`: by slot, then by index, descending. */
  predicate Leads(a: Entry, b: Entry) {
    a.slot > b.slot || (a.slot == b.slot && a.index >= b.index)
  }

  predicate Sorted(s: seq<Entry>) {
    forall i, j :: 0 <= i < j < |s| ==> Leads(s[i], s[j])
  }

  /** The entries of one slot and index, in the order in which they stand. */
  function At(s: seq<Entry>, slot: nat, index: nat): seq<Entry> {
    if s == [] then []
    else (if s[0].slot == slot && s[0].index == index then [s[0]] else []) + At(s[1..], slot, index)
  }

  /** What a stable sort promises: order, the same entries, and ties left as they were. */
  ghost predicate IsStableSort(s: seq<Entry>, r: seq<Entry>) {
    Sorted(r) && forall slot, index :: At(r, slot, index) == At(s, slot, index)
  }

  function Insert(x: Entry, s: seq<Entry>): seq<Entry> {
    if s == [] || Leads(x, s[0]) then [x] + s else [s[0]] + Insert(x, s[1..])
  }

  function StableSort(s: seq<Entry>): seq<Entry> {
    if s == [] then [] else Insert(s[0], StableSort(s[1..]))
  }

  // ----- the sort is one, and there is only one

  lemma {:induction false} InsertMembers(x: Entry, s: seq<Entry>)
    ensures forall y :: y in Insert(x, s) <==> y == x || y in s
  {
    if s != [] && !Leads(x, s[0]) {
      InsertMembers(x, s[1..]);
      assert s == [s[0]] + s[1..];
    }
  }

  lemma ConsSorted(x: Entry, s: seq<Entry>)
    requires Sorted(s) && forall y :: y in s ==> Leads(x, y)
    ensures Sorted([x] + s)
  {
    var r := [x] + s;
    forall i, j | 0 <= i < j < |r| ensures Leads(r[i], r[j]) {
      assert r[j] == s[j - 1] && s[j - 1] in s;
    }
  }

  lemma {:induction false} InsertSorted(x: Entry, s: seq<Entry>)
    requires Sorted(s)
    ensures Sorted(Insert(x, s))
  {
    if s == [] || Leads(x, s[0]) {
      forall y | y in s ensures Leads(x, y) {
        assert Leads(s[0], y);
      }
      ConsSorted(x, s);
    } else {
      InsertSorted(x, s[1..]);
      InsertMembers(x, s[1..]);
      ConsSorted(s[0], Insert(x, s[1..]));
    }
  }

  /** The inserted entry comes before those it ties with. */
  lemma {:induction false} InsertAt(x: Entry, s: seq<Entry>, slot: nat, index: nat)
    requires Sorted(s)
    ensures At(Insert(x, s), slot, index) == At([x] + s, slot, index)
  {
    if s == [] || Leads(x, s[0]) {
    } else {
      InsertAt(x, s[1..], slot, index);
      assert Insert(x, s)[1..] == Insert(x, s[1..]);
      assert ([x] + s)[1..] == s && ([x] + s[1..])[1..] == s[1..];
    }
  }

  lemma {:induction false} SortIsStable(s: seq<Entry>)
    ensures IsStableSort(s, StableSort(s))
  {
    if s != [] {
      var r := StableSort(s[1..]);
      SortIsStable(s[1..]);
      InsertSorted(s[0], r);
      forall slot, index ensures At(StableSort(s), slot, index) == At(s, slot, index) {
        InsertAt(s[0], r, slot, index);
        assert ([s[0]] + r)[1..] == r;
      }
    }
  }

  lemma {:induction false} AtMember(s: seq<Entry>, x: Entry)
    ensures x in s <==> x in At(s, x.slot, x.index)
  {
    if s != [] {
      AtMember(s[1..], x);
      assert s == [s[0]] + s[1..];
    }
  }

  lemma HeadLeads(s: seq<Entry>, x: Entry)
    requires Sorted(s) && s != [] && x in s
    ensures Leads(s[0], x)
  {
  }

  lemma TailAt(s: seq<Entry>, slot: nat, index: nat)
    requires s != []
    ensures At(s[1..], slot, index) ==
            if s[0].slot == slot && s[0].index == index then At(s, slot, index)[1..] else At(s, slot, index)
  {
  }

  lemma SameHead(a: seq<Entry>, b: seq<Entry>)
    requires Sorted(a) && Sorted(b) && a != [] && b != []
    requires forall slot, index :: At(a, slot, index) == At(b, slot, index)
    ensures a[0] == b[0]
  {
    AtMember(b, a[0]);
    AtMember(a, b[0]);
    HeadLeads(a, b[0]);
    HeadLeads(b, a[0]);
    var slot, index := a[0].slot, a[0].index;
    assert At(a, slot, index)[0] == a[0] && At(b, slot, index)[0] == b[0];
  }

  lemma {:induction false} SameAt(a: seq<Entry>, b: seq<Entry>)
    requires Sorted(a) && Sorted(b)
    requires forall slot, index :: At(a, slot, index) == At(b, slot, index)
    ensures a == b
  {
    if a == [] || b == [] {
      if a != [] { AtMember(a, a[0]); AtMember(b, a[0]); }
      if b != [] { AtMember(a, b[0]); AtMember(b, b[0]); }
    } else {
      SameHead(a, b);
      forall slot, index ensures At(a[1..], slot, index) == At(b[1..], slot, index) {
        TailAt(a, slot, index);
        TailAt(b, slot, index);
      }
      SameAt(a[1..], b[1..]);
      assert a == [a[0]] + a[1..] && b == [b[0]] + b[1..];
    }
  }

  lemma {:induction false} StableSortIsUnique(s: seq<Entry>, a: seq<Entry>, b: seq<Entry>)
    requires IsStableSort(s, a) && IsStableSort(s, b)
    ensures a == b
  {
    SameAt(a, b);
  }

  // ----- merging two sorted histories

  function Merge(a: seq<Entry>, b: seq<Entry>): seq<Entry>
    decreases |a| + |b|
  {
    if a == [] then b
    else if b == [] then a
    else if Leads(a[0], b[0]) then [a[0]] + Merge(a[1..], b)
    else [b[0]] + Merge(a, b[1..])
  }

  lemma {:induction false} InsertIntoMerge(x: Entry, a: seq<Entry>, b: seq<Entry>)
    requires Sorted([x] + a)
    ensures Insert(x, Merge(a, b)) == Merge([x] + a, b)
    decreases |b|
  {
    var xa := [x] + a;
    assert xa[1..] == a;
    if a != [] {
      assert Leads(xa[0], xa[1]);
    }
    if b != [] && !Leads(x, b[0]) {
      InsertIntoMerge(x, a, b[1..]);
    }
  }

  lemma {:induction false} SortedIsFixed(s: seq<Entry>)
    requires Sorted(s)
    ensures StableSort(s) == s
  {
    if s != [] {
      SortedIsFixed(s[1..]);
      if |s| > 1 {
        assert Leads(s[0], s[1]);
      }
    }
  }

  /** Sorting both together is merging them, the first one ahead on ties. */
  lemma {:induction false} SortIsMerge(a: seq<Entry>, b: seq<Entry>)
    requires Sorted(a) && Sorted(b)
    ensures StableSort(a + b) == Merge(a, b)
  {
    if a == [] {
      assert a + b == b;
      SortedIsFixed(b);
    } else {
      SortIsMerge(a[1..], b);
      assert (a + b)[1..] == a[1..] + b;
      assert [a[0]] + a[1..] == a;
      InsertIntoMerge(a[0], a[1..], b);
    }
  }

  // ----- first entry of every signature

  function Signatures(s: seq<Entry>): set<Signature> {
    set x | x in s :: x.signature
  }

  predicate Distinct(s: seq<Entry>) {
    forall i, j :: 0 <= i < j < |s| ==> s[i].signature != s[j].signature
  }

  function Dedup(s: seq<Entry>): seq<Entry> {
    if s == [] then []
    else Dedup(s[..|s| - 1]) + (if s[|s| - 1].signature in Signatures(s[..|s| - 1]) then [] else [s[|s| - 1]])
  }

  lemma SignaturesOneMore(s: seq<Entry>, x: Entry)
    ensures Signatures(s + [x]) == Signatures(s) + {x.signature}
  {
  }

  lemma DistinctOneMore(s: seq<Entry>, x: Entry)
    requires Distinct(s) && x.signature !in Signatures(s)
    ensures Distinct(s + [x])
  {
    forall i | 0 <= i < |s| ensures s[i].signature != x.signature {
      assert s[i] in s && s[i].signature in Signatures(s);
    }
  }

  lemma DedupOneMore(s: seq<Entry>, x: Entry)
    ensures Dedup(s + [x]) == if x.signature in Signatures(s) then Dedup(s) else Dedup(s) + [x]
  {
    assert (s + [x])[..|s|] == s;
  }

  /** `d` has one entry of every signature in `s`, and no other. */
  predicate OneEach(s: seq<Entry>, d: seq<Entry>) {
    Distinct(d) && Signatures(d) == Signatures(s) && |d| == |Signatures(s)|
  }

  lemma OneEachMore(s: seq<Entry>, d: seq<Entry>, x: Entry)
    requires OneEach(s, d)
    ensures OneEach(s + [x], if x.signature in Signatures(s) then d else d + [x])
  {
    SignaturesOneMore(s, x);
    SignaturesOneMore(d, x);
    if x.signature !in Signatures(s) {
      DistinctOneMore(d, x);
    }
    hide Signatures;
    hide Distinct;
  }

  /** One entry is left of every signature, and no other. */
  lemma {:induction false} DedupCounts(s: seq<Entry>)
    ensures Distinct(Dedup(s)) && Signatures(Dedup(s)) == Signatures(s) && |Dedup(s)| == |Signatures(s)|
  {
    if s != [] {
      var init, last := s[..|s| - 1], s[|s| - 1];
      DedupCounts(init);
      DedupOneMore(init, last);
      OneEachMore(init, Dedup(init), last);
      assert s == init + [last];
    }
  }

  lemma {:induction false} DedupPrefix(s: seq<Entry>, n: nat)
    requires n <= |s|
    ensures Dedup(s[..n]) <= Dedup(s)
    decreases |s|
  {
    if n == |s| {
      assert s[..n] == s;
    } else {
      DedupPrefix(s[..|s| - 1], n);
      assert s[..|s| - 1][..n] == s[..n];
    }
  }

  lemma {:induction false} DistinctIsFixed(s: seq<Entry>)
    requires Distinct(s)
    ensures Dedup(s) == s
  {
    if s != [] {
      var init, last := s[..|s| - 1], s[|s| - 1];
      DistinctIsFixed(init);
      assert last.signature !in Signatures(init);
      assert s == init + [last];
    }
  }

  lemma DistinctCount(s: seq<Entry>)
    requires Distinct(s)
    ensures |Signatures(s)| == |s|
  {
    DedupCounts(s);
    DistinctIsFixed(s);
  }

  lemma {:induction false} DedupMembers(s: seq<Entry>, x: Entry)
    requires x in Dedup(s)
    ensures x in s
  {
    if x in Dedup(s[..|s| - 1]) {
      DedupMembers(s[..|s| - 1], x);
    }
  }

  /** Of several entries of a signature the leading one is kept. */
  lemma {:induction false} DedupKeepsLeading(s: seq<Entry>, x: Entry, y: Entry)
    requires Sorted(s) && x in Dedup(s) && y in s && x.signature == y.signature
    ensures x in s && Leads(x, y)
  {
    var init, last := s[..|s| - 1], s[|s| - 1];
    assert s == init + [last];
    if x in Dedup(init) {
      if y in init {
        DedupKeepsLeading(init, x, y);
      } else {
        DedupMembers(init, x);
        var i :| 0 <= i < |init| && init[i] == x;
        assert Leads(s[i], s[|s| - 1]);
      }
    } else {
      assert y.signature !in Signatures(init);
    }
  }
}
