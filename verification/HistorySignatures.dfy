/** The signatures of an address across the engine and the legacy ledger: limits are pushed into
    both sources, cursors decide which of them is asked, and the answers are merged. */
module HistorySignatures {
  import opened Options
  import opened StableMerge

  function Top(s: seq<Entry>, n: nat): seq<Entry> {
    if |s| <= n then s else s[..n]
  }

  /** The plain query over whatever was found. */
  function Newest(s: seq<Entry>, limit: nat): seq<Entry> {
    Top(Dedup(StableSort(s)), limit)
  }

  /** A source's own answer: newest first, every signature once. */
  predicate IsSource(s: seq<Entry>) {
    Sorted(s) && Distinct(s)
  }

  // ----- pushing the limit into the sources

  /** How far a merge of the first `p` and the first `q` goes with the merge of all. */
  function Common(a: seq<Entry>, b: seq<Entry>, p: nat, q: nat): nat
    requires p <= |a| && q <= |b|
    decreases |a| + |b|
  {
    if p == |a| && q == |b| then |a| + |b|
    else if (p == 0 && a != []) || (q == 0 && b != []) then 0
    else if a == [] then q
    else if b == [] then p
    else if Leads(a[0], b[0]) then 1 + Common(a[1..], b, p - 1, q)
    else 1 + Common(a, b[1..], p, q - 1)
  }

  predicate Agree(all: seq<Entry>, cut: seq<Entry>, c: nat) {
    c <= |all| && c <= |cut| && all[..c] == cut[..c]
  }

  predicate Covers(part: seq<Entry>, all: seq<Entry>, c: nat) {
    c <= |all| && forall x :: x in part ==> x in all[..c]
  }

  lemma ConsAgree(x: Entry, all: seq<Entry>, cut: seq<Entry>, c: nat)
    requires Agree(all, cut, c)
    ensures Agree([x] + all, [x] + cut, c + 1)
  {
    assert ([x] + all)[..c + 1] == [x] + all[..c] && ([x] + cut)[..c + 1] == [x] + cut[..c];
  }

  lemma ConsCovers(x: Entry, part: seq<Entry>, all: seq<Entry>, c: nat)
    requires Covers(part, all, c)
    ensures Covers([x] + part, [x] + all, c + 1) && Covers(part, [x] + all, c + 1)
  {
    assert ([x] + all)[..c + 1] == [x] + all[..c];
  }

  lemma {:induction false} MergeMembers(a: seq<Entry>, b: seq<Entry>)
    ensures forall x :: x in Merge(a, b) <==> x in a || x in b
    decreases |a| + |b|
  {
    if a != [] && b != [] {
      if Leads(a[0], b[0]) {
        MergeMembers(a[1..], b);
        assert a == [a[0]] + a[1..];
      } else {
        MergeMembers(a, b[1..]);
        assert b == [b[0]] + b[1..];
      }
    }
  }

  lemma {:induction false} MergeLength(a: seq<Entry>, b: seq<Entry>)
    ensures |Merge(a, b)| == |a| + |b|
    decreases |a| + |b|
  {
    if a != [] && b != [] {
      if Leads(a[0], b[0]) { MergeLength(a[1..], b); } else { MergeLength(a, b[1..]); }
    }
  }

  lemma MergeAll(a: seq<Entry>, b: seq<Entry>, p: nat, q: nat)
    requires p <= |a| && q <= |b| && ((p == |a| && q == |b|) || a == [] || b == [])
    requires !(p == 0 && a != []) && !(q == 0 && b != [])
    ensures var c := Common(a, b, p, q);
            Agree(Merge(a, b), Merge(a[..p], b[..q]), c) && Covers(a[..p], Merge(a, b), c)
                && Covers(b[..q], Merge(a, b), c)
  {
    MergeLength(a, b);
    MergeMembers(a, b);
    if p == |a| && q == |b| {
      assert a[..p] == a && b[..q] == b;
      assert Merge(a, b)[..|a| + |b|] == Merge(a, b);
    }
  }

  lemma NothingKept(a: seq<Entry>, b: seq<Entry>, p: nat, q: nat)
    requires p <= |a| && q <= |b| && ((p == 0 && a != []) || (q == 0 && b != []))
    ensures Common(a, b, p, q) == 0 && Agree(Merge(a, b), Merge(a[..p], b[..q]), 0)
    ensures p == 0 && a != [] ==> Covers(a[..p], Merge(a, b), 0)
    ensures q == 0 && b != [] ==> Covers(b[..q], Merge(a, b), 0)
  {
  }

  /** Up to there both merges agree, and a source that was cut, if any was, is used up by then. */
  lemma {:induction false} CommonPrefix(a: seq<Entry>, b: seq<Entry>, p: nat, q: nat)
    requires p <= |a| && q <= |b|
    ensures Agree(Merge(a, b), Merge(a[..p], b[..q]), Common(a, b, p, q))
    ensures || (p == |a| && q == |b|)
            || (p < |a| && Covers(a[..p], Merge(a, b), Common(a, b, p, q)))
            || (q < |b| && Covers(b[..q], Merge(a, b), Common(a, b, p, q)))
    decreases |a| + |b|
  {
    hide Agree;
    hide Covers;
    if (p == 0 && a != []) || (q == 0 && b != []) {
      NothingKept(a, b, p, q);
    } else if (p == |a| && q == |b|) || a == [] || b == [] {
      MergeAll(a, b, p, q);
    } else if Leads(a[0], b[0]) {
      CommonPrefix(a[1..], b, p - 1, q);
      assert a[..p] == [a[0]] + a[1..][..p - 1];
      assert a[..p][1..] == a[1..][..p - 1];
      var c := Common(a[1..], b, p - 1, q);
      ConsAgree(a[0], Merge(a[1..], b), Merge(a[1..][..p - 1], b[..q]), c);
      if p < |a| && Covers(a[1..][..p - 1], Merge(a[1..], b), c) {
        ConsCovers(a[0], a[1..][..p - 1], Merge(a[1..], b), c);
      } else {
        ConsCovers(a[0], b[..q], Merge(a[1..], b), c);
      }
    } else {
      CommonPrefix(a, b[1..], p, q - 1);
      assert b[..q] == [b[0]] + b[1..][..q - 1];
      assert b[..q][1..] == b[1..][..q - 1];
      var c := Common(a, b[1..], p, q - 1);
      ConsAgree(b[0], Merge(a, b[1..]), Merge(a[..p], b[1..][..q - 1]), c);
      if p < |a| && Covers(a[..p], Merge(a, b[1..]), c) {
        ConsCovers(b[0], a[..p], Merge(a, b[1..]), c);
      } else {
        ConsCovers(b[0], b[1..][..q - 1], Merge(a, b[1..]), c);
      }
    }
  }

  /** A prefix with `n` different signatures decides the first `n`. */
  lemma PrefixDecides(s: seq<Entry>, c: nat, n: nat)
    requires c <= |s| && |Signatures(s[..c])| >= n
    ensures Top(Dedup(s), n) == Top(Dedup(s[..c]), n)
  {
    hide Dedup;
    hide Signatures;
    hide Distinct;
    DedupPrefix(s, c);
    DedupCounts(s[..c]);
    assert Dedup(s)[..|Dedup(s[..c])|] == Dedup(s[..c]);
  }

  lemma {:induction false} SubsetSize(a: set<Signature>, b: set<Signature>)
    requires a <= b
    ensures |a| <= |b|
  {
    if a != {} {
      var x :| x in a;
      SubsetSize(a - {x}, b - {x});
    }
  }

  lemma EnoughSignatures(part: seq<Entry>, s: seq<Entry>)
    requires Distinct(part) && forall x :: x in part ==> x in s
    ensures |Signatures(s)| >= |part|
  {
    DistinctCount(part);
    assert Signatures(part) <= Signatures(s);
    SubsetSize(Signatures(part), Signatures(s));
  }

  /** Asking each source for `n` entries is as good as asking for all of them, whatever the two
      share and however they tie. */
  lemma LimitPushdown(engine: seq<Entry>, legacy: seq<Entry>, n: nat)
    requires IsSource(engine) && IsSource(legacy)
    ensures Newest(Top(engine, n) + Top(legacy, n), n) == Newest(engine + legacy, n)
  {
    var p, q := |Top(engine, n)|, |Top(legacy, n)|;
    var e, l := engine[..p], legacy[..q];
    assert Top(engine, n) == e && Top(legacy, n) == l;
    SortIsMerge(engine, legacy);
    SortIsMerge(e, l);
    CommonPrefix(engine, legacy, p, q);
    var all, cut, c := Merge(engine, legacy), Merge(e, l), Common(engine, legacy, p, q);
    if p == |engine| && q == |legacy| {
      assert e == engine && l == legacy;
    } else {
      if p < |engine| && Covers(e, all, c) {
        EnoughSignatures(e, all[..c]);
      } else {
        EnoughSignatures(l, all[..c]);
      }
      PrefixDecides(all, c, n);
      PrefixDecides(cut, c, n);
    }
  }

  // ----- cursors

  /** Where a signature stands; the length if it does not occur. */
  function Position(s: seq<Entry>, c: Signature): (p: nat)
    ensures p <= |s| && (p < |s| ==> s[p].signature == c)
    ensures p == |s| <==> c !in Signatures(s)
  {
    if s == [] then 0
    else if s[0].signature == c then 0
    else
      assert s == [s[0]] + s[1..];
      assert Signatures(s) == {s[0].signature} + Signatures(s[1..]);
      1 + Position(s[1..], c)
  }

  function From(s: seq<Entry>, before: Option<Signature>): nat {
    match before case None => 0 case Some(c) => Position(s, c) + 1
  }

  function To(s: seq<Entry>, until: Option<Signature>): nat {
    match until case None => |s| case Some(c) => Position(s, c)
  }

  function Slice(s: seq<Entry>, from: nat, to: nat): seq<Entry> {
    if from <= to <= |s| then s[from..to] else []
  }

  /** The entries older than `before` and newer than `until`; none if the cursors are crossed. */
  function Window(s: seq<Entry>, before: Option<Signature>, until: Option<Signature>): seq<Entry> {
    Slice(s, From(s, before), To(s, until))
  }

  /** What a source promises: the first `limit` entries of its window. */
  function Ask(s: seq<Entry>, before: Option<Signature>, until: Option<Signature>, limit: nat): seq<Entry> {
    Top(Window(s, before, until), limit)
  }

  function Keep(c: Option<Signature>, keep: bool): Option<Signature> {
    if keep then c else None
  }

  /** A cursor the ledger does not know sets no bound. */
  function FindIn(s: seq<Entry>, c: Option<Signature>): Option<Signature> {
    if c.Some? && c.value in Signatures(s) then c else None
  }

  /** The engine knows the status of a cursor. */
  predicate ContainsCursor(known: set<Signature>, c: Option<Signature>) {
    c.Some? && c.value in known
  }

  function EnginePart(engine: seq<Entry>, known: set<Signature>, before: Option<Signature>,
                      until: Option<Signature>): seq<Entry> {
    if before == None || ContainsCursor(known, before)
    then Window(engine, Keep(before, ContainsCursor(known, before)), Keep(until, ContainsCursor(known, until)))
    else []
  }

  function LegacyPart(legacy: seq<Entry>, known: set<Signature>, before: Option<Signature>,
                      until: Option<Signature>): seq<Entry> {
    if ContainsCursor(known, until) then []
    else Window(legacy, FindIn(legacy, Keep(before, !ContainsCursor(known, before))),
                        FindIn(legacy, Keep(until, !ContainsCursor(known, until))))
  }

  method RetainUnseen(merged: seq<Entry>) returns (r: seq<Entry>)
    ensures r == Dedup(merged)
  {
    r := [];
    var seen: set<Signature> := {};
    for i := 0 to |merged|
      invariant seen == Signatures(merged[..i]) && r == Dedup(merged[..i])
    {
      assert merged[..i + 1] == merged[..i] + [merged[i]];
      if merged[i].signature !in seen {
        seen := seen + {merged[i].signature};
        r := r + [merged[i]];
      }
      assert Signatures(merged[..i + 1]) == Signatures(merged[..i]) + {merged[i].signature};
    }
    assert merged[..|merged|] == merged;
  }

  // ----- one history behind the other

  /** Every legacy entry is in an older slot than every engine entry, no signature is in both,
      and the engine knows its own signatures and none of the ledger's. */
  predicate Partitioned(engine: seq<Entry>, legacy: seq<Entry>, known: set<Signature>) {
    && IsSource(engine) && IsSource(legacy)
    && (forall i, j :: 0 <= i < |engine| && 0 <= j < |legacy| ==> engine[i].slot > legacy[j].slot)
    && Signatures(engine) !! Signatures(legacy)
    && Signatures(engine) <= known && Signatures(legacy) !! known
  }

  predicate Found(s: seq<Entry>, c: Option<Signature>) {
    c.Some? ==> c.value in Signatures(s)
  }

  lemma WindowIsSource(s: seq<Entry>, before: Option<Signature>, until: Option<Signature>)
    requires IsSource(s)
    ensures IsSource(Window(s, before, until))
  {
  }

  lemma SignaturesAppend(a: seq<Entry>, b: seq<Entry>)
    ensures Signatures(a + b) == Signatures(a) + Signatures(b)
  {
  }

  /** A cursor that the engine knows, and only such a one, is among its signatures. */
  predicate Knows(e: seq<Entry>, known: set<Signature>, c: Option<Signature>) {
    c.Some? ==> (c.value in known <==> c.value in Signatures(e))
  }

  lemma SliceJoin(e: seq<Entry>, l: seq<Entry>, from: nat, to: nat)
    ensures to <= |e| ==> Slice(e + l, from, to) == Slice(e, from, to)
    ensures Slice(e + l, |e| + from, |e| + to) == Slice(l, from, to)
    ensures from <= |e| && to <= |l| ==> Slice(e + l, from, |e| + to) == Slice(e, from, |e|) + Slice(l, 0, to)
  {
  }

  lemma {:induction false} PositionAppend(a: seq<Entry>, b: seq<Entry>, c: Signature)
    ensures Position(a + b, c) == if c in Signatures(a) then Position(a, c) else |a| + Position(b, c)
  {
    if a == [] {
      assert a + b == b;
    } else {
      PositionAppend(a[1..], b, c);
      assert (a + b)[1..] == a[1..] + b;
      assert a == [a[0]] + a[1..];
      assert Signatures(a) == {a[0].signature} + Signatures(a[1..]);
    }
  }

  /** Where a cursor found in the joined history leads, by the source it is in. */
  lemma FromJoin(e: seq<Entry>, l: seq<Entry>, before: Option<Signature>)
    requires Found(e + l, before)
    ensures before == None || before.value in Signatures(e) ==> From(e + l, before) == From(e, before) <= |e|
    ensures before.Some? && before.value !in Signatures(e) ==> From(e + l, before) == |e| + From(l, before)
  {
    if before.Some? { PositionAppend(e, l, before.value); }
  }

  lemma ToJoin(e: seq<Entry>, l: seq<Entry>, until: Option<Signature>)
    requires Found(e + l, until)
    ensures until.Some? && until.value in Signatures(e) ==> To(e + l, until) == To(e, until) <= |e|
    ensures until == None || until.value !in Signatures(e) ==> To(e + l, until) == |e| + To(l, until)
    ensures To(l, until) <= |l|
  {
    if until.Some? { PositionAppend(e, l, until.value); }
  }

  lemma LegacyBefore(e: seq<Entry>, l: seq<Entry>, known: set<Signature>, before: Option<Signature>,
                     until: Option<Signature>)
    requires Found(e + l, before) && Found(e + l, until) && Knows(e, known, before) && Knows(e, known, until)
    requires before.Some? && before.value !in known
    ensures EnginePart(e, known, before, until) == []
    ensures LegacyPart(l, known, before, until) == Window(e + l, before, until)
  {
    FromJoin(e, l, before);
    ToJoin(e, l, until);
    SliceJoin(e, l, From(l, before), To(l, until));
  }

  lemma EngineUntil(e: seq<Entry>, l: seq<Entry>, known: set<Signature>, before: Option<Signature>,
                    until: Option<Signature>)
    requires Found(e + l, before) && Found(e + l, until) && Knows(e, known, before) && Knows(e, known, until)
    requires before == None || before.value in known
    requires until.Some? && until.value in known
    ensures LegacyPart(l, known, before, until) == []
    ensures EnginePart(e, known, before, until) == Window(e + l, before, until)
  {
    FromJoin(e, l, before);
    ToJoin(e, l, until);
    SliceJoin(e, l, From(e, before), To(e, until));
  }

  lemma OpenParts(e: seq<Entry>, l: seq<Entry>, known: set<Signature>, before: Option<Signature>,
                  until: Option<Signature>)
    requires before == None || before.value in known
    requires until == None || until.value !in known
    ensures EnginePart(e, known, before, until) == Slice(e, From(e, before), |e|)
    ensures LegacyPart(l, known, before, until) == Slice(l, 0, To(l, until))
  {
  }

  lemma AcrossBoth(e: seq<Entry>, l: seq<Entry>, known: set<Signature>, before: Option<Signature>,
                   until: Option<Signature>)
    requires Found(e + l, before) && Found(e + l, until) && Knows(e, known, before) && Knows(e, known, until)
    requires before == None || before.value in known
    requires until == None || until.value !in known
    ensures EnginePart(e, known, before, until) + LegacyPart(l, known, before, until) == Window(e + l, before, until)
  {
    FromJoin(e, l, before);
    ToJoin(e, l, until);
    SliceJoin(e, l, From(e, before), To(l, until));
    OpenParts(e, l, known, before, until);
    hide From;
    hide To;
    hide Slice;
    hide EnginePart;
    hide LegacyPart;
  }

  /** Splitting the cursors between the sources splits the window. */
  lemma WindowsJoin(engine: seq<Entry>, legacy: seq<Entry>, known: set<Signature>,
                    before: Option<Signature>, until: Option<Signature>)
    requires Signatures(engine) <= known && Signatures(legacy) !! known
    requires Found(engine + legacy, before) && Found(engine + legacy, until)
    ensures EnginePart(engine, known, before, until) + LegacyPart(legacy, known, before, until)
         == Window(engine + legacy, before, until)
  {
    SignaturesAppend(engine, legacy);
    assert Knows(engine, known, before) && Knows(engine, known, until);
    hide EnginePart;
    hide LegacyPart;
    hide Window;
    if before.Some? && before.value !in known {
      LegacyBefore(engine, legacy, known, before, until);
    } else if until.Some? && until.value in known {
      EngineUntil(engine, legacy, known, before, until);
    } else {
      AcrossBoth(engine, legacy, known, before, until);
    }
  }

  lemma JoinedIsSource(engine: seq<Entry>, legacy: seq<Entry>, known: set<Signature>)
    requires Partitioned(engine, legacy, known)
    ensures IsSource(engine + legacy)
  {
    var h := engine + legacy;
    forall i, j | 0 <= i < j < |h| ensures h[i].signature != h[j].signature && Leads(h[i], h[j]) {
      if i < |engine| <= j {
        assert h[i] in engine && h[j] in legacy;
        assert h[i].signature in Signatures(engine) && h[j].signature in Signatures(legacy);
      }
    }
  }

  lemma SourceIsNewest(s: seq<Entry>, limit: nat)
    requires IsSource(s)
    ensures Newest(s, limit) == Top(s, limit)
  {
    SortedIsFixed(s);
    DistinctIsFixed(s);
  }

  /** With the legacy history behind the engine's, the answer is the first `limit` entries of
      that window of the one concatenated history. */
  lemma CursorsPartition(engine: seq<Entry>, legacy: seq<Entry>, known: set<Signature>,
                         before: Option<Signature>, until: Option<Signature>, limit: nat)
    requires Partitioned(engine, legacy, known)
    requires Found(engine + legacy, before) && Found(engine + legacy, until)
    ensures Newest(EnginePart(engine, known, before, until) + LegacyPart(legacy, known, before, until), limit)
         == Top(Window(engine + legacy, before, until), limit)
  {
    WindowsJoin(engine, legacy, known, before, until);
    JoinedIsSource(engine, legacy, known);
    WindowIsSource(engine + legacy, before, until);
    SourceIsNewest(Window(engine + legacy, before, until), limit);
  }

  /** Both sources are asked for the limit at most, and yet the answer is that of the plain query
      over everything the cursors leave. */
  method QuerySignatures(engine: seq<Entry>, legacy: seq<Entry>, known: set<Signature>,
                         before: Option<Signature>, until: Option<Signature>, limit: nat) returns (r: seq<Entry>)
    requires IsSource(engine) && IsSource(legacy)
    ensures r == Newest(EnginePart(engine, known, before, until) + LegacyPart(legacy, known, before, until), limit)
    ensures Partitioned(engine, legacy, known) && Found(engine + legacy, before) && Found(engine + legacy, until) ==>
        r == Top(Window(engine + legacy, before, until), limit)
  {
    var beforeInEngine, untilInEngine := ContainsCursor(known, before), ContainsCursor(known, until);
    var fromEngine, fromLegacy := [], [];
    if before == None || beforeInEngine {
      fromEngine := Ask(engine, Keep(before, beforeInEngine), Keep(until, untilInEngine), limit);
    }
    if !untilInEngine {
      fromLegacy := Ask(legacy, FindIn(legacy, Keep(before, !beforeInEngine)),
                        FindIn(legacy, Keep(until, !untilInEngine)), limit);
    }
    var merged := StableSort(fromEngine + fromLegacy);
    merged := RetainUnseen(merged);
    r := Top(merged, limit);
    WindowIsSource(engine, Keep(before, beforeInEngine), Keep(until, untilInEngine));
    WindowIsSource(legacy, FindIn(legacy, Keep(before, !beforeInEngine)), FindIn(legacy, Keep(until, !untilInEngine)));
    LimitPushdown(EnginePart(engine, known, before, until), LegacyPart(legacy, known, before, until), limit);
    if Partitioned(engine, legacy, known) && Found(engine + legacy, before) && Found(engine + legacy, until) {
      CursorsPartition(engine, legacy, known, before, until, limit);
    }
  }

  // ----- paging

  /** Pages of the history `h`, each asked for before the last signature of the one before, up to
      the first empty one. */
  predicate IsPaging(h: seq<Entry>, before: Option<Signature>, until: Option<Signature>, limit: nat,
                     pages: seq<seq<Entry>>)
    decreases |pages|
  {
    && pages != [] && pages[0] == Top(Window(h, before, until), limit)
    && if |pages| == 1 then pages[0] == []
       else pages[0] != [] && IsPaging(h, Some(pages[0][|pages[0]| - 1].signature), until, limit, pages[1..])
  }

  function Flatten(pages: seq<seq<Entry>>): seq<Entry> {
    if pages == [] then [] else pages[0] + Flatten(pages[1..])
  }

  lemma {:induction false} PositionOf(s: seq<Entry>, i: nat)
    requires Distinct(s) && i < |s|
    ensures Position(s, s[i].signature) == i
  {
    if i > 0 {
      assert s[0].signature != s[i].signature;
      PositionOf(s[1..], i - 1);
    }
  }

  lemma NextWindow(h: seq<Entry>, before: Option<Signature>, until: Option<Signature>, k: nat)
    requires Distinct(h) && 0 < k <= |Window(h, before, until)|
    ensures Window(h, Some(Window(h, before, until)[k - 1].signature), until) == Window(h, before, until)[k..]
  {
    PositionOf(h, From(h, before) + k - 1);
    hide Distinct;
    hide Position;
  }

  /** Paging from the top enumerates every signature down to `until`, each exactly once. */
  lemma {:induction false} PagingEnumerates(h: seq<Entry>, before: Option<Signature>, until: Option<Signature>,
                                            limit: nat,
                                            pages: seq<seq<Entry>>)
    requires Distinct(h) && limit > 0 && IsPaging(h, before, until, limit, pages)
    ensures Flatten(pages) == Window(h, before, until)
    decreases |pages|
  {
    hide Window;
    hide Distinct;
    var w := Window(h, before, until);
    if |pages| == 1 {
      assert w == [];
    } else {
      var page := pages[0];
      NextWindow(h, before, until, |page|);
      PagingEnumerates(h, Some(page[|page| - 1].signature), until, limit, pages[1..]);
      assert w == page + w[|page|..];
    }
  }

  lemma PartitionedIsSource(engine: seq<Entry>, legacy: seq<Entry>, known: set<Signature>)
    requires Partitioned(engine, legacy, known)
    ensures IsSource(engine) && IsSource(legacy) && IsSource(engine + legacy)
  {
    JoinedIsSource(engine, legacy, known);
  }

  lemma WindowIsFound(h: seq<Entry>, before: Option<Signature>, until: Option<Signature>, i: nat)
    requires i < |Window(h, before, until)|
    ensures Found(h, Some(Window(h, before, until)[i].signature))
  {
    assert Window(h, before, until)[i] in h;
  }

  /** What a client obtains that asks again, before the last signature, until an answer is empty. */
  method PageThrough(engine: seq<Entry>, legacy: seq<Entry>, known: set<Signature>,
                     before: Option<Signature>, until: Option<Signature>, limit: nat) returns (pages: seq<seq<Entry>>)
    requires Partitioned(engine, legacy, known) && limit > 0
    requires Found(engine + legacy, before) && Found(engine + legacy, until)
    ensures IsPaging(engine + legacy, before, until, limit, pages)
    ensures Flatten(pages) == Window(engine + legacy, before, until)
    decreases |Window(engine + legacy, before, until)|
  {
    hide Window;
    hide Partitioned;
    ghost var h := engine + legacy;
    PartitionedIsSource(engine, legacy, known);
    var page := QuerySignatures(engine, legacy, known, before, until, limit);
    if page == [] {
      pages := [page];
    } else {
      NextWindow(h, before, until, |page|);
      WindowIsFound(h, before, until, |page| - 1);
      var rest := PageThrough(engine, legacy, known, Some(page[|page| - 1].signature), until, limit);
      pages := [page] + rest;
      assert pages[1..] == rest;
    }
    PagingEnumerates(h, before, until, limit, pages);
  }
}
