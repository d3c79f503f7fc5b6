/** Matching sent against received packets: sort by sequence number and arrival
    time, then one two-pointer pass. The specification is a grouping by sequence
    number that mentions neither the order of the input nor the pass. */
module ResultMerge {
  import opened Basics
  import opened Wire

  /** One sent packet and all its receive copies. */
  datatype MsgResult = MsgResult(
    seqNo: nat, tsSent: int, tsRcvd: int, owd: int, len: nat, lost: bool, tsRcvdDups: seq<int>)

  // ----- Grouping specification -----

  /** Arrival times of the copies of packet k, in input order. */
  function Copies(rcvd: seq<MsgRcvd>, k: nat): seq<int> {
    if |rcvd| == 0 then []
    else (if rcvd[0].seqNo == k then [rcvd[0].tsRcvd] else []) + Copies(rcvd[1..], k)
  }

  ghost predicate Chronological(ts: seq<int>) {
    forall i, j :: 0 <= i < j < |ts| ==> ts[i] <= ts[j]
  }

  function Arrivals(r: MsgResult): seq<int> {
    if r.lost then [] else [r.tsRcvd] + r.tsRcvdDups
  }

  /** r is the row of the packet m, the k-th one sent, whose copies arrived at
      `times`: lost exactly if there are none, otherwise first arrival and
      duplicates together are the arrivals in chronological order. */
  ghost predicate IsRow(r: MsgResult, m: MsgSent, times: multiset<int>, k: nat) {
    && r.seqNo == k && r.tsSent == m.tsSent && r.len == m.len
    && (r.lost <==> times == multiset{})
    && multiset(Arrivals(r)) == times && Chronological(Arrivals(r))
    && (if r.lost then r.tsRcvd == ZERO_TIME && r.owd == 0 && r.tsRcvdDups == [] else r.owd == r.tsRcvd - r.tsSent)
  }

  ghost predicate Grouped(results: seq<MsgResult>, sent: seq<MsgSent>, rcvd: seq<MsgRcvd>) {
    && |results| == |sent|
    && forall k :: 0 <= k < |sent| ==> IsRow(results[k], sent[k], multiset(Copies(rcvd, k)), k)
  }

  // ----- Multisets of sequences -----

  lemma {:induction false} HeadTail<T>(s: seq<T>)
    requires |s| > 0
    ensures multiset(s) == multiset{s[0]} + multiset(s[1..])
  {
    assert s == [s[0]] + s[1..];
  }

  lemma {:induction false} Without<T>(s: seq<T>, j: nat)
    requires j < |s|
    ensures multiset(s) == multiset{s[j]} + multiset(s[..j] + s[j + 1..])
  {
    assert s == s[..j] + [s[j]] + s[j + 1..];
  }

  lemma {:induction false} EmptyMultiset<T>(s: seq<T>)
    requires multiset(s) == multiset{}
    ensures s == []
  {
    assert |multiset(s)| == |s|;
  }

  // ----- The grouping is unique and independent of input order -----

  lemma {:induction false} EarliestFirst(a: seq<int>, b: seq<int>)
    requires Chronological(a) && multiset(a) == multiset(b) && |b| > 0
    ensures |a| > 0 && a[0] <= b[0]
  {
    assert b[0] in multiset(a);
    var j :| 0 <= j < |a| && a[j] == b[0];
  }

  lemma {:induction false} ChronologicalUnique(a: seq<int>, b: seq<int>)
    requires Chronological(a) && Chronological(b) && multiset(a) == multiset(b)
    ensures a == b
  {
    if |a| == 0 {
      EmptyMultiset(b);
    } else {
      EarliestFirst(b, a);
      EarliestFirst(a, b);
      TailsAgree(a, b);
      ChronologicalUnique(a[1..], b[1..]);
    }
  }

  lemma {:induction false} TailsAgree(a: seq<int>, b: seq<int>)
    requires |a| > 0 && |b| > 0 && a[0] == b[0] && multiset(a) == multiset(b)
    ensures multiset(a[1..]) == multiset(b[1..])
  {
    HeadTail(a);
    HeadTail(b);
    assert multiset(a[1..]) == multiset(a) - multiset{a[0]};
    assert multiset(b[1..]) == multiset(b) - multiset{b[0]};
  }

  lemma {:induction false} RowUnique(r: MsgResult, r': MsgResult, m: MsgSent, times: multiset<int>, k: nat)
    requires IsRow(r, m, times, k) && IsRow(r', m, times, k)
    ensures r == r'
  {
    ChronologicalUnique(Arrivals(r), Arrivals(r'));
    if !r.lost {
      assert r.tsRcvd == Arrivals(r)[0] && r.tsRcvdDups == Arrivals(r)[1..];
      assert r'.tsRcvd == Arrivals(r')[0] && r'.tsRcvdDups == Arrivals(r')[1..];
    }
  }

  lemma {:induction false} CopiesConcat(a: seq<MsgRcvd>, b: seq<MsgRcvd>, k: nat)
    ensures Copies(a + b, k) == Copies(a, k) + Copies(b, k)
  {
    if |a| == 0 {
      assert a + b == b;
    } else {
      var first := if a[0].seqNo == k then [a[0].tsRcvd] else [];
      assert (a + b)[0] == a[0] && (a + b)[1..] == a[1..] + b;
      CopiesConcat(a[1..], b, k);
      assert first + (Copies(a[1..], k) + Copies(b, k)) == first + Copies(a[1..], k) + Copies(b, k);
    }
  }

  function Own(x: MsgRcvd, k: nat): multiset<int> {
    if x.seqNo == k then multiset{x.tsRcvd} else multiset{}
  }

  lemma {:induction false} CopiesHead(a: seq<MsgRcvd>, k: nat)
    requires |a| > 0
    ensures multiset(Copies(a, k)) == Own(a[0], k) + multiset(Copies(a[1..], k))
  {}

  lemma {:induction false} CopiesWithout(b: seq<MsgRcvd>, j: nat, k: nat)
    requires j < |b|
    ensures multiset(Copies(b, k)) == Own(b[j], k) + multiset(Copies(b[..j] + b[j + 1..], k))
  {
    assert b == b[..j] + b[j..];
    CopiesConcat(b[..j], b[j..], k);
    CopiesHead(b[j..], k);
    assert b[j..][1..] == b[j + 1..];
    CopiesConcat(b[..j], b[j + 1..], k);
  }

  lemma {:induction false} CopiesPermuted(a: seq<MsgRcvd>, b: seq<MsgRcvd>, k: nat)
    requires multiset(a) == multiset(b)
    ensures multiset(Copies(a, k)) == multiset(Copies(b, k))
  {
    if |a| == 0 {
      EmptyMultiset(b);
    } else {
      assert a[0] in multiset(b);
      var j :| 0 <= j < |b| && b[j] == a[0];
      HeadTail(a);
      Without(b, j);
      assert multiset(a[1..]) == multiset(a) - multiset{a[0]};
      assert multiset(b[..j] + b[j + 1..]) == multiset(b) - multiset{b[j]};
      CopiesPermuted(a[1..], b[..j] + b[j + 1..], k);
      CopiesHead(a, k);
      CopiesWithout(b, j, k);
    }
  }

  /** The rows do not depend on the order in which packets were received. */
  lemma {:induction false} OrderIndependent(results: seq<MsgResult>, results': seq<MsgResult>, sent: seq<MsgSent>,
                                            rcvd: seq<MsgRcvd>, rcvd': seq<MsgRcvd>)
    requires Grouped(results, sent, rcvd) && Grouped(results', sent, rcvd')
    requires multiset(rcvd) == multiset(rcvd')
    ensures results == results'
  {
    forall k | 0 <= k < |sent| ensures results[k] == results'[k] {
      CopiesPermuted(rcvd, rcvd', k);
      RowUnique(results[k], results'[k], sent[k], multiset(Copies(rcvd, k)), k);
    }
  }

  // ----- Conservation -----

  function Delivered(results: seq<MsgResult>): nat {
    if |results| == 0 then 0
    else Delivered(results[..|results| - 1]) +
         (if results[|results| - 1].lost then 0 else 1 + |results[|results| - 1].tsRcvdDups|)
  }

  function CountBelow(rcvd: seq<MsgRcvd>, n: nat): nat {
    if |rcvd| == 0 then 0 else (if rcvd[0].seqNo < n then 1 else 0) + CountBelow(rcvd[1..], n)
  }

  lemma {:induction false} CountStep(rcvd: seq<MsgRcvd>, n: nat)
    ensures CountBelow(rcvd, n + 1) == CountBelow(rcvd, n) + |Copies(rcvd, n)|
  {
    if |rcvd| > 0 {
      CountStep(rcvd[1..], n);
    }
  }

  lemma {:induction false} CountNone(rcvd: seq<MsgRcvd>)
    ensures CountBelow(rcvd, 0) == 0
  {
    if |rcvd| > 0 {
      CountNone(rcvd[1..]);
    }
  }

  /** Every arrival of a sent packet is accounted for by exactly one row: as its
      first arrival or as one of its duplicates. */
  lemma {:induction false} Conservation(results: seq<MsgResult>, sent: seq<MsgSent>, rcvd: seq<MsgRcvd>)
    requires Grouped(results, sent, rcvd)
    ensures Delivered(results) == CountBelow(rcvd, |sent|)
  {
    DeliveredPrefix(results, sent, rcvd, |sent|);
    assert results[..|sent|] == results;
  }

  lemma {:induction false} DeliveredPrefix(results: seq<MsgResult>, sent: seq<MsgSent>, rcvd: seq<MsgRcvd>, n: nat)
    requires Grouped(results, sent, rcvd) && n <= |sent|
    ensures Delivered(results[..n]) == CountBelow(rcvd, n)
  {
    if n == 0 {
      CountNone(rcvd);
    } else {
      DeliveredPrefix(results, sent, rcvd, n - 1);
      CountStep(rcvd, n - 1);
      DeliveredStep(results, n);
      RowOfGroup(results, sent, rcvd, n - 1);
    }
  }

  lemma {:induction false} RowOfGroup(results: seq<MsgResult>, sent: seq<MsgSent>, rcvd: seq<MsgRcvd>, k: nat)
    requires Grouped(results, sent, rcvd) && k < |sent|
    ensures |Copies(rcvd, k)| == if results[k].lost then 0 else 1 + |results[k].tsRcvdDups|
  {
    RowAccountsForCopies(results[k], sent[k], Copies(rcvd, k), k);
  }

  lemma {:induction false} DeliveredStep(results: seq<MsgResult>, n: nat)
    requires 0 < n <= |results|
    ensures Delivered(results[..n]) ==
              Delivered(results[..n - 1]) + (if results[n - 1].lost then 0 else 1 + |results[n - 1].tsRcvdDups|)
  {
    assert results[..n][..n - 1] == results[..n - 1];
  }

  lemma {:induction false} RowAccountsForCopies(r: MsgResult, m: MsgSent, copies: seq<int>, k: nat)
    requires IsRow(r, m, multiset(copies), k)
    ensures |copies| == if r.lost then 0 else 1 + |r.tsRcvdDups|
  {
    assert |multiset(Arrivals(r))| == |Arrivals(r)| && |multiset(copies)| == |copies|;
  }

  // ----- The sort -----

  predicate AtMost(a: MsgRcvd, b: MsgRcvd) {
    a.seqNo < b.seqNo || (a.seqNo == b.seqNo && a.tsRcvd <= b.tsRcvd)
  }

  ghost predicate Sorted(s: seq<MsgRcvd>) {
    forall i, j :: 0 <= i < j < |s| ==> AtMost(s[i], s[j])
  }

  /** Stands for the library sort: the array becomes some sorted permutation. */
  method SortArrivals(rcvd: array<MsgRcvd>)
    modifies rcvd
    ensures multiset(rcvd[..]) == multiset(old(rcvd[..])) && Sorted(rcvd[..])
  {
    var sorted := SortedCopy(rcvd[..]);
    assert |multiset(sorted)| == |multiset(rcvd[..])|;
    for i := 0 to rcvd.Length
      invariant rcvd[..i] == sorted[..i]
    {
      rcvd[i] := sorted[i];
    }
    assert rcvd[..] == sorted;
  }

  method SortedCopy(s: seq<MsgRcvd>) returns (sorted: seq<MsgRcvd>)
    ensures Sorted(sorted) && multiset(sorted) == multiset(s)
  {
    sorted := [];
    for i := 0 to |s|
      invariant Sorted(sorted) && multiset(sorted) == multiset(s[..i])
    {
      sorted := Inserted(sorted, s[i]);
      assert s[..i + 1] == s[..i] + [s[i]];
    }
    assert s[..|s|] == s;
  }

  method Inserted(s: seq<MsgRcvd>, x: MsgRcvd) returns (t: seq<MsgRcvd>)
    requires Sorted(s)
    ensures Sorted(t) && multiset(t) == multiset(s) + multiset{x}
  {
    var i := 0;
    while i < |s| && AtMost(s[i], x)
      invariant 0 <= i <= |s|
      invariant forall j :: 0 <= j < i ==> AtMost(s[j], x)
    {
      i := i + 1;
    }
    t := s[..i] + [x] + s[i..];
    assert s == s[..i] + s[i..];
    forall j | i <= j < |s| ensures AtMost(x, s[j]) {
      assert i == j || AtMost(s[i], s[j]);
    }
    InsertedIsSorted(s, i, x);
  }

  lemma {:induction false} InsertedIsSorted(s: seq<MsgRcvd>, i: nat, x: MsgRcvd)
    requires Sorted(s) && i <= |s|
    requires (forall j :: 0 <= j < i ==> AtMost(s[j], x)) && (forall j :: i <= j < |s| ==> AtMost(x, s[j]))
    ensures Sorted(s[..i] + [x] + s[i..])
  {
    var t := s[..i] + [x] + s[i..];
    forall p, q | 0 <= p < q < |t| ensures AtMost(t[p], t[q]) {
      var p' := if p <= i then p else p - 1;
      var q' := if q <= i then q else q - 1;
      assert p != i ==> t[p] == s[p'];
      assert q != i ==> t[q] == s[q'];
    }
  }

  // ----- The two-pointer pass -----

  function Times(s: seq<MsgRcvd>): (t: seq<int>)
    ensures |t| == |s|
  {
    seq(|s|, i requires 0 <= i < |s| => s[i].tsRcvd)
  }

  lemma {:induction false} CopiesOfOthers(s: seq<MsgRcvd>, k: nat)
    requires forall i :: 0 <= i < |s| ==> s[i].seqNo != k
    ensures Copies(s, k) == []
  {
    if |s| > 0 {
      CopiesOfOthers(s[1..], k);
    }
  }

  lemma {:induction false} CopiesOfBlock(s: seq<MsgRcvd>, k: nat)
    requires forall i :: 0 <= i < |s| ==> s[i].seqNo == k
    ensures Copies(s, k) == Times(s)
  {
    if |s| > 0 {
      CopiesOfBlock(s[1..], k);
      assert Times(s) == [s[0].tsRcvd] + Times(s[1..]);
    }
  }

  /** The pass has consumed everything below k and nothing else. */
  ghost predicate Split(s: seq<MsgRcvd>, at: nat, k: nat) {
    && at <= |s|
    && (forall i :: 0 <= i < at ==> s[i].seqNo < k)
    && (forall i :: at <= i < |s| ==> s[i].seqNo >= k)
  }

  /** Between two splits lie exactly the copies of k, in chronological order. */
  lemma {:induction false} CopiesBetweenSplits(s: seq<MsgRcvd>, lo: nat, hi: nat, k: nat)
    requires Sorted(s) && Split(s, lo, k) && Split(s, hi, k + 1) && lo <= hi
    ensures Copies(s, k) == Times(s[lo..hi]) && Chronological(Times(s[lo..hi]))
  {
    assert s == s[..lo] + s[lo..hi] + s[hi..];
    CopiesConcat(s[..lo] + s[lo..hi], s[hi..], k);
    CopiesConcat(s[..lo], s[lo..hi], k);
    CopiesOfOthers(s[..lo], k);
    CopiesOfOthers(s[hi..], k);
    CopiesOfBlock(s[lo..hi], k);
    var t := Times(s[lo..hi]);
    forall i, j | 0 <= i < j < |t| ensures t[i] <= t[j] {
      assert AtMost(s[lo + i], s[lo + j]);
    }
  }

  lemma {:induction false} LostRow(s: seq<MsgRcvd>, m: MsgSent, k: nat, at: nat)
    requires Sorted(s) && Split(s, at, k) && Split(s, at, k + 1)
    ensures IsRow(MsgResult(k, m.tsSent, ZERO_TIME, 0, m.len, true, []), m, multiset(Copies(s, k)), k)
  {
    CopiesBetweenSplits(s, at, at, k);
    assert s[at..at] == [];
  }

  lemma {:induction false} ReceivedRow(s: seq<MsgRcvd>, m: MsgSent, k: nat, at: nat, next: nat)
    requires Sorted(s) && Split(s, at, k) && Split(s, next, k + 1) && at < next
    ensures IsRow(MsgResult(k, m.tsSent, s[at].tsRcvd, s[at].tsRcvd - m.tsSent, m.len, false, Times(s[at + 1..next])),
                  m, multiset(Copies(s, k)), k)
  {
    CopiesBetweenSplits(s, at, next, k);
    var t := Times(s[at..next]);
    assert t == [s[at].tsRcvd] + Times(s[at + 1..next]);
    assert t[0] in multiset(t);
  }

  /** The row of packet k, given the sorted arrivals and the current split. */
  method TakeRow(s: seq<MsgRcvd>, m: MsgSent, k: nat, at: nat) returns (r: MsgResult, next: nat)
    requires Sorted(s) && Split(s, at, k)
    ensures Split(s, next, k + 1)
    ensures IsRow(r, m, multiset(Copies(s, k)), k)
  {
    next := at;
    r := MsgResult(0, ZERO_TIME, ZERO_TIME, 0, 0, false, []);
    if next >= |s| || k < s[next].seqNo {
      SplitForward(s, next, k);
      LostRow(s, m, k, at);
      r := MsgResult(k, m.tsSent, ZERO_TIME, 0, m.len, true, []);
    } else if k == s[next].seqNo {
      var dups;
      dups, next := TakeDups(s, k, at);
      r := MsgResult(k, m.tsSent, s[at].tsRcvd, s[at].tsRcvd - m.tsSent, m.len, false, dups);
      ReceivedRow(s, m, k, at, next);
    } else {
      // The next unconsumed arrival is never below k.
      assert false;
    }
  }

  /** Further copies of k behind its first arrival. */
  method TakeDups(s: seq<MsgRcvd>, k: nat, at: nat) returns (dups: seq<int>, next: nat)
    requires Sorted(s) && Split(s, at, k) && at < |s| && s[at].seqNo == k
    ensures at < next && Split(s, next, k + 1) && dups == Times(s[at + 1..next])
  {
    next, dups := at + 1, [];
    while next < |s| && s[next].seqNo == k
      invariant at < next <= |s|
      invariant forall i :: at <= i < next ==> s[i].seqNo == k
      invariant dups == Times(s[at + 1..next])
    {
      assert Times(s[at + 1..next + 1]) == Times(s[at + 1..next]) + [s[next].tsRcvd];
      dups := dups + [s[next].tsRcvd];
      next := next + 1;
    }
    SplitForward(s, next, k);
  }

  lemma {:induction false} SplitForward(s: seq<MsgRcvd>, next: nat, k: nat)
    requires Sorted(s) && next <= |s|
    requires forall i :: 0 <= i < next ==> s[i].seqNo <= k
    requires next < |s| ==> s[next].seqNo > k
    ensures Split(s, next, k + 1)
  {
    forall i | next < i < |s| ensures s[i].seqNo >= k + 1 {
      assert AtMost(s[next], s[i]);
    }
  }

  /** The two-pointer pass over sorted arrivals. */
  method MergeSorted(sent: seq<MsgSent>, s: seq<MsgRcvd>) returns (results: seq<MsgResult>)
    requires Sorted(s)
    ensures Grouped(results, sent, s)
  {
    var resultIdx := 0;
    results := [];
    for k := 0 to |sent|
      invariant Split(s, resultIdx, k) && Grouped(results, sent[..k], s)
    {
      var r;
      r, resultIdx := TakeRow(s, sent[k], k, resultIdx);
      AddRow(results, sent, s, k, r);
      results := results + [r];
    }
    assert sent[..|sent|] == sent;
  }

  lemma {:induction false} AddRow(results: seq<MsgResult>, sent: seq<MsgSent>, s: seq<MsgRcvd>, k: nat, r: MsgResult)
    requires k < |sent| && Grouped(results, sent[..k], s) && IsRow(r, sent[k], multiset(Copies(s, k)), k)
    ensures Grouped(results + [r], sent[..k + 1], s)
  {
    forall i | 0 <= i < k ensures IsRow((results + [r])[i], sent[..k + 1][i], multiset(Copies(s, i)), i) {
      assert IsRow(results[i], sent[..k][i], multiset(Copies(s, i)), i);
    }
  }

  lemma {:induction false} GroupedPermuted(results: seq<MsgResult>, sent: seq<MsgSent>, a: seq<MsgRcvd>,
                                           b: seq<MsgRcvd>)
    requires Grouped(results, sent, a) && multiset(a) == multiset(b)
    ensures Grouped(results, sent, b)
  {
    forall k | 0 <= k < |sent| ensures multiset(Copies(a, k)) == multiset(Copies(b, k)) {
      CopiesPermuted(a, b, k);
    }
  }

  /** processUDP refines the grouping specification. */
  method ProcessUDP(sent: seq<MsgSent>, rcvd: array<MsgRcvd>) returns (results: seq<MsgResult>)
    modifies rcvd
    ensures multiset(rcvd[..]) == multiset(old(rcvd[..]))
    ensures Grouped(results, sent, old(rcvd[..]))
  {
    SortArrivals(rcvd);
    results := MergeSorted(sent, rcvd[..]);
    GroupedPermuted(results, sent, rcvd[..], old(rcvd[..]));
  }
}
