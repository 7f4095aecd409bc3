/** Unordered fragments: chunks of many messages in one list sorted by TSN, from which
    whole messages are cut out as they become complete. */
module Unordered {
  import opened Serial
  import opened Fragments
  import opened ChunkSets
  import opened Sets

  /** Chunk k goes on from the one before it. */
  predicate GoesOn(cs: seq<Fragment>, k: nat)
    requires 1 <= k < |cs|
  {
    !cs[k].first && Follows(cs, k, false)
  }

  /** cs[i..e] is a beginning of a message: the flag on its first chunk and no other, no
      end yet, TSNs one by one. */
  ghost predicate Opened(cs: seq<Fragment>, i: nat, e: nat) {
    && i < e <= |cs| && cs[i].first
    && (forall k :: i <= k < e ==> !cs[k].last)
    && (forall k :: i < k < e ==> GoesOn(cs, k))
  }

  /** cs[i..e] is a whole message. */
  ghost predicate Segment(cs: seq<Fragment>, i: nat, e: nat) {
    && i < e <= |cs| && cs[i].first && cs[e - 1].last
    && (forall k :: i <= k < e - 1 ==> !cs[k].last)
    && (forall k :: i < k < e ==> GoesOn(cs, k))
  }

  /** Whether chunk i takes an open message on. */
  ghost predicate Extends(cs: seq<Fragment>, a: nat, i: nat)
    requires i < |cs|
  {
    if cs[i].first then a == i else Opened(cs, a, i) && GoesOn(cs, i)
  }

  lemma {:induction false} SegmentStep(cs: seq<Fragment>, a: nat, i: nat)
    requires i < |cs|
    ensures Segment(cs, a, i + 1) <==> cs[i].last && Extends(cs, a, i)
    ensures Opened(cs, a, i + 1) <==> !cs[i].last && Extends(cs, a, i)
  {
    if 0 < i && !GoesOn(cs, i) {}
  }

  ghost predicate NoSegment(cs: seq<Fragment>, e: nat) { forall a: nat :: !Segment(cs, a, e) }
  ghost predicate NoOpened(cs: seq<Fragment>, e: nat) { forall a: nat :: !Opened(cs, a, e) }

  /** Where the scan stands after chunk i, given where it stood before. */
  lemma {:induction false} ScanStep(cs: seq<Fragment>, i: nat, start: int, e: nat)
    requires i < |cs| && e == i + 1
    requires (start >= 0 ==> Opened(cs, start, i)) && (start < 0 ==> NoOpened(cs, i))
    ensures cs[i].first && cs[i].last ==> Segment(cs, i, e)
    ensures cs[i].first && !cs[i].last ==> Opened(cs, i, e) && NoSegment(cs, e)
    ensures !cs[i].first && start < 0 ==> NoOpened(cs, e) && NoSegment(cs, e)
    ensures !cs[i].first && start >= 0 && Follows(cs, i, false) ==>
              if cs[i].last then Segment(cs, start, e) else Opened(cs, start, e) && NoSegment(cs, e)
    ensures !cs[i].first && start >= 0 && !Follows(cs, i, false) ==> NoOpened(cs, e) && NoSegment(cs, e)
  {
    forall a: nat
      ensures Segment(cs, a, e) <==> cs[i].last && Extends(cs, a, i)
      ensures Opened(cs, a, e) <==> !cs[i].last && Extends(cs, a, i)
    {
      SegmentStep(cs, a, i);
    }
    assert Extends(cs, if cs[i].first || start < 0 then i else start, i) <==>
           cs[i].first || (start >= 0 && Follows(cs, i, false));
  }

  /** findCompleteUnorderedChunkSet: a whole message among the chunks, if there is one. */
  method FindComplete(cs: seq<Fragment>) returns (found: bool, start: nat, n: nat)
    ensures found ==> Segment(cs, start, start + n)
    ensures !found ==> forall i: nat, e: nat :: !Segment(cs, i, e)
  {
    hide Opened, Segment, Follows;
    var startIdx := -1;
    n := 0;
    var lastTSN: uint32 := 0;
    NothingOpened(cs);
    for i := 0 to |cs|
      invariant forall e: nat :: e <= i ==> NoSegment(cs, e)
      invariant startIdx >= 0 ==> startIdx + n == i && Opened(cs, startIdx, i) && i > 0 && lastTSN == cs[i - 1].tsn
      invariant startIdx < 0 ==> NoOpened(cs, i)
    {
      ScanStep(cs, i, startIdx, i + 1);
      if cs[i].first {
        startIdx, n, lastTSN := i, 1, cs[i].tsn;
        if cs[i].last { return true, i, 1; }
        continue;
      }
      if startIdx < 0 { continue; }
      FollowsIs(cs, i);
      if cs[i].tsn != Add(lastTSN, 1) {
        startIdx := -1;
        continue;
      }
      lastTSN := cs[i].tsn;
      n := n + 1;
      if cs[i].last { return true, startIdx, n; }
    }
    forall i: nat, e: nat ensures !Segment(cs, i, e) {
      SegmentInside(cs, i, e);
      assert e <= |cs| ==> NoSegment(cs, e);
    }
    return false, 0, 0;
  }

  lemma {:induction false} SegmentInside(cs: seq<Fragment>, i: nat, e: nat)
    ensures Segment(cs, i, e) ==> i < e <= |cs|
  {
  }

  lemma {:induction false} FollowsIs(cs: seq<Fragment>, i: nat)
    requires 1 <= i < |cs|
    ensures Follows(cs, i, false) <==> cs[i].tsn == Add(cs[i - 1].tsn, 1)
  {
  }

  lemma {:induction false} NothingOpened(cs: seq<Fragment>)
    ensures NoOpened(cs, 0) && NoSegment(cs, 0)
  {
  }

  // ---------------------------------------------------- against what was sent

  /** The unordered chunks a peer sends on a stream, in the order of their TSNs, and these
      TSNs as unbounded numbers. */
  ghost predicate Numbered(line: seq<Fragment>, nums: seq<int>) {
    && |nums| == |line| && Ascending(nums)
    && forall x :: 0 <= x < |line| ==> line[x].tsn == Wire(nums[x])
  }

  /** The chunks at these places are less than half the TSN space apart. */
  ghost predicate Together(nums: seq<int>, d: set<nat>) {
    forall x, y :: x in d && y in d && x < |nums| && y < |nums| ==> Near(nums[x], nums[y])
  }

  lemma {:induction false} NumberedComes(line: seq<Fragment>, nums: seq<int>, d: set<nat>, i: nat)
    requires Numbered(line, nums) && Together(nums, d + {i}) && i < |line|
    ensures Comes(line, d, i, false)
  {
    hide Wire;
    forall j | j in d && j < |line| ensures Lt32(Key(line[i], false), Key(line[j], false)) <==> i < j {
      WireOrder(nums[i], nums[j]);
    }
  }

  lemma {:induction false} TogetherPart(nums: seq<int>, d: set<nat>, e: set<nat>)
    requires Together(nums, d) && e <= d
    ensures Together(nums, e)
  {
  }

  ghost function Range(a: nat, e: nat): (r: set<nat>)
    ensures forall x: nat :: x in r <==> a <= x < e
  {
    if e <= a then {} else Range(a, e - 1) + {e - 1}
  }

  /** No message that was sent is there in full. */
  ghost predicate NoWhole(line: seq<Fragment>, d: set<nat>) {
    forall a: nat, e: nat :: Segment(line, a, e) ==> !(Range(a, e) <= d)
  }

  /** A place of d is where it belongs: behind the places of d below it. */
  lemma {:induction false} PlaceOf(d: set<nat>, x: nat, k: nat)
    requires x in d && x < k
    ensures |Places(d, x)| < |Places(d, k)| && Places(d, k)[|Places(d, x)|] == x
    ensures |Places(d, x + 1)| == |Places(d, x)| + 1
    decreases k
  {
    if x < k - 1 { PlaceOf(d, x, k - 1); }
  }

  lemma {:induction false} PlacesOfRange(d: set<nat>, a: nat, j: nat, k: nat)
    requires Range(a, a + j + 1) <= d && a + j < k
    ensures |Places(d, a + j)| == |Places(d, a)| + j
    ensures |Places(d, a)| + j < |Places(d, k)| && Places(d, k)[|Places(d, a)| + j] == a + j
    decreases j
  {
    if j > 0 {
      PlacesOfRange(d, a, j - 1, k);
      PlaceOf(d, a + (j - 1), k);
    }
    PlaceOf(d, a + j, k);
  }

  /** Neighbours in TSN are neighbours on the line. */
  lemma {:induction false} NextPlace(line: seq<Fragment>, nums: seq<int>, x: nat, y: nat)
    requires Numbered(line, nums) && x < y < |line| && Near(nums[x], nums[y]) && line[y].tsn == Add(line[x].tsn, 1)
    ensures y == x + 1
  {
    hide Wire;
    assert nums[x] < nums[x + 1] && (x + 1 < y ==> nums[x + 1] < nums[y]);
    WireAdd(nums[x], 1);
    WireInjective(nums[y], nums[x] + 1);
  }

  /** A message is a message wherever the same chunks stand. */
  lemma {:induction false} SegmentSlice(cs: seq<Fragment>, s: nat, n: nat)
    requires 0 < n && s + n <= |cs|
    ensures Segment(cs, s, s + n) <==> Segment(cs[s..s + n], 0, n)
  {
    var c := cs[s..s + n];
    if Segment(c, 0, n) { SegmentUp(cs, s, n); }
    if Segment(cs, s, s + n) {
      forall k | 0 < k < n ensures GoesOn(c, k) { assert GoesOn(cs, s + k); }
      forall k | 0 <= k < n - 1 ensures !c[k].last { assert !cs[s + k].last; }
    }
  }

  lemma {:induction false} SegmentUp(cs: seq<Fragment>, s: nat, n: nat)
    requires 0 < n && s + n <= |cs| && Segment(cs[s..s + n], 0, n)
    ensures Segment(cs, s, s + n)
  {
    var c := cs[s..s + n];
    forall k | s < k < s + n ensures GoesOn(cs, k) { assert GoesOn(c, k - s); }
    forall k | s <= k < s + n - 1 ensures !cs[k].last { assert !c[k - s].last; }
  }

  /** A message found among the chunks that arrived is a message that was sent. */
  lemma {:induction false} FoundIsSent(line: seq<Fragment>, nums: seq<int>, d: set<nat>, s: nat, n: nat)
    requires Numbered(line, nums) && Together(nums, d) && Segment(Pick(line, d), s, s + n)
    ensures s < |Places(d, |line|)| && s + n <= |Pick(line, d)|
    ensures var a := Places(d, |line|)[s];
            && Segment(line, a, a + n) && a + n <= |line| && Range(a, a + n) <= d
            && s == |Places(d, a)| && Pick(line, d)[s..s + n] == line[a..a + n]
  {
    hide Numbered, Together, Segment, Places, Pick, Run;
    var a := FoundStretch(line, nums, d, s, n);
    PickStretch(line, d, s, a, n);
    SegmentSlice(Pick(line, d), s, n);
    SegmentSlice(line, a, n);
    RunInside(Places(d, |line|), d, s, a, n);
    PlaceOf(d, a, |line|);
    PlaceUnique(d, |line|, s, |Places(d, a)|);
  }

  /** The places of a message found follow one another. */
  lemma {:induction false} FoundStretch(line: seq<Fragment>, nums: seq<int>, d: set<nat>, s: nat, n: nat) returns (a: nat)
    requires Numbered(line, nums) && Together(nums, d) && Segment(Pick(line, d), s, s + n)
    ensures 0 < n && s + n <= |Places(d, |line|)| == |Pick(line, d)| && a == Places(d, |line|)[s]
    ensures a in d && a + n <= |line| && Run(Places(d, |line|), s, a, n)
  {
    var p := Places(d, |line|);
    a := p[s];
    hide Numbered, Together, Follows, GoesOn, Places;
    FoundRun(line, nums, d, s, n);
    assert p[s + n - 1] == a + (n - 1);
  }

  /** Consecutive places are a stretch of the line. */
  ghost predicate Run(p: seq<nat>, s: nat, a: nat, n: nat) {
    s + n <= |p| && forall k :: s <= k < s + n ==> p[k] == a + (k - s)
  }

  lemma {:induction false} PickStretch(line: seq<Fragment>, d: set<nat>, s: nat, a: nat, n: nat)
    requires Run(Places(d, |line|), s, a, n) && a + n <= |line|
    ensures Pick(line, d)[s..s + n] == line[a..a + n]
  {
    var x, y := Pick(line, d)[s..s + n], line[a..a + n];
    forall k | 0 <= k < n ensures x[k] == y[k] { assert Pick(line, d)[s + k] == line[Places(d, |line|)[s + k]]; }
  }

  lemma {:induction false} RunInside(p: seq<nat>, d: set<nat>, s: nat, a: nat, n: nat)
    requires Run(p, s, a, n) && forall j :: 0 <= j < |p| ==> p[j] in d
    ensures Range(a, a + n) <= d
  {
    forall x | x in Range(a, a + n) ensures x in d { assert p[s + (x - a)] in d; }
  }

  lemma {:induction false} RangeRun(d: set<nat>, a: nat, n: nat, k: nat)
    requires Range(a, a + n) <= d && a + n <= k
    ensures Run(Places(d, k), |Places(d, a)|, a, n)
    decreases n
  {
    if n > 0 {
      RangeRun(d, a, n - 1, k);
      PlacesOfRange(d, a, n - 1, k);
    } else if a < k {
      PlacesGrow(d, a, k);
    }
  }

  lemma {:induction false} PlacesGrow(d: set<nat>, a: nat, k: nat)
    requires a <= k
    ensures |Places(d, a)| <= |Places(d, k)|
    decreases k
  {
    if a < k { PlacesGrow(d, a, k - 1); }
  }

  lemma {:induction false} PlaceUnique(d: set<nat>, k: nat, i: nat, j: nat)
    requires i < |Places(d, k)| && j < |Places(d, k)| && Places(d, k)[i] == Places(d, k)[j]
    ensures i == j
  {
  }

  lemma {:induction false} NumberedLength(line: seq<Fragment>, nums: seq<int>)
    requires Numbered(line, nums)
    ensures |nums| == |line|
  {
  }

  lemma {:induction false} FoundRun(line: seq<Fragment>, nums: seq<int>, d: set<nat>, s: nat, n: nat)
    requires Numbered(line, nums) && Together(nums, d) && 0 < n && s + n <= |Places(d, |line|)|
    requires forall k :: s < k < s + n ==> GoesOn(Pick(line, d), k)
    ensures Run(Places(d, |line|), s, Places(d, |line|)[s], n)
    decreases n
  {
    hide Numbered, Places, Follows;
    var p, cs := Places(d, |line|), Pick(line, d);
    if n > 1 {
      FoundRun(line, nums, d, s, n - 1);
      var k := s + n - 1;
      assert GoesOn(cs, k);
      FollowsIs(cs, k);
      assert cs[k] == line[p[k]] && cs[k - 1] == line[p[k - 1]];
      NumberedLength(line, nums);
      NextPlace(line, nums, p[k - 1], p[k]);
    }
  }

  /** A message that arrived in full is a message among the chunks. */
  lemma {:induction false} SentIsFound(line: seq<Fragment>, d: set<nat>, a: nat, e: nat)
    requires Segment(line, a, e) && Range(a, e) <= d
    ensures Segment(Pick(line, d), |Places(d, a)|, |Places(d, a)| + (e - a))
  {
    hide Segment, Places, Pick, Run;
    SegmentInside(line, a, e);
    var s, n := |Places(d, a)|, e - a;
    RangeRun(d, a, n, |line|);
    RunFits(line, d, s, a, n);
    PickStretch(line, d, s, a, n);
    SegmentSlice(Pick(line, d), s, n);
    SegmentSlice(line, a, n);
  }

  lemma {:induction false} RunFits(line: seq<Fragment>, d: set<nat>, s: nat, a: nat, n: nat)
    requires Run(Places(d, |line|), s, a, n)
    ensures s + n <= |Pick(line, d)|
  {
  }

  /** Cutting the message out leaves the other places as they were. */
  lemma {:induction false} CutPlaces(d: set<nat>, a: nat, e: nat, k: nat)
    requires a <= e <= k && Range(a, e) <= d
    ensures var s, p := |Places(d, a)|, Places(d, k);
            s + (e - a) <= |p| && Places(d - Range(a, e), k) == p[..s] + p[s + (e - a)..]
    decreases k
  {
    var r := Range(a, e);
    if k == e {
      CutTail(d, a, e);
    } else {
      CutPlaces(d, a, e, k - 1);
    }
  }

  lemma {:induction false} CutTail(d: set<nat>, a: nat, e: nat)
    requires a <= e && Range(a, e) <= d
    ensures |Places(d, e)| == |Places(d, a)| + (e - a) && Places(d - Range(a, e), e) == Places(d, e)[..|Places(d, a)|]
    decreases e
  {
    if a < e {
      assert e - 1 in Range(a, e) && Range(a, e - 1) == Range(a, e) - {e - 1};
      CutTail(d, a, e - 1);
      PlacesSame(d - Range(a, e), d - Range(a, e - 1), e - 1);
    } else {
      PlacesSame(d - Range(a, e), d, e);
    }
  }

  lemma {:induction false} CutPick(line: seq<Fragment>, d: set<nat>, a: nat, n: nat)
    requires Range(a, a + n) <= d && a + n <= |line|
    ensures var s, cs := |Places(d, a)|, Pick(line, d);
            s + n <= |cs| && Pick(line, d - Range(a, a + n)) == cs[..s] + cs[s + n..]
  {
    CutPlaces(d, a, a + n, |line|);
  }

  /** Chunk i of the line arrives and a whole message is found among the chunks: it is a
      message that was sent, chunk i is the last part of it to come, and cutting it out
      leaves the rest as it was, with no whole message in it. */
  lemma {:induction false} ArrivalCompletes(line: seq<Fragment>, nums: seq<int>, d: set<nat>, i: nat, s: nat, n: nat)
    requires Numbered(line, nums) && Together(nums, d + {i}) && NoWhole(line, d) && i < |line| && i !in d
    requires Segment(Insert(Pick(line, d), line[i], false), s, s + n)
    ensures var cs := Insert(Pick(line, d), line[i], false);
            && s < |Places(d + {i}, |line|)| && s + n <= |cs|
            && var a := Places(d + {i}, |line|)[s];
            && Segment(line, a, a + n) && a <= i < a + n && Range(a, a + n) <= d + {i}
            && cs[s..s + n] == line[a..a + n]
            && cs[..s] + cs[s + n..] == Pick(line, d + {i} - Range(a, a + n))
            && NoWhole(line, d + {i} - Range(a, a + n))
  {
    hide Segment, Places, Numbered, Together, Pick, NoWhole, Insert;
    NumberedComes(line, nums, d, i);
    InsertPick(line, d, i, false);
    FoundAndCut(line, nums, d + {i}, s, n);
    var a := Places(d + {i}, |line|)[s];
    LastOfMessage(line, d, i, a, a + n);
    NoWholeSubset(line, d, d + {i} - Range(a, a + n));
  }

  lemma {:induction false} FoundAndCut(line: seq<Fragment>, nums: seq<int>, d: set<nat>, s: nat, n: nat)
    requires Numbered(line, nums) && Together(nums, d) && Segment(Pick(line, d), s, s + n)
    ensures var p, cs := Places(d, |line|), Pick(line, d);
            && s < |p| && s + n <= |cs|
            && Segment(line, p[s], p[s] + n) && Range(p[s], p[s] + n) <= d
            && cs[s..s + n] == line[p[s]..p[s] + n]
            && cs[..s] + cs[s + n..] == Pick(line, d - Range(p[s], p[s] + n))
  {
    hide Segment, Numbered, Together, Places, Pick;
    FoundIsSent(line, nums, d, s, n);
    var a := Places(d, |line|)[s];
    SegmentInside(line, a, a + n);
    SegmentInside(Pick(line, d), s, s + n);
    CutPick(line, d, a, n);
  }

  /** Chunk i arrives and nothing is found: its message is not there in full. */
  lemma {:induction false} ArrivalWaits(line: seq<Fragment>, nums: seq<int>, d: set<nat>, i: nat)
    requires Numbered(line, nums) && Together(nums, d + {i}) && NoWhole(line, d) && i < |line| && i !in d
    requires forall j: nat, e: nat :: !Segment(Insert(Pick(line, d), line[i], false), j, e)
    ensures Insert(Pick(line, d), line[i], false) == Pick(line, d + {i}) && NoWhole(line, d + {i})
  {
    hide Segment, Places, Pick, Insert, Numbered, Together;
    NumberedComes(line, nums, d, i);
    InsertPick(line, d, i, false);
    forall a: nat, e: nat | Segment(line, a, e) ensures !(Range(a, e) <= d + {i}) {
      if Range(a, e) <= d + {i} { SentIsFound(line, d + {i}, a, e); }
    }
  }

  lemma {:induction false} LastOfMessage(line: seq<Fragment>, d: set<nat>, i: nat, a: nat, e: nat)
    requires NoWhole(line, d) && Segment(line, a, e) && Range(a, e) <= d + {i}
    ensures a <= i < e
  {
  }

  lemma {:induction false} NoWholeSubset(line: seq<Fragment>, d: set<nat>, d': set<nat>)
    requires NoWhole(line, d) && d' <= d
    ensures NoWhole(line, d')
  {
  }

  lemma {:induction false} OnlyEnds(line: seq<Fragment>, a: nat, e: nat)
    requires Segment(line, a, e)
    ensures a < e <= |line| && line[a].first && line[e - 1].last
    ensures forall x :: a < x < e ==> !line[x].first
    ensures forall x :: a <= x < e - 1 ==> !line[x].last
  {
    forall x | a < x < e ensures !line[x].first { assert GoesOn(line, x); }
  }

  /** Two messages on the line are the same or do not meet. */
  lemma {:induction false} SegmentsApart(line: seq<Fragment>, a: nat, e: nat, b: nat, f: nat, x: nat)
    requires Segment(line, a, e) && Segment(line, b, f) && a <= x < e && b <= x < f
    ensures a == b && e == f
  {
    hide Segment;
    OnlyEnds(line, a, e);
    OnlyEnds(line, b, f);
  }

  // ------------------------------------------------------ dropping the oldest

  /** The first k chunks, and no more, are at or before the cumulative TSN. */
  ghost predicate Forwarded(loose: seq<Fragment>, cum: uint32, k: nat) {
    && k <= |loose| && (forall i :: 0 <= i < k ==> Lte32(loose[i].tsn, cum))
    && (k < |loose| ==> Gt32(loose[k].tsn, cum))
  }

  /** The places of chunks numbered at or before c. */
  ghost function Passed(nums: seq<int>, d: set<nat>, c: int): set<nat> {
    set x | x in d && x < |nums| && nums[x] <= c
  }

  ghost predicate PlacesNear(nums: seq<int>, d: set<nat>, c: int) {
    forall x :: x in d && x < |nums| ==> Near(nums[x], c)
  }

  /** The place from which on chunks stay when the first k go. */
  function StaysFrom(d: set<nat>, n: nat, k: nat): nat {
    var p := Places(d, n);
    if k < |p| then p[k] else n
  }

  lemma {:induction false} StaysCount(d: set<nat>, n: nat, k: nat)
    requires k <= |Places(d, n)|
    ensures var y := StaysFrom(d, n, k); y <= n && |Places(d, y)| == k
  {
    hide Places;
    var p := Places(d, n);
    if k < |p| {
      PlaceOf(d, p[k], n);
      PlaceUnique(d, n, k, |Places(d, p[k])|);
    }
  }

  lemma {:induction false} PlacesFrom(d: set<nat>, y: nat, k: nat)
    requires y <= k
    ensures |Places(d, y)| <= |Places(d, k)| && Places(d - Range(0, y), k) == Places(d, k)[|Places(d, y)|..]
    decreases k
  {
    if y == k {
      PlacesEmpty(d - Range(0, y), k);
    } else {
      PlacesFrom(d, y, k - 1);
      PlacesGrow(d, y, k - 1);
    }
  }

  lemma {:induction false} PlacesEmpty(d: set<nat>, k: nat)
    requires forall x :: x in d ==> x >= k
    ensures Places(d, k) == []
  {
    if k > 0 { PlacesEmpty(d, k - 1); }
  }

  lemma {:induction false} PlaceBefore(d: set<nat>, n: nat, x: nat, k: nat)
    requires x in d && x < StaysFrom(d, n, k) <= n && k <= |Places(d, n)|
    ensures |Places(d, x)| < k
  {
    PlaceOf(d, x, n);
  }

  lemma {:induction false} PickLength(line: seq<Fragment>, d: set<nat>)
    ensures |Pick(line, d)| == |Places(d, |line|)|
  {
  }

  lemma {:induction false} PickedAt(line: seq<Fragment>, d: set<nat>, x: nat)
    requires x in d && x < |line|
    ensures |Places(d, x)| < |Pick(line, d)| && Pick(line, d)[|Places(d, x)|] == line[x]
  {
    PlaceOf(d, x, |line|);
  }

  lemma {:induction false} PickedFirst(line: seq<Fragment>, d: set<nat>, k: nat)
    requires k <= |Places(d, |line|)|
    ensures var y := StaysFrom(d, |line|, k);
            y < |line| ==> y in d && k < |Pick(line, d)| && Pick(line, d)[k] == line[y]
  {
  }

  lemma {:induction false} PickTail(line: seq<Fragment>, d: set<nat>, d': set<nat>, k: nat)
    requires k <= |Places(d, |line|)| && Places(d', |line|) == Places(d, |line|)[k..]
    ensures k <= |Pick(line, d)| && Pick(line, d)[k..] == Pick(line, d')
  {
    hide Places;
  }

  lemma {:induction false} CompareAt(line: seq<Fragment>, nums: seq<int>, d: set<nat>, c: int, x: nat)
    requires Numbered(line, nums) && PlacesNear(nums, d, c) && x in d && x < |line|
    ensures Lte32(line[x].tsn, Wire(c)) <==> nums[x] <= c
    ensures Gt32(line[x].tsn, Wire(c)) <==> nums[x] > c
  {
    hide Wire;
    WireOrder(nums[x], c);
  }

  lemma {:induction false} NumberedOrder(line: seq<Fragment>, nums: seq<int>, x: nat, y: nat)
    requires Numbered(line, nums) && y <= x < |line|
    ensures nums[y] <= nums[x]
  {
  }

  /** The chunks dropped are those before the place from which on they stay. */
  lemma {:induction false} DropPlace(line: seq<Fragment>, nums: seq<int>, d: set<nat>, c: int, k: nat, x: nat)
    requires Numbered(line, nums) && PlacesNear(nums, d, c) && Forwarded(Pick(line, d), Wire(c), k) && x in d && x < |line|
    ensures x < StaysFrom(d, |line|, k) <==> x in Passed(nums, d, c)
  {
    hide Numbered, PlacesNear, Lte32, Gt32, Wire, Places, Pick, StaysFrom;
    var y := StaysFrom(d, |line|, k);
    NumberedLength(line, nums);
    PickLength(line, d);
    StaysCount(d, |line|, k);
    CompareAt(line, nums, d, c, x);
    if x < y {
      PlaceBefore(d, |line|, x, k);
      PickedAt(line, d, x);
    } else {
      PickedFirst(line, d, k);
      CompareAt(line, nums, d, c, y);
      NumberedOrder(line, nums, x, y);
    }
  }

  /** Dropping the first chunks up to the one numbered c is dropping those numbered at or
      before c. */
  lemma {:induction false} DropIsTail(line: seq<Fragment>, nums: seq<int>, d: set<nat>, c: int, k: nat)
    requires Numbered(line, nums) && PlacesNear(nums, d, c) && Forwarded(Pick(line, d), Wire(c), k)
    ensures k <= |Pick(line, d)| && Pick(line, d)[k..] == Pick(line, d - Passed(nums, d, c))
  {
    hide Numbered, PlacesNear, Places, Forwarded, StaysFrom, Passed, Pick, Wire;
    var y := StaysFrom(d, |line|, k);
    PickLength(line, d);
    ForwardedFew(Pick(line, d), Wire(c), k);
    StaysCount(d, |line|, k);
    PlacesFrom(d, y, |line|);
    forall x: nat | x < |line| ensures x in d - Range(0, y) <==> x in d - Passed(nums, d, c) {
      if x in d { DropPlace(line, nums, d, c, k, x); }
    }
    PlacesSame(d - Range(0, y), d - Passed(nums, d, c), |line|);
    PickTail(line, d, d - Passed(nums, d, c), k);
  }

  lemma {:induction false} ForwardedFew(loose: seq<Fragment>, cum: uint32, k: nat)
    requires Forwarded(loose, cum, k)
    ensures k <= |loose|
  {
  }
}
