/** selectGroup of internal/worker/worker.go: the anchor's rating window in int32
    arithmetic, the greedy fill, and what the fill guarantees. */
module Grouping {
  import opened Model
  import opened RatingBand
  import opened Order

  const RATING_DIFF_ALLOWANCE := 50
  const MAX_RATING_DIFF: int32 := 300
  const RATING_EXPAND_PER_SECOND := 5

  /** The longest wait, in seconds, whose window is computed without overflow. */
  const LONGEST_EXACT_WAIT: int32 := 429_496_719

  // ---- the window -----------------------------------------------------------

  /** int32(now.Sub(enqueuedAt).Seconds()): truncation toward zero; a value outside
      int32 converts to the least int32, as on amd64. */
  function WaitSecs(now: int, enqueuedAt: int): int32 {
    var nanos := now - enqueuedAt;
    var secs := if nanos >= 0 then nanos / SECOND else -(-nanos / SECOND);
    if -0x8000_0000 <= secs < 0x8000_0000 then secs as int32 else -0x8000_0000
  }

  /** Whole seconds, rounded toward zero on both sides of it. */
  lemma WaitIsTruncated(now: int, enqueuedAt: int)
    ensures var d, w := now - enqueuedAt, WaitSecs(now, enqueuedAt) as int;
      && (0 <= d < 0x8000_0000 * 1_000_000_000 ==> w * 1_000_000_000 <= d < (w + 1) * 1_000_000_000)
      && (-0x8000_0001 * 1_000_000_000 < d <= 0 ==> (w - 1) * 1_000_000_000 < d <= w * 1_000_000_000)
  {
  }

  /** The code's window, wrap-around included. */
  function Window(wait: int32): int32 {
    var w := Wrap32(RATING_DIFF_ALLOWANCE + Wrap32(RATING_EXPAND_PER_SECOND * wait as int) as int);
    if w > MAX_RATING_DIFF then MAX_RATING_DIFF else w
  }

  /** The intended window, over the integers. */
  function IdealWindow(wait: int): int {
    var w := RATING_DIFF_ALLOWANCE + RATING_EXPAND_PER_SECOND * wait;
    if w > MAX_RATING_DIFF as int then MAX_RATING_DIFF as int else w
  }

  /** The code's |a - b| in int32. */
  function Diff(a: int32, b: int32): int32 {
    var d := Wrap32(a as int - b as int);
    if d < 0 then Wrap32(-(d as int)) else d
  }

  predicate Near(anchor: QueueEntry, other: QueueEntry, window: int32) {
    Diff(other.rating, anchor.rating) <= window
  }

  /** The difference is exact precisely when it fits; ratings of one sign always do. */
  lemma DiffExactIff(a: int32, b: int32)
    ensures Diff(a, b) as int == Abs(a as int - b as int) <==> Abs(a as int - b as int) < 0x8000_0000
    ensures a >= 0 && b >= 0 ==> Diff(a, b) as int == Abs(a as int - b as int)
  {
  }

  /** The window is the intended one for every wait up to a bound precisely when the
      bound is at most LONGEST_EXACT_WAIT. */
  lemma WindowExactIff(bound: int32)
    requires bound >= 0
    ensures (forall w: int32 :: 0 <= w <= bound ==> Window(w) as int == IdealWindow(w as int))
       <==> bound <= LONGEST_EXACT_WAIT
  {
    forall w: int32 | 0 <= w <= LONGEST_EXACT_WAIT
      ensures Window(w) as int == IdealWindow(w as int)
    {
      WindowExact(w);
    }
    if bound > LONGEST_EXACT_WAIT {
      WindowOverflows();
      var w: int32 := 429_496_720;
      assert Window(w) as int != IdealWindow(w as int);
    }
  }

  /** One second later the window turns negative, so nobody but the anchor is near. */
  lemma WindowOverflows()
    ensures Window(429_496_720) == -2_147_483_646
  {
  }

  lemma WrapFits(x: int)
    requires -0x8000_0000 <= x < 0x8000_0000
    ensures Wrap32(x) as int == x
  {
  }

  lemma WindowExact(w: int32)
    requires 0 <= w <= LONGEST_EXACT_WAIT
    ensures Window(w) as int == IdealWindow(w as int)
  {
    WrapFits(RATING_EXPAND_PER_SECOND * w as int);
    WrapFits(RATING_DIFF_ALLOWANCE + RATING_EXPAND_PER_SECOND * w as int);
  }

  lemma WindowMonotone(v: int32, w: int32)
    requires 0 <= v <= w <= LONGEST_EXACT_WAIT
    ensures Window(v) <= Window(w)
    ensures w >= 50 ==> Window(w) == 300
  {
    WindowExact(v);
    WindowExact(w);
  }

  lemma WaitMonotone(now: int, later: int, enqueuedAt: int)
    requires enqueuedAt <= now <= later
    requires WaitSecs(later, enqueuedAt) >= 0
    ensures 0 <= WaitSecs(now, enqueuedAt) <= WaitSecs(later, enqueuedAt)
  {
  }

  // ---- the fill -------------------------------------------------------------

  /** The near entries among buffer[1..i]. */
  function Count(near: Buffered -> bool, buffer: seq<Buffered>, i: nat): (c: nat)
    requires i <= |buffer|
  {
    if i <= 1 then 0 else Count(near, buffer, i - 1) + if near(buffer[i - 1]) then 1 else 0
  }

  /** The group after buffer[..i]: the head, then near entries, in order, until there are n. */
  function Group(near: Buffered -> bool, n: nat, buffer: seq<Buffered>, i: nat): (r: seq<Buffered>)
    requires 1 <= i <= |buffer|
  {
    if i == 1 then [buffer[0]]
    else
      var before := Group(near, n, buffer, i - 1);
      if near(buffer[i - 1]) && |before| < n then before + [buffer[i - 1]] else before
  }

  /** The entries among buffer[..i] that the group leaves, in order. */
  function Left(near: Buffered -> bool, n: nat, buffer: seq<Buffered>, i: nat): (r: seq<Buffered>)
    requires 1 <= i <= |buffer|
  {
    if i == 1 then []
    else
      var before := Left(near, n, buffer, i - 1);
      if near(buffer[i - 1]) && |Group(near, n, buffer, i - 1)| < n then before else before + [buffer[i - 1]]
  }

  lemma {:induction false} GroupSize(near: Buffered -> bool, n: nat, buffer: seq<Buffered>, i: nat)
    requires n >= 1 && 1 <= i <= |buffer|
    ensures |Group(near, n, buffer, i)| == (if 1 + Count(near, buffer, i) <= n then 1 + Count(near, buffer, i) else n)
    ensures |Group(near, n, buffer, i)| + |Left(near, n, buffer, i)| == i
  {
    if i > 1 {
      GroupSize(near, n, buffer, i - 1);
    }
  }

  lemma {:induction false} GroupNear(near: Buffered -> bool, n: nat, buffer: seq<Buffered>, i: nat)
    requires 1 <= i <= |buffer|
    ensures |Group(near, n, buffer, i)| >= 1 && Group(near, n, buffer, i)[0] == buffer[0]
    ensures forall j :: 1 <= j < |Group(near, n, buffer, i)| ==> near(Group(near, n, buffer, i)[j])
  {
    if i > 1 {
      GroupNear(near, n, buffer, i - 1);
    }
  }

  /** One more entry goes to the group or stays. */
  lemma GroupLast(near: Buffered -> bool, n: nat, buffer: seq<Buffered>, i: nat)
    requires 1 < i <= |buffer|
    ensures var g, l, b := Group(near, n, buffer, i - 1), Left(near, n, buffer, i - 1), buffer[i - 1];
      if near(b) && |g| < n
      then Group(near, n, buffer, i) == g + [b] && Left(near, n, buffer, i) == l
      else Group(near, n, buffer, i) == g && Left(near, n, buffer, i) == l + [b]
  {
  }

  lemma GroupFirst(near: Buffered -> bool, n: nat, buffer: seq<Buffered>)
    requires buffer != []
    ensures Group(near, n, buffer, 1) == [buffer[0]] == buffer[..1] && Left(near, n, buffer, 1) == []
  {
  }

  /** One more entry on one of two piles. */
  lemma BagMore(xs: seq<Buffered>, ys: seq<Buffered>, all: seq<Buffered>, b: Buffered, xs': seq<Buffered>, ys': seq<Buffered>, all': seq<Buffered>)
    requires multiset(xs) + multiset(ys) == multiset(all) && all' == all + [b]
    requires (xs' == xs + [b] && ys' == ys) || (xs' == xs && ys' == ys + [b])
    ensures multiset(xs') + multiset(ys') == multiset(all')
  {
    assert multiset(all') == multiset(all) + multiset{b};
    if xs' == xs + [b] && ys' == ys {
      assert multiset(xs') == multiset(xs) + multiset{b};
    } else {
      assert multiset(ys') == multiset(ys) + multiset{b};
    }
  }

  lemma PrefixLast(xs: seq<Buffered>, i: nat)
    requires 0 < i <= |xs|
    ensures xs[..i] == xs[..i - 1] + [xs[i - 1]]
  {
  }

  lemma {:induction false} GroupBag(near: Buffered -> bool, n: nat, buffer: seq<Buffered>, i: nat)
    requires 1 <= i <= |buffer|
    ensures multiset(Group(near, n, buffer, i)) + multiset(Left(near, n, buffer, i)) == multiset(buffer[..i])
  {
    hide Group, Left;
    if i == 1 {
      GroupFirst(near, n, buffer);
    } else {
      GroupBag(near, n, buffer, i - 1);
      GroupLast(near, n, buffer, i);
      PrefixLast(buffer, i);
      BagMore(Group(near, n, buffer, i - 1), Left(near, n, buffer, i - 1), buffer[..i - 1], buffer[i - 1],
              Group(near, n, buffer, i), Left(near, n, buffer, i), buffer[..i]);
    }
  }

  lemma {:induction false} GroupPrefix(near: Buffered -> bool, n: nat, buffer: seq<Buffered>, more: seq<Buffered>, i: nat)
    requires 1 <= i <= |buffer|
    ensures Group(near, n, buffer + more, i) == Group(near, n, buffer, i)
    ensures Left(near, n, buffer + more, i) == Left(near, n, buffer, i)
  {
    if i > 1 {
      GroupPrefix(near, n, buffer, more, i - 1);
    }
  }

  /** Once the group is full, the fill takes nothing more. */
  lemma {:induction false} GroupFull(near: Buffered -> bool, n: nat, buffer: seq<Buffered>, i: nat, j: nat)
    requires 1 <= i <= j <= |buffer|
    requires |Group(near, n, buffer, i)| >= n
    ensures Group(near, n, buffer, j) == Group(near, n, buffer, i)
    ensures Left(near, n, buffer, j) == Left(near, n, buffer, i) + buffer[i..j]
    decreases j
  {
    if i < j {
      GroupFull(near, n, buffer, i, j - 1);
      assert buffer[i..j] == buffer[i..j - 1] + [buffer[j - 1]];
    }
  }

  /** The entries of buffer[1..i] that are near (keep) or not near (!keep), in order. */
  function Only(near: Buffered -> bool, keep: bool, buffer: seq<Buffered>, i: nat): (r: seq<Buffered>)
    requires i <= |buffer|
  {
    if i <= 1 then []
    else if near(buffer[i - 1]) == keep then Only(near, keep, buffer, i - 1) + [buffer[i - 1]]
    else Only(near, keep, buffer, i - 1)
  }

  lemma Regroup(xs: seq<Buffered>, ys: seq<Buffered>, zs: seq<Buffered>)
    ensures xs + ys + zs == xs + (ys + zs)
  {
  }

  lemma OnlyLast(near: Buffered -> bool, buffer: seq<Buffered>, i: nat)
    requires 1 < i <= |buffer|
    ensures Only(near, true, buffer, i) == Only(near, true, buffer, i - 1) + if near(buffer[i - 1]) then [buffer[i - 1]] else []
    ensures Only(near, false, buffer, i) == Only(near, false, buffer, i - 1) + if near(buffer[i - 1]) then [] else [buffer[i - 1]]
  {
  }

  /** No near entry is passed over: up to some position the fill takes every near entry
      and leaves every other one, and from there on it takes nothing; that position is
      just past the last entry taken, unless the fill came to the end. */
  lemma {:induction false} GroupIsGreedy(near: Buffered -> bool, n: nat, buffer: seq<Buffered>, i: nat)
    returns (c: nat)
    requires n >= 1 && 1 <= i <= |buffer|
    ensures 1 <= c <= i
    ensures Group(near, n, buffer, i) == [buffer[0]] + Only(near, true, buffer, c)
    ensures Left(near, n, buffer, i) == Only(near, false, buffer, c) + buffer[c..i]
    ensures |Group(near, n, buffer, i)| < n ==> c == i
    ensures |Group(near, n, buffer, i)| == n > 1 ==> near(buffer[c - 1])
    ensures n == 1 ==> c == 1
  {
    if i == 1 {
      return 1;
    }
    GroupSize(near, n, buffer, i - 1);
    c := GroupIsGreedy(near, n, buffer, i - 1);
    GroupLast(near, n, buffer, i);
    hide Group, Left, Only;
    var b := [buffer[i - 1]];
    if |Group(near, n, buffer, i - 1)| < n {
      c := i;
      OnlyLast(near, buffer, i);
      Regroup([buffer[0]], Only(near, true, buffer, i - 1), b);
    } else {
      Regroup(Only(near, false, buffer, c), buffer[c..i - 1], b);
      assert buffer[c..i] == buffer[c..i - 1] + b;
    }
  }

  lemma {:induction false} CountBound(near: Buffered -> bool, buffer: seq<Buffered>, i: nat)
    requires 1 <= i <= |buffer|
    ensures Count(near, buffer, i) <= i - 1
    ensures (forall j :: 1 <= j < i ==> near(buffer[j])) ==> Count(near, buffer, i) == i - 1
  {
    if i > 1 {
      CountBound(near, buffer, i - 1);
    }
  }

  lemma {:induction false} CountMonotone(near: Buffered -> bool, nearer: Buffered -> bool, buffer: seq<Buffered>, i: nat)
    requires i <= |buffer|
    requires forall b :: nearer(b) ==> near(b)
    ensures Count(nearer, buffer, i) <= Count(near, buffer, i)
  {
    if i > 1 {
      CountMonotone(near, nearer, buffer, i - 1);
    }
  }

  // ---- the selection ----------------------------------------------------------

  datatype Selection = NotFound | Found(group: seq<Buffered>, remaining: seq<Buffered>)

  /** The window of an anchor at an instant. */
  function WindowAt(anchor: QueueEntry, now: int): int32 {
    Window(WaitSecs(now, anchor.enqueuedAt))
  }

  /** Who counts as near an anchor. */
  function InWindow(anchor: QueueEntry, window: int32): Buffered -> bool {
    (b: Buffered) => Near(anchor, b.entry, window)
  }

  function NearHead(buffer: seq<Buffered>, now: int): Buffered -> bool
    requires buffer != []
  {
    InWindow(buffer[0].entry, WindowAt(buffer[0].entry, now))
  }

  /** The head and the earliest n-1 others in its window; everything else stays, in order. */
  function Select(buffer: seq<Buffered>, n: nat, now: int): Selection
    requires n >= 1
  {
    if |buffer| < n then NotFound else SelectNear(buffer, n, NearHead(buffer, now))
  }

  function SelectNear(buffer: seq<Buffered>, n: nat, near: Buffered -> bool): Selection
    requires 1 <= n <= |buffer|
  {
    var group := Group(near, n, buffer, |buffer|);
    if |group| < n then NotFound else Found(group, Left(near, n, buffer, |buffer|))
  }

  /** What a selection is: exactly n entries, the head first, everyone inside the head's
      window; nothing is lost or duplicated. */
  lemma SelectSound(buffer: seq<Buffered>, n: nat, now: int)
    requires n >= 1
    requires Select(buffer, n, now).Found?
    ensures var Found(group, remaining) := Select(buffer, n, now);
      && |buffer| >= n && |group| == n && |remaining| == |buffer| - n
      && group[0] == buffer[0]
      && multiset(buffer) == multiset(group) + multiset(remaining)
      && (forall i :: 1 <= i < n ==> Near(group[0].entry, group[i].entry, WindowAt(group[0].entry, now)))
  {
    SelectNearSound(buffer, n, NearHead(buffer, now));
  }

  lemma SelectNearSound(buffer: seq<Buffered>, n: nat, near: Buffered -> bool)
    requires 1 <= n <= |buffer|
    requires SelectNear(buffer, n, near).Found?
    ensures var Found(group, remaining) := SelectNear(buffer, n, near);
      && |group| == n && |remaining| == |buffer| - n
      && group[0] == buffer[0]
      && multiset(buffer) == multiset(group) + multiset(remaining)
      && (forall i :: 1 <= i < n ==> near(group[i]))
  {
    GroupSize(near, n, buffer, |buffer|);
    GroupNear(near, n, buffer, |buffer|);
    GroupBag(near, n, buffer, |buffer|);
    assert buffer[..|buffer|] == buffer;
  }

  /** A group is found exactly when n-1 others lie in the head's window. */
  lemma SelectExact(buffer: seq<Buffered>, n: nat, now: int)
    requires n >= 1
    ensures Select(buffer, n, now).Found? <==>
      buffer != [] && Count(NearHead(buffer, now), buffer, |buffer|) >= n - 1
  {
    if buffer != [] {
      SelectNearExact(buffer, n, NearHead(buffer, now));
    }
  }

  lemma SelectNearExact(buffer: seq<Buffered>, n: nat, near: Buffered -> bool)
    requires n >= 1 && buffer != []
    ensures n <= |buffer| && SelectNear(buffer, n, near).Found? <==> Count(near, buffer, |buffer|) >= n - 1
  {
    GroupSize(near, n, buffer, |buffer|);
    CountBound(near, buffer, |buffer|);
  }

  /** Waiting longer never loses a group, as long as the window does not overflow. */
  lemma SelectMonotone(buffer: seq<Buffered>, n: nat, now: int, later: int)
    requires n >= 1 && buffer != []
    requires buffer[0].entry.enqueuedAt <= now <= later
    requires 0 <= WaitSecs(later, buffer[0].entry.enqueuedAt) <= LONGEST_EXACT_WAIT
    requires Select(buffer, n, now).Found?
    ensures Select(buffer, n, later).Found?
  {
    var head := buffer[0].entry;
    WaitMonotone(now, later, head.enqueuedAt);
    WindowMonotone(WaitSecs(now, head.enqueuedAt), WaitSecs(later, head.enqueuedAt));
    WiderWindow(head, WindowAt(head, now), WindowAt(head, later), buffer);
    SelectExact(buffer, n, now);
    SelectExact(buffer, n, later);
  }

  lemma WiderWindow(anchor: QueueEntry, v: int32, w: int32, buffer: seq<Buffered>)
    requires v <= w
    ensures Count(InWindow(anchor, v), buffer, |buffer|) <= Count(InWindow(anchor, w), buffer, |buffer|)
  {
    CountMonotone(InWindow(anchor, w), InWindow(anchor, v), buffer, |buffer|);
  }

  /** Newcomers behind the buffer never change a group that is already there. */
  lemma SelectStable(buffer: seq<Buffered>, newcomers: seq<Buffered>, n: nat, now: int)
    requires n >= 1
    requires Select(buffer, n, now).Found?
    ensures Select(buffer + newcomers, n, now)
         == Found(Select(buffer, n, now).group, Select(buffer, n, now).remaining + newcomers)
  {
    SelectNearStable(buffer, newcomers, n, NearHead(buffer, now));
  }

  lemma SelectNearStable(buffer: seq<Buffered>, newcomers: seq<Buffered>, n: nat, near: Buffered -> bool)
    requires 1 <= n <= |buffer|
    requires SelectNear(buffer, n, near).Found?
    ensures SelectNear(buffer + newcomers, n, near)
         == Found(SelectNear(buffer, n, near).group, SelectNear(buffer, n, near).remaining + newcomers)
  {
    var all := buffer + newcomers;
    GroupPrefix(near, n, buffer, newcomers, |buffer|);
    GroupFull(near, n, all, |buffer|, |all|);
    assert all[|buffer|..|all|] == newcomers;
  }

  // ---- positions --------------------------------------------------------------------------

  /** Where the entries of a group and of the rest stand in the buffer: the head first,
      nothing but near entries after it, and none of those passed over before the group was
      full. */
  ghost predicate Positions(
      near: Buffered -> bool, n: nat, buffer: seq<Buffered>, i: nat,
      group: seq<Buffered>, left: seq<Buffered>, picks: seq<int>, rest: seq<int>) {
    && 1 <= i <= |buffer| && Picks(group, buffer[..i], picks) && Picks(left, buffer[..i], rest) && Complement(picks, rest, i)
    && 1 <= |group| && picks[0] == 0
    && (forall k :: 1 <= k < |group| ==> near(buffer[picks[k]]))
    && (forall j :: 0 < j < i && j in rest && near(buffer[j]) ==> |group| >= n && picks[|group| - 1] < j)
  }

  lemma {:induction false} GroupPositions(near: Buffered -> bool, n: nat, buffer: seq<Buffered>, i: nat)
    returns (picks: seq<int>, rest: seq<int>)
    requires n >= 1 && 1 <= i <= |buffer|
    ensures Positions(near, n, buffer, i, Group(near, n, buffer, i), Left(near, n, buffer, i), picks, rest)
  {
    hide Group, Left, Positions;
    if i == 1 {
      GroupFirst(near, n, buffer);
      picks, rest := [0], [];
      FirstPosition(near, n, buffer);
    } else {
      picks, rest := GroupPositions(near, n, buffer, i - 1);
      GroupLast(near, n, buffer, i);
      var g, l := Group(near, n, buffer, i - 1), Left(near, n, buffer, i - 1);
      if near(buffer[i - 1]) && |g| < n {
        PositionTaken(near, n, buffer, i, g, l, picks, rest);
        picks := picks + [i - 1];
      } else {
        PositionLeft(near, n, buffer, i, g, l, picks, rest);
        rest := rest + [i - 1];
      }
    }
  }

  lemma FirstPosition(near: Buffered -> bool, n: nat, buffer: seq<Buffered>)
    requires buffer != []
    ensures Positions(near, n, buffer, 1, [buffer[0]], [], [0], [])
  {
    assert 0 in [0];
  }

  lemma PositionTaken(
    near: Buffered -> bool, n: nat, buffer: seq<Buffered>, i: nat,
    group: seq<Buffered>, left: seq<Buffered>, picks: seq<int>, rest: seq<int>)
    requires 1 < i <= |buffer| && Positions(near, n, buffer, i - 1, group, left, picks, rest)
    requires near(buffer[i - 1]) && |group| < n
    ensures Positions(near, n, buffer, i, group + [buffer[i - 1]], left, picks + [i - 1], rest)
  {
    PrefixLast(buffer, i);
    PicksMore(group, buffer[..i - 1], picks, buffer[i - 1]);
    PicksMore(left, buffer[..i - 1], rest, buffer[i - 1]);
    PositionsInside(picks, rest, group, left, buffer[..i - 1]);
    ComplementMore(picks, rest, i - 1);
  }

  lemma PositionLeft(
    near: Buffered -> bool, n: nat, buffer: seq<Buffered>, i: nat,
    group: seq<Buffered>, left: seq<Buffered>, picks: seq<int>, rest: seq<int>)
    requires 1 < i <= |buffer| && Positions(near, n, buffer, i - 1, group, left, picks, rest)
    requires !(near(buffer[i - 1]) && |group| < n)
    ensures Positions(near, n, buffer, i, group, left + [buffer[i - 1]], picks, rest + [i - 1])
  {
    PrefixLast(buffer, i);
    PicksMore(group, buffer[..i - 1], picks, buffer[i - 1]);
    PicksMore(left, buffer[..i - 1], rest, buffer[i - 1]);
    PositionsInside(picks, rest, group, left, buffer[..i - 1]);
    ComplementMore(picks, rest, i - 1);
  }

  lemma PositionsInside(picks: seq<int>, rest: seq<int>, group: seq<Buffered>, left: seq<Buffered>, prefix: seq<Buffered>)
    requires Picks(group, prefix, picks) && Picks(left, prefix, rest)
    ensures forall j :: j in picks || j in rest ==> 0 <= j < |prefix|
  {
  }

  ghost function NearSet(near: Buffered -> bool, buffer: seq<Buffered>, i: nat): set<int>
    requires i <= |buffer|
  {
    set j: int | 1 <= j < i && near(buffer[j])
  }

  /** The count of near entries is the number of their positions. */
  lemma {:induction false} CountIs(near: Buffered -> bool, buffer: seq<Buffered>, i: nat)
    requires i <= |buffer|
    ensures Count(near, buffer, i) == |NearSet(near, buffer, i)|
  {
    if i <= 1 {
      assert NearSet(near, buffer, i) == {};
    } else {
      CountIs(near, buffer, i - 1);
      assert NearSet(near, buffer, i) == NearSet(near, buffer, i - 1) + if near(buffer[i - 1]) then {i - 1} else {};
    }
  }

  /** What a selection found, by positions. */
  ghost predicate EarliestNear(
      near: Buffered -> bool, n: nat, buffer: seq<Buffered>, group: seq<Buffered>, remaining: seq<Buffered>,
      picks: seq<int>, rest: seq<int>) {
    && |picks| == n >= 1 && Picks(group, buffer, picks) && Picks(remaining, buffer, rest) && Complement(picks, rest, |buffer|)
    && picks[0] == 0
    && (forall k :: 1 <= k < n ==> near(buffer[picks[k]]))
    && (forall j :: 0 < j < |buffer| && near(buffer[j]) ==> j in picks || picks[n - 1] < j)
  }

  lemma SelectNearMeans(buffer: seq<Buffered>, n: nat, near: Buffered -> bool) returns (picks: seq<int>, rest: seq<int>)
    requires n >= 1 && buffer != []
    ensures n <= |buffer| && SelectNear(buffer, n, near).Found? <==> |NearSet(near, buffer, |buffer|)| >= n - 1
    ensures n <= |buffer| && SelectNear(buffer, n, near).Found? ==>
      var Found(group, remaining) := SelectNear(buffer, n, near);
      EarliestNear(near, n, buffer, group, remaining, picks, rest)
  {
    SelectNearExact(buffer, n, near);
    CountIs(near, buffer, |buffer|);
    picks, rest := GroupPositions(near, n, buffer, |buffer|);
    if n <= |buffer| && SelectNear(buffer, n, near).Found? {
      SelectNearSound(buffer, n, near);
      hide Group, Left;
      assert buffer[..|buffer|] == buffer;
    }
  }

  // ---- the selection in the terms of a user ---------------------------------------------

  /** Within 300 points, and beyond 50 points one point per fifth of a second waited, counted
      in whole seconds; before its own enqueueing a player loses five points a second. */
  predicate InReach(a: QueueEntry, b: QueueEntry, now: int) {
    var distance, waited := Abs(b.rating as int - a.rating as int), now - a.enqueuedAt;
    if waited >= 0 then distance <= 300 && (distance <= 50 || (distance - 46) / 5 * 1_000_000_000 <= waited)
    else distance <= 50 && -waited < ((50 - distance) / 5 + 1) * 1_000_000_000
  }

  /** The instants and ratings for which the 32-bit arithmetic is exact: thirteen years of
      waiting, and distances that fit. */
  predicate Fits(a: QueueEntry, b: QueueEntry, now: int) {
    && -LONGEST_EXACT_WAIT as int * 1_000_000_000 <= now - a.enqueuedAt <= LONGEST_EXACT_WAIT as int * 1_000_000_000
    && Abs(b.rating as int - a.rating as int) < 0x8000_0000
  }

  /** Who is near is exactly who is in reach. */
  lemma NearIsInReach(a: QueueEntry, b: QueueEntry, now: int)
    requires Fits(a, b, now)
    ensures Near(a, b, WindowAt(a, now)) <==> InReach(a, b, now)
  {
    var distance, waited, wait := Abs(b.rating as int - a.rating as int), now - a.enqueuedAt, WaitSecs(now, a.enqueuedAt);
    DiffExactIff(b.rating, a.rating);
    WaitIsTruncated(now, a.enqueuedAt);
    WaitInRange(now, a.enqueuedAt);
    WindowIs(wait);
    if waited >= 0 {
      if distance <= 300 && distance > 50 {
        ReachedAfter(distance, wait as int, waited);
      }
    } else if distance <= 50 {
      ReachedUntil(distance, wait as int, waited);
    }
  }

  lemma WaitInRange(now: int, enqueuedAt: int)
    requires -LONGEST_EXACT_WAIT as int * 1_000_000_000 <= now - enqueuedAt <= LONGEST_EXACT_WAIT as int * 1_000_000_000
    ensures -LONGEST_EXACT_WAIT <= WaitSecs(now, enqueuedAt) <= LONGEST_EXACT_WAIT
    ensures now >= enqueuedAt ==> WaitSecs(now, enqueuedAt) >= 0
    ensures now <= enqueuedAt ==> WaitSecs(now, enqueuedAt) <= 0
  {
  }

  lemma WindowIs(w: int32)
    requires -LONGEST_EXACT_WAIT <= w <= LONGEST_EXACT_WAIT
    ensures Window(w) as int == if 50 + 5 * w as int > 300 then 300 else 50 + 5 * w as int
  {
    WrapFits(RATING_EXPAND_PER_SECOND * w as int);
    WrapFits(RATING_DIFF_ALLOWANCE + RATING_EXPAND_PER_SECOND * w as int);
  }

  lemma ReachedAfter(distance: int, wait: int, waited: int)
    requires 50 < distance <= 300 && wait >= 0 && wait * 1_000_000_000 <= waited < (wait + 1) * 1_000_000_000
    ensures distance <= 50 + 5 * wait <==> (distance - 46) / 5 * 1_000_000_000 <= waited
  {
    var needed := (distance - 46) / 5;
    assert distance <= 50 + 5 * wait <==> needed <= wait;
    if needed <= wait {
      assert needed * 1_000_000_000 <= wait * 1_000_000_000;
    } else {
      assert (wait + 1) * 1_000_000_000 <= needed * 1_000_000_000;
    }
  }

  lemma ReachedUntil(distance: int, wait: int, waited: int)
    requires 0 <= distance <= 50 && wait <= 0 && (wait - 1) * 1_000_000_000 < waited <= wait * 1_000_000_000
    ensures distance <= 50 + 5 * wait <==> -waited < ((50 - distance) / 5 + 1) * 1_000_000_000
  {
    var allowed := (50 - distance) / 5;
    assert distance <= 50 + 5 * wait <==> -wait <= allowed;
    if -wait <= allowed {
      assert (-wait + 1) * 1_000_000_000 <= (allowed + 1) * 1_000_000_000;
    } else {
      assert (allowed + 1) * 1_000_000_000 <= -wait * 1_000_000_000;
    }
  }

  ghost predicate AllFit(buffer: seq<Buffered>, now: int) {
    forall j :: 1 <= j < |buffer| ==> Fits(buffer[0].entry, buffer[j].entry, now)
  }

  /** The positions of those in reach of the head. */
  ghost function WithinReach(buffer: seq<Buffered>, now: int): set<int> {
    set j: int | 1 <= j < |buffer| && InReach(buffer[0].entry, buffer[j].entry, now)
  }

  /** What a selection found, in terms of instants and ratings. */
  ghost predicate EarliestInReach(
      n: nat, buffer: seq<Buffered>, now: int, group: seq<Buffered>, remaining: seq<Buffered>, picks: seq<int>, rest: seq<int>) {
    && |picks| == n >= 1 && Picks(group, buffer, picks) && Picks(remaining, buffer, rest) && Complement(picks, rest, |buffer|)
    && picks[0] == 0
    && (forall k :: 1 <= k < n ==> InReach(buffer[0].entry, buffer[picks[k]].entry, now))
    && (forall j :: 0 < j < |buffer| && InReach(buffer[0].entry, buffer[j].entry, now) ==> j in picks || picks[n - 1] < j)
  }

  /** A group is found if and only if n - 1 others are in reach of the head; it is the head
      and the first n - 1 of them, in order, and everyone else stays, in order. */
  lemma SelectMeans(buffer: seq<Buffered>, n: nat, now: int) returns (picks: seq<int>, rest: seq<int>)
    requires n >= 1 && buffer != [] && AllFit(buffer, now)
    ensures Select(buffer, n, now).Found? <==> |WithinReach(buffer, now)| >= n - 1
    ensures Select(buffer, n, now).Found? ==>
      var Found(group, remaining) := Select(buffer, n, now);
      EarliestInReach(n, buffer, now, group, remaining, picks, rest)
  {
    var near := NearHead(buffer, now);
    NearHeadIsInReach(buffer, now);
    picks, rest := SelectNearMeans(buffer, n, near);
    hide InReach, Fits, NearHead, SelectNear;
    assert NearSet(near, buffer, |buffer|) == WithinReach(buffer, now);
    if Select(buffer, n, now).Found? {
      PicksPastHead(buffer, picks, n);
    }
  }

  lemma PicksPastHead(buffer: seq<Buffered>, picks: seq<int>, n: nat)
    requires |picks| == n >= 1 && picks[0] == 0
    requires exists group :: Picks(group, buffer, picks)
    ensures forall k :: 1 <= k < n ==> 1 <= picks[k] < |buffer|
  {
  }

  lemma NearHeadIsInReach(buffer: seq<Buffered>, now: int)
    requires buffer != [] && AllFit(buffer, now)
    ensures forall j :: 1 <= j < |buffer| ==> (NearHead(buffer, now)(buffer[j]) <==> InReach(buffer[0].entry, buffer[j].entry, now))
  {
    forall j | 1 <= j < |buffer|
      ensures NearHead(buffer, now)(buffer[j]) <==> InReach(buffer[0].entry, buffer[j].entry, now)
    {
      NearIsInReach(buffer[0].entry, buffer[j].entry, now);
    }
  }

  // ---- the fifty-second bound -------------------------------------------------

  predicate OneBand(xs: seq<Buffered>) {
    forall b :: b in xs ==>
      InRange(b.entry.rating) && ComputeRatingBand(b.entry.rating) == ComputeRatingBand(xs[0].entry.rating)
  }

  lemma SameBandIsNear(a: QueueEntry, b: QueueEntry)
    requires ComputeRatingBand(a.rating) == ComputeRatingBand(b.rating)
    requires InRange(a.rating) && InRange(b.rating)
    ensures Near(a, b, 300)
  {
    BandSpread(b.rating, a.rating);
    DiffExactIff(b.rating, a.rating);
  }

  /** Ratings of one band, a full buffer and a head that has waited fifty seconds
      always yield a group. */
  lemma FiftySeconds(buffer: seq<Buffered>, n: nat, now: int)
    requires 1 <= n <= |buffer|
    requires OneBand(buffer)
    requires 50 <= WaitSecs(now, buffer[0].entry.enqueuedAt) <= LONGEST_EXACT_WAIT
    ensures Select(buffer, n, now).Found?
  {
    var head := buffer[0].entry;
    WindowMonotone(50, WaitSecs(now, head.enqueuedAt));
    forall j | 1 <= j < |buffer|
      ensures NearHead(buffer, now)(buffer[j])
    {
      assert buffer[j] in buffer && buffer[0] in buffer;
      SameBandIsNear(head, buffer[j].entry);
    }
    CountBound(NearHead(buffer, now), buffer, |buffer|);
    SelectExact(buffer, n, now);
  }

  // ---- the loop of the source ---------------------------------------------------

  /** The entries of buffer[..i] whose flag is not set, in order. */
  function Unchosen(buffer: seq<Buffered>, chosen: seq<bool>, i: nat): seq<Buffered>
    requires i <= |chosen| == |buffer|
  {
    if i == 0 then []
    else if chosen[i - 1] then Unchosen(buffer, chosen, i - 1)
    else Unchosen(buffer, chosen, i - 1) + [buffer[i - 1]]
  }

  lemma {:induction false} UnchosenSame(buffer: seq<Buffered>, f: seq<bool>, g: seq<bool>, i: nat)
    requires i <= |f| == |g| == |buffer|
    requires forall j :: 0 <= j < i ==> f[j] == g[j]
    ensures Unchosen(buffer, f, i) == Unchosen(buffer, g, i)
  {
    if i > 0 {
      UnchosenSame(buffer, f, g, i - 1);
    }
  }

  lemma {:induction false} UnchosenRest(buffer: seq<Buffered>, flags: seq<bool>, i: nat, j: nat)
    requires i <= j <= |flags| == |buffer|
    requires forall k :: i <= k < j ==> !flags[k]
    ensures Unchosen(buffer, flags, j) == Unchosen(buffer, flags, i) + buffer[i..j]
    decreases j
  {
    if i < j {
      UnchosenRest(buffer, flags, i, j - 1);
      assert buffer[i..j] == buffer[i..j - 1] + [buffer[j - 1]];
    }
  }

  method SelectGroup(buffer: seq<Buffered>, n: nat, now: int)
    returns (group: seq<Buffered>, remaining: seq<Buffered>, found: bool)
    requires n >= 1
    ensures found <==> Select(buffer, n, now).Found?
    ensures found ==> Select(buffer, n, now) == Found(group, remaining)
    ensures !found ==> group == [] && remaining == buffer
    ensures buffer != [] && AllFit(buffer, now) ==> (found <==> |WithinReach(buffer, now)| >= n - 1)
    ensures found && AllFit(buffer, now) ==>
      exists picks: seq<int>, rest: seq<int> :: EarliestInReach(n, buffer, now, group, remaining, picks, rest)
  {
    if buffer != [] && AllFit(buffer, now) {
      ghost var picks, rest := SelectMeans(buffer, n, now);
    }
    hide InReach, EarliestInReach, AllFit, WithinReach;
    if |buffer| < n {
      return [], buffer, false;
    }
    var anchor := buffer[0];
    var waitSecs := WaitSecs(now, anchor.entry.enqueuedAt);
    var window := Wrap32(RATING_DIFF_ALLOWANCE + Wrap32(RATING_EXPAND_PER_SECOND * waitSecs as int) as int);
    if window > MAX_RATING_DIFF {
      window := MAX_RATING_DIFF;
    }
    var chosen: seq<bool>;
    group, chosen := Fill(buffer, n, window, NearHead(buffer, now));
    if |group| < n {
      return [], buffer, false;
    }
    remaining := [];
    for k := 0 to |buffer|
      invariant remaining == Unchosen(buffer, chosen, k)
    {
      if !chosen[k] {
        remaining := remaining + [buffer[k]];
      }
    }
    found := true;
  }

  /** The filling loop: the group and the flags of the chosen entries. */
  method Fill(buffer: seq<Buffered>, n: nat, window: int32, ghost near: Buffered -> bool)
    returns (group: seq<Buffered>, flags: seq<bool>)
    requires 1 <= n <= |buffer|
    requires near == InWindow(buffer[0].entry, window)
    ensures |flags| == |buffer|
    ensures group == Group(near, n, buffer, |buffer|)
    ensures Unchosen(buffer, flags, |buffer|) == Left(near, n, buffer, |buffer|)
  {
    hide Group, Left, Unchosen;
    var anchor := buffer[0];
    group := [anchor];
    var chosen := new bool[|buffer|](_ => false);
    chosen[0] := true;
    FillStarts(near, n, buffer, chosen[..]);
    var i := 1;
    while i < |buffer| && |group| < n
      invariant 1 <= i <= |buffer|
      invariant group == Group(near, n, buffer, i)
      invariant Unchosen(buffer, chosen[..], i) == Left(near, n, buffer, i)
      invariant forall j :: i <= j < |buffer| ==> !chosen[j]
    {
      ghost var before := chosen[..];
      var isNear := WithinWindow(buffer[i], anchor, window);
      if isNear {
        group := group + [buffer[i]];
        chosen[i] := true;
      }
      FillStep(near, n, buffer, i, before, chosen[..], isNear);
      i := i + 1;
    }
    flags := chosen[..];
    FillDone(near, n, buffer, i, flags);
  }

  lemma FillStarts(near: Buffered -> bool, n: nat, buffer: seq<Buffered>, flags: seq<bool>)
    requires 1 <= n <= |buffer| == |flags| && flags[0]
    ensures Group(near, n, buffer, 1) == [buffer[0]] && Unchosen(buffer, flags, 1) == Left(near, n, buffer, 1)
  {
  }

  lemma FillStep(near: Buffered -> bool, n: nat, buffer: seq<Buffered>, i: nat, before: seq<bool>, after: seq<bool>, flag: bool)
    requires 1 <= i < |buffer| == |before| == |after|
    requires |Group(near, n, buffer, i)| < n && flag == near(buffer[i])
    requires Unchosen(buffer, before, i) == Left(near, n, buffer, i)
    requires !before[i] && after == before[i := flag]
    ensures Unchosen(buffer, after, i + 1) == Left(near, n, buffer, i + 1)
    ensures Group(near, n, buffer, i + 1) == Group(near, n, buffer, i) + if flag then [buffer[i]] else []
  {
    UnchosenSame(buffer, before, after, i);
  }

  lemma FillDone(near: Buffered -> bool, n: nat, buffer: seq<Buffered>, i: nat, flags: seq<bool>)
    requires 1 <= i <= |buffer| == |flags|
    requires i == |buffer| || |Group(near, n, buffer, i)| >= n
    requires Unchosen(buffer, flags, i) == Left(near, n, buffer, i)
    requires forall j :: i <= j < |buffer| ==> !flags[j]
    ensures Group(near, n, buffer, |buffer|) == Group(near, n, buffer, i)
    ensures Unchosen(buffer, flags, |buffer|) == Left(near, n, buffer, |buffer|)
  {
    UnchosenRest(buffer, flags, i, |buffer|);
    if i < |buffer| {
      GroupFull(near, n, buffer, i, |buffer|);
    }
  }

  method WithinWindow(other: Buffered, anchor: Buffered, window: int32) returns (isNear: bool)
    ensures isNear <==> InWindow(anchor.entry, window)(other)
  {
    var diff := Wrap32(other.entry.rating as int - anchor.entry.rating as int);
    if diff < 0 {
      diff := Wrap32(-(diff as int));
    }
    isNear := diff <= window;
  }
}
