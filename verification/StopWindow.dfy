/** The part of a stop list that travellers can use: from the first boarding to the last alighting. */
module StopWindow {

  /** Index of the first element satisfying p, or the length. */
  function FirstIndex<T(!new)>(xs: seq<T>, p: T -> bool): (r: nat)
    ensures r <= |xs|
    ensures r < |xs| ==> p(xs[r])
    ensures forall i :: 0 <= i < r ==> !p(xs[i])
  {
    if xs == [] || p(xs[0]) then 0 else 1 + FirstIndex(xs[1..], p)
  }

  /** One more than the index of the last element satisfying p, or zero. */
  function EndIndex<T(!new)>(xs: seq<T>, p: T -> bool): (r: nat)
    ensures r <= |xs|
    ensures r > 0 ==> p(xs[r - 1])
    ensures forall i :: r <= i < |xs| ==> !p(xs[i])
  {
    if xs == [] then 0
    else if p(xs[|xs| - 1]) then |xs|
    else EndIndex(xs[..|xs| - 1], p)
  }

  /** The elements that can be boarded or alighted, in order. */
  function Useful<T(!new)>(xs: seq<T>, board: T -> bool, alight: T -> bool): seq<T> {
    if xs == [] then []
    else
      var last := xs[|xs| - 1];
      var before := Useful(xs[..|xs| - 1], board, alight);
      if board(last) || alight(last) then before + [last] else before
  }

  lemma {:induction false} UsefulMembers<T(!new)>(xs: seq<T>, board: T -> bool, alight: T -> bool)
    ensures forall x :: x in Useful(xs, board, alight) <==> x in xs && (board(x) || alight(x))
  {
    if xs != [] {
      UsefulMembers(xs[..|xs| - 1], board, alight);
      assert xs == xs[..|xs| - 1] + [xs[|xs| - 1]];
    }
  }

  /** Cutting one element further. */
  lemma UsefulNext<T(!new)>(xs: seq<T>, board: T -> bool, alight: T -> bool, from: nat, to: nat)
    requires from <= to < |xs|
    ensures Useful(xs[from..to + 1], board, alight)
            == Useful(xs[from..to], board, alight) + if board(xs[to]) || alight(xs[to]) then [xs[to]] else []
  {
    assert xs[from..to + 1][..to - from] == xs[from..to];
  }

  /** Useless elements at the end do not matter. */
  lemma {:induction false} UselessTail<T(!new)>(xs: seq<T>, board: T -> bool, alight: T -> bool, from: nat, end: nat,
                                                to: nat)
    requires from <= end <= to <= |xs|
    requires forall i :: end <= i < to ==> !board(xs[i]) && !alight(xs[i])
    ensures Useful(xs[from..to], board, alight) == Useful(xs[from..end], board, alight)
  {
    if end < to {
      UselessTail(xs, board, alight, from, end, to - 1);
      UsefulNext(xs, board, alight, from, to - 1);
    }
  }

  /** The useful elements between the first that can be boarded and the last that can be alighted. */
  function Window<T(!new)>(xs: seq<T>, board: T -> bool, alight: T -> bool): seq<T> {
    var first, end := FirstIndex(xs, board), EndIndex(xs, alight);
    if first < end then Useful(xs[first..end], board, alight) else []
  }

  lemma {:induction false} UsefulConcat<T(!new)>(xs: seq<T>, ys: seq<T>, board: T -> bool, alight: T -> bool)
    ensures Useful(xs + ys, board, alight) == Useful(xs, board, alight) + Useful(ys, board, alight)
  {
    if ys == [] {
      assert xs + ys == xs;
    } else {
      var last := ys[|ys| - 1];
      UsefulConcat(xs, ys[..|ys| - 1], board, alight);
      assert (xs + ys)[..|xs + ys| - 1] == xs + ys[..|ys| - 1];
      assert (xs + ys)[|xs + ys| - 1] == last;
    }
  }

  lemma {:induction false} UsefulIsFixed<T(!new)>(xs: seq<T>, board: T -> bool, alight: T -> bool)
    requires forall x :: x in xs ==> board(x) || alight(x)
    ensures Useful(xs, board, alight) == xs
  {
    if xs != [] {
      UsefulIsFixed(xs[..|xs| - 1], board, alight);
      assert xs == xs[..|xs| - 1] + [xs[|xs| - 1]];
    }
  }

  lemma {:induction false} UsefulEnds<T(!new)>(xs: seq<T>, board: T -> bool, alight: T -> bool)
    requires xs != [] && board(xs[0]) && alight(xs[|xs| - 1])
    ensures var w := Useful(xs, board, alight); w != [] && w[0] == xs[0] && w[|w| - 1] == xs[|xs| - 1]
  {
    assert xs == [xs[0]] + xs[1..];
    UsefulConcat([xs[0]], xs[1..], board, alight);
    UsefulIsFixed([xs[0]], board, alight);
  }

  /** A non-empty window starts with a boarding and ends with an alighting. */
  lemma WindowEnds<T(!new)>(xs: seq<T>, board: T -> bool, alight: T -> bool)
    ensures var w := Window(xs, board, alight);
            w != [] ==> board(w[0]) && alight(w[|w| - 1])
  {
    var first, end := FirstIndex(xs, board), EndIndex(xs, alight);
    if first < end {
      UsefulEnds(xs[first..end], board, alight);
    }
  }

  /** Taking the window of a window changes nothing. */
  lemma WindowIsFixed<T(!new)>(xs: seq<T>, board: T -> bool, alight: T -> bool)
    ensures Window(Window(xs, board, alight), board, alight) == Window(xs, board, alight)
  {
    var w := Window(xs, board, alight);
    WindowEnds(xs, board, alight);
    if w != [] {
      UsefulMembers(xs[FirstIndex(xs, board)..EndIndex(xs, alight)], board, alight);
      assert FirstIndex(w, board) == 0 && EndIndex(w, alight) == |w|;
      assert w[0..|w|] == w;
      UsefulIsFixed(w, board, alight);
    }
  }

  /** The i-th element is useful, with a boarding no later and an alighting no earlier. */
  ghost predicate Reachable<T(!new)>(xs: seq<T>, board: T -> bool, alight: T -> bool, i: nat)
    requires i < |xs|
  {
    && (board(xs[i]) || alight(xs[i]))
    && (exists j :: 0 <= j <= i && board(xs[j]))
    && (exists j :: i <= j < |xs| && alight(xs[j]))
  }

  /** The window contains exactly the reachable elements. */
  lemma WindowContents<T(!new)>(xs: seq<T>, board: T -> bool, alight: T -> bool, x: T)
    ensures x in Window(xs, board, alight)
      <==> exists i :: 0 <= i < |xs| && xs[i] == x && Reachable(xs, board, alight, i)
  {
    hide Useful, FirstIndex, EndIndex, Reachable;
    var first, end := FirstIndex(xs, board), EndIndex(xs, alight);
    if x in Window(xs, board, alight) {
      UsefulMembers(xs[first..end], board, alight);
      var k :| 0 <= k < |xs[first..end]| && xs[first..end][k] == x;
      BetweenEnds(xs, board, alight, first + k);
      assert xs[first + k] == x && Reachable(xs, board, alight, first + k);
    }
    if i :| 0 <= i < |xs| && xs[i] == x && Reachable(xs, board, alight, i) {
      BetweenEnds(xs, board, alight, i);
      UsefulMembers(xs[first..end], board, alight);
      assert xs[first..end][i - first] == x;
    }
  }

  lemma BetweenEnds<T(!new)>(xs: seq<T>, board: T -> bool, alight: T -> bool, i: nat)
    requires i < |xs|
    ensures Reachable(xs, board, alight, i)
      <==> FirstIndex(xs, board) <= i < EndIndex(xs, alight) && (board(xs[i]) || alight(xs[i]))
  {
  }

  // ---------------------------------------------------------------- building the window in one pass

  /** What a pass has picked before index idx, as long as it has not stopped. */
  ghost predicate Picked<T(!new)>(xs: seq<T>, board: T -> bool, alight: T -> bool, idx: nat, res: seq<T>)
    requires idx <= |xs|
  {
    var first, end := FirstIndex(xs, board), EndIndex(xs, alight);
    if idx <= first then res == []
    else
      && first < end && res == Useful(xs[first..idx], board, alight)
      && forall i :: end <= i < idx ==> !board(xs[i])
  }

  lemma NothingPicked<T(!new)>(xs: seq<T>, board: T -> bool, alight: T -> bool)
    ensures Picked(xs, board, alight, 0, [])
  {
  }

  /** Passing over an element that is of no use there. */
  lemma PickNothing<T(!new)>(xs: seq<T>, board: T -> bool, alight: T -> bool, idx: nat, res: seq<T>)
    requires idx < |xs| && Picked(xs, board, alight, idx, res)
    requires !board(xs[idx]) && (FirstIndex(xs, board) < idx ==> !alight(xs[idx]))
    ensures Picked(xs, board, alight, idx + 1, res)
  {
    hide Useful, FirstIndex, EndIndex;
    if FirstIndex(xs, board) < idx {
      UsefulNext(xs, board, alight, FirstIndex(xs, board), idx);
    }
  }

  /** Taking a useful element that an alighting follows. */
  lemma PickOne<T(!new)>(xs: seq<T>, board: T -> bool, alight: T -> bool, idx: nat, res: seq<T>)
    requires idx < |xs| && Picked(xs, board, alight, idx, res)
    requires board(xs[idx]) || (FirstIndex(xs, board) < idx && alight(xs[idx]))
    requires exists i :: idx <= i < |xs| && alight(xs[i])
    ensures Picked(xs, board, alight, idx + 1, res + [xs[idx]])
  {
    hide Useful, FirstIndex, EndIndex;
    var first := FirstIndex(xs, board);
    UsefulNext(xs, board, alight, first, idx);
    if first == idx {
      EmptyIsUseless(xs[first..idx], board, alight);
    }
  }

  lemma EmptyIsUseless<T(!new)>(xs: seq<T>, board: T -> bool, alight: T -> bool)
    requires xs == []
    ensures Useful(xs, board, alight) == []
  {
  }

  /** Once no alighting follows a boarding, what has been picked is the window. */
  lemma PickingStops<T(!new)>(xs: seq<T>, board: T -> bool, alight: T -> bool, idx: nat, res: seq<T>)
    requires idx <= |xs| && Picked(xs, board, alight, idx, res)
    requires FirstIndex(xs, board) <= idx
    requires forall i :: idx <= i < |xs| ==> !alight(xs[i])
    ensures res == Window(xs, board, alight)
  {
    hide Useful, FirstIndex, EndIndex;
    var first, end := FirstIndex(xs, board), EndIndex(xs, alight);
    if first < idx {
      UselessTail(xs, board, alight, first, end, idx);
    }
  }
}
