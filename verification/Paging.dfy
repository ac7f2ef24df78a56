/**
 Reading a run's events page by page while its log is still growing.

 `Page` is the query of `get_run_events`: the rows that match, in `seq` order, from an offset, up
 to a limit. Rows are told apart by `seq`, since two events may look alike.
 */
module Paging {
  import opened Wrappers
  import opened Simulation
  import opened Runs
  import opened RunProperties

  datatype Filter = Filter(
    since: Option<int>, train: Option<string>, component: Option<string>, kind: Option<EventKind>)

  predicate Keeps(f: Filter, e: SimEvent) {
    && (f.since.Some? ==> f.since.value <= e.time)
    && (f.train.Some? ==> f.train.value == e.notice.trainUid)
    && (f.component.Some? ==> f.component.value == e.notice.componentUid)
    && (f.kind.Some? ==> f.kind.value == e.notice.event)
  }

  // WHERE
  function Matching(f: Filter, log: Log): set<nat> {
    set k | k in log && Keeps(f, log[k])
  }

  ghost function Greatest(keys: set<nat>): (r: nat)
    requires keys != {}
    ensures r in keys && forall k :: k in keys ==> k <= r
    decreases keys
  {
    var k :| k in keys;
    if keys == {k} then k
    else
      var rest := Greatest(keys - {k});
      assert keys == (keys - {k}) + {k};
      if k < rest then rest else k
  }

  // ORDER BY seq
  ghost function Ascending(keys: set<nat>): seq<nat>
    decreases keys
  {
    if keys == {} then [] else Ascending(keys - {Greatest(keys)}) + [Greatest(keys)]
  }

  // OFFSET and LIMIT
  function Slice(rows: seq<nat>, offset: nat, limit: nat): seq<nat> {
    var n := if |rows| <= offset then 0 else if |rows| <= offset + limit then |rows| - offset else limit;
    seq(n, i requires 0 <= i < n => rows[offset + i])
  }

  ghost function Selected(f: Filter, log: Log): seq<nat> {
    Ascending(Matching(f, log))
  }

  ghost function Page(f: Filter, log: Log, offset: nat, limit: nat): seq<nat> {
    Slice(Selected(f, log), offset, limit)
  }

  lemma {:induction false} AscendingHolds(keys: set<nat>)
    ensures forall k :: k in Ascending(keys) <==> k in keys
    ensures forall i, j :: 0 <= i < j < |Ascending(keys)| ==> Ascending(keys)[i] < Ascending(keys)[j]
    decreases keys
  {
    if keys == {} {
    } else {
      var top := Greatest(keys);
      var below := Ascending(keys - {top});
      AscendingHolds(keys - {top});
      forall i | 0 <= i < |below| ensures below[i] < top {
        assert below[i] in below;
      }
    }
  }

  // Keys added behind all others come last in the order.
  lemma {:induction false} AscendingExtends(a: set<nat>, b: set<nat>)
    requires a <= b && forall j, k :: j in a && k in b - a ==> j < k
    ensures Ascending(a) <= Ascending(b)
    decreases b
  {
    if b - a == {} {
      assert b <= a by {
        forall k | k in b ensures k in a { assert k !in b - a; }
      }
      assert a == b;
    } else {
      var top := Greatest(b);
      var extra :| extra in b - a;
      assert top !in a;
      forall j, k | j in a && k in (b - {top}) - a ensures j < k {
        assert k in b - a;
      }
      AscendingExtends(a, b - {top});
    }
  }

  /** Filtering, ordering and paging a log: what is selected is every row that is not before the time asked
      for and is of the train, the component and the kind of event asked for, in order of `seq`; and every
      page holds exactly its window of that, so that filtering and then paging is paging the filtered log. */
  lemma PagesAreWindows(f: Filter, log: Log, offset: nat, limit: nat)
    ensures forall k :: k in Selected(f, log) <==>
              && k in log
              && (f.since.None? || f.since.value <= log[k].time)
              && (f.train.None? || log[k].notice.trainUid == f.train.value)
              && (f.component.None? || log[k].notice.componentUid == f.component.value)
              && (f.kind.None? || log[k].notice.event == f.kind.value)
    ensures forall i, j :: 0 <= i < j < |Selected(f, log)| ==> Selected(f, log)[i] < Selected(f, log)[j]
    ensures var page := Page(f, log, offset, limit);
            && |page| <= limit
            && (forall i :: 0 <= i < |page| ==>
                  offset + i < |Selected(f, log)| && page[i] == Selected(f, log)[offset + i])
            && (|page| < limit ==> |Selected(f, log)| <= offset + |page|)
  {
    AscendingHolds(Matching(f, log));
  }

  /** Whatever the filter, a log that has grown selects what it selected before, and then more. */
  lemma SelectionGrows(f: Filter, a: Log, b: Log)
    requires LogExtends(a, b)
    ensures Selected(f, a) <= Selected(f, b)
  {
    forall j, k | j in Matching(f, a) && k in Matching(f, b) - Matching(f, a) ensures j < k {
      assert k !in a;
    }
    AscendingExtends(Matching(f, a), Matching(f, b));
  }

  /*************************************** Reading a growing log ***************************************/

  // The selected rows as they stand at each successive read, and in the end.
  ghost predicate Growing(seen: seq<seq<nat>>, last: seq<nat>) {
    && (forall i :: 0 <= i < |seen| ==> seen[i] <= last)
    && (forall i, j :: 0 <= i <= j < |seen| ==> |seen[i]| <= |seen[j]|)
  }

  ghost predicate Distinct(rows: seq<nat>) {
    forall i, j :: 0 <= i < j < |rows| ==> rows[i] != rows[j]
  }

  // What a reader receives from its `k`-th read on, if it goes on from as many rows as it has
  // received.
  function ReadOn(seen: seq<seq<nat>>, limit: nat, k: nat, offset: nat): seq<nat>
    decreases |seen| - k
  {
    if |seen| <= k then []
    else
      var page := Slice(seen[k], offset, limit);
      page + ReadOn(seen, limit, k + 1, offset + |page|)
  }

  // `part` is what `rows` has from `offset` on, as far as it goes.
  ghost predicate Window(part: seq<nat>, rows: seq<nat>, offset: nat) {
    offset + |part| <= |rows| && forall i :: 0 <= i < |part| ==> part[i] == rows[offset + i]
  }

  lemma WindowsJoin(first: seq<nat>, second: seq<nat>, rows: seq<nat>, offset: nat)
    requires Window(first, rows, offset)
    ensures Window(first + second, rows, offset) <==> Window(second, rows, offset + |first|)
  {
    var both := first + second;
    if Window(both, rows, offset) {
      forall i | 0 <= i < |second| ensures second[i] == rows[offset + |first| + i] {
        assert both[|first| + i] == second[i];
      }
    }
  }

  lemma PageIsWindow(rows: seq<nat>, last: seq<nat>, offset: nat, limit: nat)
    requires rows <= last && offset <= |rows|
    ensures Window(Slice(rows, offset, limit), last, offset)
    ensures offset + |Slice(rows, offset, limit)| <= |rows|
  {
  }

  // Where the next read starts.
  lemma NextOffset(seen: seq<seq<nat>>, last: seq<nat>, limit: nat, k: nat, offset: nat)
    requires k < |seen| && Growing(seen, last) && offset <= |seen[k]|
    ensures var next := offset + |Slice(seen[k], offset, limit)|;
            next <= |seen[k]| && (k + 1 < |seen| ==> next <= |seen[k + 1]|)
  {
    assert k + 1 < |seen| ==> |seen[k]| <= |seen[k + 1]|;
  }

  lemma NothingLeft(seen: seq<seq<nat>>, last: seq<nat>, limit: nat, k: nat, offset: nat)
    requires |seen| <= k && offset <= |last|
    ensures Window(ReadOn(seen, limit, k, offset), last, offset)
  {
  }

  lemma OneReadInFront(seen: seq<seq<nat>>, last: seq<nat>, limit: nat, k: nat, offset: nat)
    requires k < |seen| && seen[k] <= last && offset <= |seen[k]|
    requires var next := offset + |Slice(seen[k], offset, limit)|;
             Window(ReadOn(seen, limit, k + 1, next), last, next)
    ensures Window(ReadOn(seen, limit, k, offset), last, offset)
  {
    var page := Slice(seen[k], offset, limit);
    PageIsWindow(seen[k], last, offset, limit);
    WindowsJoin(page, ReadOn(seen, limit, k + 1, offset + |page|), last, offset);
  }

  /** A reader that goes on from what it has received gets the final selection from where it
      started, as far as it has got: nothing is skipped or repeated. */
  lemma {:induction false} ReadingOnSkipsNothing(seen: seq<seq<nat>>, last: seq<nat>, limit: nat, k: nat, offset: nat)
    requires k < |seen| && Growing(seen, last) && offset <= |seen[k]|
    ensures Window(ReadOn(seen, limit, k, offset), last, offset)
    decreases |seen| - k
  {
    var next := offset + |Slice(seen[k], offset, limit)|;
    NextOffset(seen, last, limit, k, offset);
    if k + 1 == |seen| {
      NothingLeft(seen, last, limit, k + 1, next);
    } else {
      ReadingOnSkipsNothing(seen, last, limit, k + 1, next);
    }
    OneReadInFront(seen, last, limit, k, offset);
  }

  // The page of the reader's last read.
  function LastPage(seen: seq<seq<nat>>, limit: nat, k: nat, offset: nat): seq<nat>
    requires k < |seen|
    decreases |seen| - k
  {
    var page := Slice(seen[k], offset, limit);
    if k + 1 == |seen| then page else LastPage(seen, limit, k + 1, offset + |page|)
  }

  /** And once a page comes back short, it has received everything there is so far. */
  lemma {:induction false} ReadingOnCatchesUp(seen: seq<seq<nat>>, last: seq<nat>, limit: nat, k: nat, offset: nat)
    requires k < |seen| && Growing(seen, last) && offset <= |seen[k]|
    requires |LastPage(seen, limit, k, offset)| < limit
    ensures offset + |ReadOn(seen, limit, k, offset)| == |seen[|seen| - 1]|
    decreases |seen| - k
  {
    var page := Slice(seen[k], offset, limit);
    NextOffset(seen, last, limit, k, offset);
    if k + 1 == |seen| {
      assert ReadOn(seen, limit, k + 1, offset + |page|) == [];
    } else {
      ReadingOnCatchesUp(seen, last, limit, k + 1, offset + |page|);
    }
  }

  // What a reader receives that moves on by the page size, whether or not the page was full.
  function Stride(seen: seq<seq<nat>>, limit: nat, k: nat, offset: nat): seq<nat>
    decreases |seen| - k
  {
    if |seen| <= k then [] else Slice(seen[k], offset, limit) + Stride(seen, limit, k + 1, offset + limit)
  }

  // Where a striding reader is at its `i`-th read, if it was at `offset` at its `k`-th.
  function StrideOffset(limit: nat, k: nat, offset: nat, i: nat): nat
    decreases i
  {
    if i <= k then offset else StrideOffset(limit, k, offset, i - 1) + limit
  }

  lemma {:induction false} StrideOffsetIs(limit: nat, k: nat, offset: nat, i: nat)
    requires k <= i
    ensures StrideOffset(limit, k, offset, i) == offset + (i - k) * limit
    decreases i
  {
    if i == k {
    } else {
      StrideOffsetIs(limit, k, offset, i - 1);
      assert (i - k) * limit == (i - 1 - k) * limit + limit;
    }
  }

  lemma {:induction false} LaterStrides(limit: nat, k: nat, offset: nat, i: nat, j: nat)
    requires k <= i < j
    ensures StrideOffset(limit, k, offset, i) + limit <= StrideOffset(limit, k, offset, j)
    decreases j
  {
    if j == i + 1 {
    } else {
      LaterStrides(limit, k, offset, i, j - 1);
    }
  }

  /** From the sizes alone: after a read that found fewer rows than it takes to fill its page, no
      read ever found rows past the offset the reader had moved on to. */
  ghost predicate NothingPastShortPages(seen: seq<seq<nat>>, limit: nat, k: nat, offset: nat) {
    forall i, j :: k <= i < j < |seen| && |seen[i]| < StrideOffset(limit, k, offset, i) + limit ==>
      |seen[j]| <= StrideOffset(limit, k, offset, j)
  }

  lemma {:induction false} OneStride(limit: nat, k: nat, offset: nat, i: nat)
    requires k < i
    ensures StrideOffset(limit, k + 1, offset + limit, i) == StrideOffset(limit, k, offset, i)
    decreases i
  {
    if i == k + 1 {
      assert StrideOffset(limit, k, offset, k) == offset;
    } else {
      OneStride(limit, k, offset, i - 1);
    }
  }

  // A striding reader receives nothing exactly when there is nothing past any of its offsets.
  lemma {:induction false} StrideReceivesNothing(seen: seq<seq<nat>>, limit: nat, k: nat, offset: nat)
    requires 0 < limit
    ensures Stride(seen, limit, k, offset) == [] <==>
            (forall j :: k <= j < |seen| ==> |seen[j]| <= StrideOffset(limit, k, offset, j))
    decreases |seen| - k
  {
    if |seen| <= k {
    } else {
      StrideReceivesNothing(seen, limit, k + 1, offset + limit);
      forall j: nat | k < j ensures StrideOffset(limit, k + 1, offset + limit, j) == StrideOffset(limit, k, offset, j) {
        OneStride(limit, k, offset, j);
      }
      if Stride(seen, limit, k + 1, offset + limit) == [] && |seen[k]| <= offset {
        forall j | k <= j < |seen| ensures |seen[j]| <= StrideOffset(limit, k, offset, j) {
          assert j == k || |seen[j]| <= StrideOffset(limit, k + 1, offset + limit, j);
        }
      }
    }
  }

  // What a striding reader receives first, if anything, is at or past its offset.
  lemma {:induction false} StrideStartsLater(seen: seq<seq<nat>>, last: seq<nat>, limit: nat, k: nat, offset: nat)
    requires Growing(seen, last) && Stride(seen, limit, k, offset) != []
    ensures exists i :: offset <= i < |last| && Stride(seen, limit, k, offset)[0] == last[i]
    decreases |seen| - k
  {
    assert seen[k] <= last;
    if Slice(seen[k], offset, limit) == [] {
      StrideStartsLater(seen, last, limit, k + 1, offset + limit);
      var i :| offset + limit <= i < |last| && Stride(seen, limit, k + 1, offset + limit)[0] == last[i];
    } else {
      assert Stride(seen, limit, k, offset)[0] == last[offset];
    }
  }

  // Rows received after a short page, whose next row was `at`, are not the next rows.
  lemma AfterAShortPage(seen: seq<seq<nat>>, last: seq<nat>, limit: nat, k: nat, offset: nat, at: nat)
    requires Growing(seen, last) && Distinct(last) && at < offset && at <= |last|
    ensures Window(Stride(seen, limit, k, offset), last, at) <==> Stride(seen, limit, k, offset) == []
  {
    if Stride(seen, limit, k, offset) != [] {
      StrideStartsLater(seen, last, limit, k, offset);
    }
  }

  // If this page is short, the sizes that matter are those of all later reads.
  lemma ShortPageFirst(seen: seq<seq<nat>>, limit: nat, k: nat, offset: nat)
    requires k < |seen| && offset <= |seen[k]| < offset + limit
    ensures NothingPastShortPages(seen, limit, k, offset) <==> Stride(seen, limit, k + 1, offset + limit) == []
  {
    StrideReceivesNothing(seen, limit, k + 1, offset + limit);
    forall i: nat | k < i ensures StrideOffset(limit, k + 1, offset + limit, i) == StrideOffset(limit, k, offset, i) {
      OneStride(limit, k, offset, i);
    }
  }

  // If it is full, what matters is what matters from the next read on.
  lemma FullPageFirst(seen: seq<seq<nat>>, limit: nat, k: nat, offset: nat)
    requires k < |seen| && offset + limit <= |seen[k]|
    ensures NothingPastShortPages(seen, limit, k, offset) <==> NothingPastShortPages(seen, limit, k + 1, offset + limit)
  {
    forall i: nat | k < i ensures StrideOffset(limit, k + 1, offset + limit, i) == StrideOffset(limit, k, offset, i) {
      OneStride(limit, k, offset, i);
    }
    if NothingPastShortPages(seen, limit, k + 1, offset + limit) {
      forall i, j | k <= i < j < |seen| && |seen[i]| < StrideOffset(limit, k, offset, i) + limit
        ensures |seen[j]| <= StrideOffset(limit, k, offset, j)
      {
        assert |seen[i]| < StrideOffset(limit, k + 1, offset + limit, i) + limit;
      }
    } else {
      var i, j :| k + 1 <= i < j < |seen| && |seen[i]| < StrideOffset(limit, k + 1, offset + limit, i) + limit
                  && |seen[j]| > StrideOffset(limit, k + 1, offset + limit, j);
      assert |seen[i]| < StrideOffset(limit, k, offset, i) + limit;
    }
  }

  lemma ShortPageJoins(page: seq<nat>, rest: seq<nat>, last: seq<nat>, offset: nat)
    requires Window(page, last, offset) && (Window(rest, last, offset + |page|) <==> rest == [])
    ensures Window(page + rest, last, offset) <==> rest == []
  {
    WindowsJoin(page, rest, last, offset);
  }

  lemma StridesOnFromShortPage(seen: seq<seq<nat>>, last: seq<nat>, limit: nat, k: nat, offset: nat)
    requires k < |seen| && Growing(seen, last) && offset <= |seen[k]| < offset + limit && Distinct(last)
    ensures Window(Stride(seen, limit, k, offset), last, offset) <==> Stride(seen, limit, k + 1, offset + limit) == []
  {
    var page := Slice(seen[k], offset, limit);
    PageIsWindow(seen[k], last, offset, limit);
    AfterAShortPage(seen, last, limit, k + 1, offset + limit, offset + |page|);
    ShortPageJoins(page, Stride(seen, limit, k + 1, offset + limit), last, offset);
  }

  lemma StridesOnFromFullPage(seen: seq<seq<nat>>, last: seq<nat>, limit: nat, k: nat, offset: nat)
    requires k < |seen| && Growing(seen, last) && offset + limit <= |seen[k]|
    ensures Window(Stride(seen, limit, k, offset), last, offset)
            <==> Window(Stride(seen, limit, k + 1, offset + limit), last, offset + limit)
  {
    var page := Slice(seen[k], offset, limit);
    PageIsWindow(seen[k], last, offset, limit);
    WindowsJoin(page, Stride(seen, limit, k + 1, offset + limit), last, offset);
  }

  // Step by step: a short page is followed by empty ones only.
  predicate NothingAfterShortPage(seen: seq<seq<nat>>, limit: nat, k: nat, offset: nat)
    decreases |seen| - k
  {
    || |seen| <= k
    || (if |seen[k]| < offset + limit then Stride(seen, limit, k + 1, offset + limit) == []
        else NothingAfterShortPage(seen, limit, k + 1, offset + limit))
  }

  lemma {:induction false} NothingAfterIsNothingPast(seen: seq<seq<nat>>, last: seq<nat>, limit: nat,
                                                    k: nat, offset: nat)
    requires Growing(seen, last) && (k < |seen| ==> offset <= |seen[k]|)
    ensures NothingAfterShortPage(seen, limit, k, offset) <==> NothingPastShortPages(seen, limit, k, offset)
    decreases |seen| - k
  {
    if |seen| <= k {
    } else if |seen[k]| < offset + limit {
      ShortPageFirst(seen, limit, k, offset);
    } else {
      FullPageFirst(seen, limit, k, offset);
      NothingAfterIsNothingPast(seen, last, limit, k + 1, offset + limit);
    }
  }

  lemma {:induction false} StridingSkipsNothingOrShort(seen: seq<seq<nat>>, last: seq<nat>, limit: nat,
                                                      k: nat, offset: nat)
    requires k < |seen| && Growing(seen, last) && offset <= |seen[k]| && Distinct(last)
    ensures Window(Stride(seen, limit, k, offset), last, offset) <==> NothingAfterShortPage(seen, limit, k, offset)
    decreases |seen| - k
  {
    if |seen[k]| < offset + limit {
      StridesOnFromShortPage(seen, last, limit, k, offset);
    } else {
      StridesOnFromFullPage(seen, last, limit, k, offset);
      if k + 1 < |seen| {
        assert |seen[k]| <= |seen[k + 1]|;
        StridingSkipsNothingOrShort(seen, last, limit, k + 1, offset + limit);
      } else {
        assert Stride(seen, limit, k + 1, offset + limit) == [];
      }
    }
  }

  /** Moving on by a fixed stride instead gives that exactly when no read found rows past its offset
      after one that found too few for a full page: a short page of a growing log hides the rows that
      fill it up later. */
  lemma StridingSkipsNothingExactlyWhen(seen: seq<seq<nat>>, last: seq<nat>, limit: nat, k: nat, offset: nat)
    requires k < |seen| && Growing(seen, last) && offset <= |seen[k]| && Distinct(last)
    ensures Window(Stride(seen, limit, k, offset), last, offset) <==> NothingPastShortPages(seen, limit, k, offset)
  {
    StridingSkipsNothingOrShort(seen, last, limit, k, offset);
    NothingAfterIsNothingPast(seen, last, limit, k, offset);
  }
}
