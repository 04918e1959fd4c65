/** Session-level events and the event sequence of a scan. */
module Scan {
  import opened Motion
  import opened ScanPaths

  /** A frame from the camera: the `index`-th snapshot taken in the session. */
  datatype Image = Snapshot(index: nat)

  /** What the session does, in order: camera calls, pauses, calls of the
      stage's `move`/`move_to`, and direct calls on the stepper controller. */
  datatype Event =
    | Capture(image: Image)
    | Save(image: Image, path: string)
    | Sleep(seconds: real)
    | MoveCall(amount: real)
    | MoveToCall(position: real)
    | CloseCamera
    | Controller(call: Command)

  /** Pause after each capture and after each move of a scan, in seconds. */
  const Settle: real := 0.5

  /** Row `row` (counting from 0) of a scan whose frame is snapshot `shot`:
      capture, settle, save, move by `spacing`, settle. */
  function ScanRow(shot: nat, row: nat, spacing: real): (evs: seq<Event>)
    ensures |evs| == 5
  {
    [Capture(Snapshot(shot)), Sleep(Settle), Save(Snapshot(shot), ScanPath(row + 1)), MoveCall(spacing), Sleep(Settle)]
  }

  /** The events of the first `n` rows of a scan started when `shots`
      snapshots had been taken. */
  function ScanEvents(shots: nat, n: nat, spacing: real): (evs: seq<Event>)
    ensures |evs| == 5 * n
    decreases n
  {
    if n == 0 then [] else ScanEvents(shots, n - 1, spacing) + ScanRow(shots + n - 1, n - 1, spacing)
  }

  lemma AppendAssoc<T>(a: seq<T>, b: seq<T>, c: seq<T>)
    ensures (a + b) + c == a + (b + c)
  {
  }

  lemma ScanEventsNext(shots: nat, i: nat, spacing: real)
    ensures ScanEvents(shots, i + 1, spacing) == ScanEvents(shots, i, spacing) + ScanRow(shots + i, i, spacing)
  {
  }

  lemma SliceLeft<T>(a: seq<T>, b: seq<T>, i: nat, j: nat)
    requires i <= j <= |a|
    ensures (a + b)[i..j] == a[i..j]
  {
  }

  lemma SliceRight<T>(a: seq<T>, b: seq<T>)
    ensures (a + b)[|a|..|a| + |b|] == b
  {
  }

  /** Rows appear in order, row `k` in positions `5k` to `5k + 4`. */
  lemma {:induction false} ScanRowAt(shots: nat, n: nat, spacing: real, k: nat)
    requires k < n
    ensures ScanEvents(shots, n, spacing)[5 * k .. 5 * k + 5] == ScanRow(shots + k, k, spacing)
    decreases n
  {
    var prev := ScanEvents(shots, n - 1, spacing);
    var row := ScanRow(shots + n - 1, n - 1, spacing);
    assert ScanEvents(shots, n, spacing) == prev + row;
    if k < n - 1 {
      ScanRowAt(shots, n - 1, spacing, k);
      SliceLeft(prev, row, 5 * k, 5 * k + 5);
    } else {
      SliceRight(prev, row);
    }
  }

  lemma ScanEventAt(shots: nat, n: nat, spacing: real, i: nat)
    requires i < 5 * n
    ensures ScanEvents(shots, n, spacing)[i] == ScanRow(shots + i / 5, i / 5, spacing)[i % 5]
  {
    var k := i / 5;
    ScanRowAt(shots, n, spacing, k);
    assert ScanEvents(shots, n, spacing)[i] == ScanEvents(shots, n, spacing)[5 * k .. 5 * k + 5][i % 5];
  }

  /** Two different saves of a scan use different paths and store different
      frames. */
  lemma ScanSavesDistinct(shots: nat, n: nat, spacing: real, i: nat, j: nat)
    requires i < j < 5 * n
    requires ScanEvents(shots, n, spacing)[i].Save? && ScanEvents(shots, n, spacing)[j].Save?
    ensures ScanEvents(shots, n, spacing)[i].path != ScanEvents(shots, n, spacing)[j].path
    ensures ScanEvents(shots, n, spacing)[i].image != ScanEvents(shots, n, spacing)[j].image
  {
    ScanEventAt(shots, n, spacing, i);
    ScanEventAt(shots, n, spacing, j);
    assert i % 5 == 2 && j % 5 == 2;
    ScanPathInjective(i / 5 + 1, j / 5 + 1);
  }

  /** Every save is of the frame captured in the same row. */
  lemma ScanSavesCapturedFrame(shots: nat, n: nat, spacing: real, i: nat)
    requires i < 5 * n && ScanEvents(shots, n, spacing)[i].Save?
    ensures 2 <= i && ScanEvents(shots, n, spacing)[i - 2] == Capture(ScanEvents(shots, n, spacing)[i].image)
    ensures ScanEvents(shots, n, spacing)[i].path == ScanPath(i / 5 + 1)
  {
    ScanEventAt(shots, n, spacing, i);
    ScanEventAt(shots, n, spacing, i - 2);
  }

  /** Number of events satisfying `p`. */
  function Count(evs: seq<Event>, p: Event -> bool): nat
    decreases |evs|
  {
    if evs == [] then 0 else Count(evs[..|evs| - 1], p) + (if p(evs[|evs| - 1]) then 1 else 0)
  }

  lemma {:induction false} CountAppend(a: seq<Event>, b: seq<Event>, p: Event -> bool)
    ensures Count(a + b, p) == Count(a, p) + Count(b, p)
    decreases |b|
  {
    if b != [] {
      assert (a + b)[..|a + b| - 1] == a + b[..|b| - 1];
      CountAppend(a, b[..|b| - 1], p);
    } else {
      assert a + b == a;
    }
  }

  predicate IsCapture(e: Event) { e.Capture? }
  predicate IsSave(e: Event) { e.Save? }
  predicate IsMove(e: Event) { e.MoveCall? || e.MoveToCall? }
  predicate IsSleep(e: Event) { e.Sleep? }

  /** Counting over a scan, when every row holds the same number of matches. */
  lemma {:induction false} ScanCount(shots: nat, n: nat, spacing: real, p: Event -> bool, perRow: nat)
    requires forall shot: nat, row: nat :: Count(ScanRow(shot, row, spacing), p) == perRow
    ensures Count(ScanEvents(shots, n, spacing), p) == n * perRow
    decreases n
  {
    if n > 0 {
      var prev := ScanEvents(shots, n - 1, spacing);
      var row := ScanRow(shots + n - 1, n - 1, spacing);
      ScanCount(shots, n - 1, spacing, p, perRow);
      CountAppend(prev, row, p);
      assert (n - 1) * perRow + perRow == n * perRow;
    }
  }

  /** A scan of `n` rows captures `n` frames, saves `n` frames, pauses `2n`
      times and moves the stage `n` times, the last row included. */
  lemma ScanCounts(shots: nat, n: nat, spacing: real)
    ensures Count(ScanEvents(shots, n, spacing), IsCapture) == n
    ensures Count(ScanEvents(shots, n, spacing), IsSave) == n
    ensures Count(ScanEvents(shots, n, spacing), IsMove) == n
    ensures Count(ScanEvents(shots, n, spacing), IsSleep) == 2 * n
  {
    forall shot: nat, row: nat
      ensures var r := ScanRow(shot, row, spacing);
        Count(r, IsCapture) == 1 && Count(r, IsSave) == 1 && Count(r, IsMove) == 1 && Count(r, IsSleep) == 2
    {
      RowCounts(shot, row, spacing);
    }
    ScanCount(shots, n, spacing, IsCapture, 1);
    ScanCount(shots, n, spacing, IsSave, 1);
    ScanCount(shots, n, spacing, IsMove, 1);
    ScanCount(shots, n, spacing, IsSleep, 2);
  }

  lemma RowCounts(shot: nat, row: nat, spacing: real)
    ensures var r := ScanRow(shot, row, spacing);
      Count(r, IsCapture) == 1 && Count(r, IsSave) == 1 && Count(r, IsMove) == 1 && Count(r, IsSleep) == 2
  {
    var r := ScanRow(shot, row, spacing);
    CountFive(r, IsCapture);
    CountFive(r, IsSave);
    CountFive(r, IsMove);
    CountFive(r, IsSleep);
  }

  function Indicator(e: Event, p: Event -> bool): nat
  {
    if p(e) then 1 else 0
  }

  lemma CountFive(r: seq<Event>, p: Event -> bool)
    requires |r| == 5
    ensures Count(r, p) == Indicator(r[0], p) + Indicator(r[1], p) + Indicator(r[2], p) + Indicator(r[3], p) + Indicator(r[4], p)
  {
    assert r[..1][..0] == [];
    assert Count(r[..1], p) == Indicator(r[0], p);
    assert r[..2][..1] == r[..1];
    assert Count(r[..2], p) == Count(r[..1], p) + Indicator(r[1], p);
    assert r[..3][..2] == r[..2];
    assert Count(r[..3], p) == Count(r[..2], p) + Indicator(r[2], p);
    assert r[..4][..3] == r[..3];
    assert Count(r[..4], p) == Count(r[..3], p) + Indicator(r[3], p);
    assert r[..4] == r[..|r| - 1];
  }

  /** Every move of a scan is a relative move by `spacing`, in the fourth slot
      of its row. */
  lemma ScanMoves(shots: nat, n: nat, spacing: real, i: nat)
    requires i < 5 * n && IsMove(ScanEvents(shots, n, spacing)[i])
    ensures ScanEvents(shots, n, spacing)[i] == MoveCall(spacing) && i % 5 == 3
  {
    ScanEventAt(shots, n, spacing, i);
  }

  /** The last row moves the stage too, then pauses. */
  lemma ScanEndsWithMove(shots: nat, n: nat, spacing: real)
    requires n > 0
    ensures ScanEvents(shots, n, spacing)[5 * n - 2] == MoveCall(spacing)
    ensures ScanEvents(shots, n, spacing)[5 * n - 1] == Sleep(Settle)
  {
    ScanRowAt(shots, n, spacing, n - 1);
  }
}
