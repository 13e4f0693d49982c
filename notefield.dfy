/**
 * The note field widget: a chart of note rows scrolls past a judging window that moves
 * with the song clock; rows that enter the window become judge candidates, a SPACE press
 * records a hit offset on every candidate not yet hit, and candidates that fall out of the
 * window are moved, unchanged, to the judge log.
 *
 * Time is kept in whole milliseconds. The source keeps `time` as a double number of seconds
 * and converts `time * 1000.0` to `uint32_t` (in update) or `uint64_t` (in input); the model
 * takes those conversions to be exact and requires them to be defined (non-negative, and below
 * 2^32 for the `uint32_t` one).
 */
module Notefield {
  import opened Ints
  import Sdl

  /** Half-width of the judging window in ms (`good`). */
  const GOOD: int := 200
  /** Declared next to `good`, never read by the note field. */
  const GREAT: int := 50

  /** The offset of a candidate that has not been hit (`INT16_MIN`). */
  const UNJUDGED: int16 := INT16_MIN

  /** One chart row: a timestamp and a lane bit mask (bits 1..4 are the four lanes). */
  datatype NoteRow = NoteRow(ms: uint32, columns: bv8)

  /** A judge candidate; `row` indexes the chart in place of the source's pointer. */
  datatype JudgeRow = JudgeRow(row: nat, offset: int16)

  /** A note sprite added to the `notes` batch: the chart row and the lane it is drawn in. */
  datatype Sprite = Sprite(row: nat, lane: nat)

  /** The chart the widget's `init` installs. */
  const DEFAULT_CHART: seq<NoteRow> :=
    [NoteRow(500, 0x12), NoteRow(800, 0x08), NoteRow(1100, 0x04), NoteRow(1400, 0x0C), NoteRow(1900, 0x10)]

  /** A candidate that leaves the window still unjudged was missed. */
  predicate IsMiss(j: JudgeRow) {
    j.offset == UNJUDGED
  }

  /** Every candidate refers to a row of the chart. */
  predicate Refers(chart: seq<NoteRow>, js: seq<JudgeRow>) {
    forall j :: j in js ==> j.row < |chart|
  }

  /**
   * The timestamp of a candidate's row (`jr.row->ms`). The source dereferences a pointer into
   * `note_data`; a candidate that refers to no row (which `Consistent` rules out) reads as 0.
   */
  function MsOf(chart: seq<NoteRow>, j: JudgeRow): uint32 {
    if j.row < |chart| then chart[j.row].ms else 0
  }

  /** Candidates are strictly ascending by their row's timestamp, each one older than the next. */
  predicate Ascending(chart: seq<NoteRow>, js: seq<JudgeRow>)
    decreases |js|
  {
    |js| <= 1 || (MsOf(chart, js[0]) < MsOf(chart, js[1]) && Ascending(chart, js[1..]))
  }

  /** `now - good` and `now + good`, computed in `uint32_t`: each wraps round at most once. */
  function Earliest(now: uint32): uint32 {
    if now >= GOOD then now - GOOD else now - GOOD + U32_MOD
  }

  function Latest(now: uint32): uint32 {
    if now + GOOD < U32_MOD then now + GOOD else now + GOOD - U32_MOD
  }

  /** The admission test on a row's timestamp. */
  predicate InWindow(ms: int, now: uint32) {
    Earliest(now) < ms < Latest(now)
  }

  /** Where the expiry loop stops when it has popped i candidates: the first one from i on not older than `earliest`. */
  function ExpireFrom(chart: seq<NoteRow>, js: seq<JudgeRow>, earliest: int, i: nat): (n: nat)
    requires i <= |js|
    ensures i <= n <= |js|
    ensures n < |js| ==> MsOf(chart, js[n]) >= earliest
    decreases |js| - i
  {
    if i < |js| && MsOf(chart, js[i]) < earliest then ExpireFrom(chart, js, earliest, i + 1) else i
  }

  /** The number of front candidates the expiry loop pops. */
  function ExpireCount(chart: seq<NoteRow>, js: seq<JudgeRow>, earliest: int): (n: nat)
    ensures n <= |js|
    ensures n < |js| ==> MsOf(chart, js[n]) >= earliest
  {
    ExpireFrom(chart, js, earliest, 0)
  }

  /** Every candidate the expiry loop pops from position `i` on is older than `earliest`. */
  lemma {:induction false} ExpiredFromAreOlder(chart: seq<NoteRow>, js: seq<JudgeRow>, earliest: int, i: nat)
    requires i <= |js|
    ensures forall j :: i <= j < ExpireFrom(chart, js, earliest, i) ==> MsOf(chart, js[j]) < earliest
    decreases |js| - i
  {
    if i < |js| && MsOf(chart, js[i]) < earliest {
      ExpiredFromAreOlder(chart, js, earliest, i + 1);
    }
  }

  /** Every candidate expiry pops is older than `earliest`; with `ExpireCount`'s own contract, the
      popped candidates are exactly the front run of candidates older than `earliest`. */
  lemma ExpiredAreOlder(chart: seq<NoteRow>, js: seq<JudgeRow>, earliest: int)
    ensures forall j :: 0 <= j < ExpireCount(chart, js, earliest) ==> MsOf(chart, js[j]) < earliest
  {
    ExpiredFromAreOlder(chart, js, earliest, 0);
  }

  /** The judging deque and the judge log. */
  datatype Window = Window(judging: seq<JudgeRow>, judgeData: seq<JudgeRow>)

  /** Whether row `k` is pushed behind the candidates `kept`. */
  predicate Admits(chart: seq<NoteRow>, kept: seq<JudgeRow>, k: nat, now: uint32)
    requires k < |chart|
  {
    InWindow(chart[k].ms, now) && (kept == [] || MsOf(chart, kept[|kept| - 1]) < chart[k].ms)
  }

  /** One pass of the loop over `note_data`, for row `k`: expire, then admit. */
  function RowStep(chart: seq<NoteRow>, w: Window, k: nat, now: uint32): Window
    requires k < |chart|
  {
    var n := ExpireCount(chart, w.judging, Earliest(now));
    var kept := w.judging[n..];
    var log := w.judgeData + w.judging[..n];
    if Admits(chart, kept, k, now) then Window(kept + [JudgeRow(k, UNJUDGED)], log) else Window(kept, log)
  }

  /** The window after the loop has visited rows 0 .. k-1. */
  function Sweep(chart: seq<NoteRow>, w: Window, now: uint32, k: nat): Window
    requires k <= |chart|
    decreases k
  {
    if k == 0 then w else RowStep(chart, Sweep(chart, w, now, k - 1), k - 1, now)
  }

  /** Bit `lane` of a column mask: `(columns >> lane) & 0x1`. */
  predicate HasNote(columns: bv8, lane: nat)
    requires lane < 8
  {
    (columns >> lane) & 1 == 1
  }

  /** The sprites the inner lane loop adds for a row, for lanes 1 .. n-1. */
  function LaneSprites(row: nat, columns: bv8, n: nat): seq<Sprite>
    requires n <= 5
  {
    if n <= 1 then []
    else LaneSprites(row, columns, n - 1) + (if HasNote(columns, n - 1) then [Sprite(row, n - 1)] else [])
  }

  /** The sprites added for rows 0 .. k-1; a row whose time has passed (`y > 0`) is skipped. */
  function Drawn(chart: seq<NoteRow>, time: int, k: nat): seq<Sprite>
    requires k <= |chart|
  {
    if k == 0 then []
    else Drawn(chart, time, k - 1) + (if chart[k - 1].ms < time then [] else LaneSprites(k - 1, chart[k - 1].columns, 5))
  }

  /** The note field's modelled state. */
  datatype FieldState = FieldState(time: int, noteData: seq<NoteRow>, judging: seq<JudgeRow>, judgeData: seq<JudgeRow>, drawn: seq<Sprite>)

  /** The invariant the widget keeps: every candidate and log entry points into the chart, and the deque is ascending. */
  predicate Consistent(s: FieldState) {
    && s.time >= 0
    && Refers(s.noteData, s.judging)
    && Refers(s.noteData, s.judgeData)
    && Ascending(s.noteData, s.judging)
  }

  /** `update(dt)`: advance the clock, run the window over every row, rebuild the note sprites. */
  function Updated(s: FieldState, dt: int): FieldState
    requires 0 <= s.time + dt < U32_MOD
  {
    var now := s.time + dt;
    var w := Sweep(s.noteData, Window(s.judging, s.judgeData), now, |s.noteData|);
    FieldState(now, s.noteData, w.judging, w.judgeData, Drawn(s.noteData, now, |s.noteData|))
  }

  /** A candidate after a press at `now`: an unjudged one gets `int16_t(row.ms - now)`. */
  function Judged(chart: seq<NoteRow>, j: JudgeRow, now: int): JudgeRow {
    if j.offset != UNJUDGED then j else JudgeRow(j.row, ToInt16(MsOf(chart, j) - now))
  }

  function JudgeAll(chart: seq<NoteRow>, js: seq<JudgeRow>, now: int): seq<JudgeRow> {
    seq(|js|, i requires 0 <= i < |js| => Judged(chart, js[i], now))
  }

  /** `input(e)`: only SPACE does anything; it reads the clock as a whole number of ms. */
  function Pressed(s: FieldState, key: int): FieldState
    requires key == Sdl.SDLK_SPACE ==> s.time >= 0
  {
    if key == Sdl.SDLK_SPACE then s.(judging := JudgeAll(s.noteData, s.judging, s.time)) else s
  }

  // ---------------------------------------------------------------------------------------
  // The judging window

  /** Neighbour-wise ascent is ascent between every pair of candidates, and conversely. */
  lemma {:induction false} AscendingPairwise(chart: seq<NoteRow>, js: seq<JudgeRow>)
    ensures Ascending(chart, js) <==> forall i, j :: 0 <= i < j < |js| ==> MsOf(chart, js[i]) < MsOf(chart, js[j])
    decreases |js|
  {
    if |js| > 1 {
      AscendingPairwise(chart, js[1..]);
      if Ascending(chart, js) {
        forall i, j | 0 <= i < j < |js| ensures MsOf(chart, js[i]) < MsOf(chart, js[j]) {
          assert js[j] == js[1..][j - 1];
          if i > 0 {
            assert js[i] == js[1..][i - 1];
          } else if j > 1 {
            assert MsOf(chart, js[1..][0]) < MsOf(chart, js[1..][j - 1]);
          }
        }
      }
      if forall i, j :: 0 <= i < j < |js| ==> MsOf(chart, js[i]) < MsOf(chart, js[j]) {
        assert MsOf(chart, js[0]) < MsOf(chart, js[1]);
        forall i, j | 0 <= i < j < |js[1..]| ensures MsOf(chart, js[1..][i]) < MsOf(chart, js[1..][j]) {
          assert js[1..][i] == js[i + 1] && js[1..][j] == js[j + 1];
        }
      }
    }
  }

  /** Ascending candidates never refer to the same row twice. */
  lemma AscendingDistinct(chart: seq<NoteRow>, js: seq<JudgeRow>)
    requires Ascending(chart, js)
    ensures forall i, j :: 0 <= i < j < |js| ==> js[i].row != js[j].row
  {
    AscendingPairwise(chart, js);
  }

  /** Popping from the front keeps the deque ascending. */
  lemma {:induction false} AscendingSuffix(chart: seq<NoteRow>, js: seq<JudgeRow>, n: nat)
    requires Ascending(chart, js) && n <= |js|
    ensures Ascending(chart, js[n..])
    decreases n
  {
    if n > 0 {
      AscendingSuffix(chart, js[1..], n - 1);
      assert js[1..][n - 1..] == js[n..];
    }
  }

  /** Pushing a row newer than the back keeps the deque ascending. */
  lemma {:induction false} AscendingPush(chart: seq<NoteRow>, js: seq<JudgeRow>, x: JudgeRow)
    requires Ascending(chart, js)
    requires js == [] || MsOf(chart, js[|js| - 1]) < MsOf(chart, x)
    ensures Ascending(chart, js + [x])
    decreases |js|
  {
    if |js| > 1 {
      AscendingPush(chart, js[1..], x);
      assert (js + [x])[1..] == js[1..] + [x];
    } else if |js| == 1 {
      assert (js + [x])[1..] == [x];
    }
  }

  lemma RowStepKeepsAscending(chart: seq<NoteRow>, w: Window, k: nat, now: uint32)
    requires k < |chart| && Ascending(chart, w.judging)
    ensures Ascending(chart, RowStep(chart, w, k, now).judging)
  {
    var n := ExpireCount(chart, w.judging, Earliest(now));
    AscendingSuffix(chart, w.judging, n);
    var kept := w.judging[n..];
    if Admits(chart, kept, k, now) {
      AscendingPush(chart, kept, JudgeRow(k, UNJUDGED));
    }
  }

  /** After the loop over the chart the deque is still strictly ascending by timestamp. */
  lemma {:induction false} SweepKeepsAscending(chart: seq<NoteRow>, w: Window, now: uint32, k: nat)
    requires k <= |chart| && Ascending(chart, w.judging)
    ensures Ascending(chart, Sweep(chart, w, now, k).judging)
    decreases k
  {
    if k > 0 {
      var prev := Sweep(chart, w, now, k - 1);
      SweepKeepsAscending(chart, w, now, k - 1);
      RowStepKeepsAscending(chart, prev, k - 1, now);
      assert Sweep(chart, w, now, k) == RowStep(chart, prev, k - 1, now);
    }
  }

  /** Both ends of a list of candidates that refer to the chart still do. */
  lemma RefersParts(chart: seq<NoteRow>, js: seq<JudgeRow>, n: nat)
    requires Refers(chart, js) && n <= |js|
    ensures Refers(chart, js[..n]) && Refers(chart, js[n..])
  {
    forall j | j in js[..n] ensures j.row < |chart| {
      var i :| 0 <= i < n && js[..n][i] == j;
      assert js[i] in js;
    }
    forall j | j in js[n..] ensures j.row < |chart| {
      var i :| 0 <= i < |js| - n && js[n..][i] == j;
      assert js[n + i] in js;
    }
  }

  /** Two lists of candidates that refer to the chart, one after the other, still do. */
  lemma RefersJoin(chart: seq<NoteRow>, a: seq<JudgeRow>, b: seq<JudgeRow>)
    requires Refers(chart, a) && Refers(chart, b)
    ensures Refers(chart, a + b)
  {
  }

  lemma RowStepKeepsRefers(chart: seq<NoteRow>, w: Window, k: nat, now: uint32)
    requires k < |chart| && Refers(chart, w.judging) && Refers(chart, w.judgeData)
    ensures Refers(chart, RowStep(chart, w, k, now).judging) && Refers(chart, RowStep(chart, w, k, now).judgeData)
  {
    var n := ExpireCount(chart, w.judging, Earliest(now));
    RefersParts(chart, w.judging, n);
    RefersJoin(chart, w.judgeData, w.judging[..n]);
    RefersJoin(chart, w.judging[n..], [JudgeRow(k, UNJUDGED)]);
  }

  /** Candidates and log entries keep pointing into the chart: only rows of the chart are admitted. */
  lemma {:induction false} SweepKeepsRefers(chart: seq<NoteRow>, w: Window, now: uint32, k: nat)
    requires k <= |chart| && Refers(chart, w.judging) && Refers(chart, w.judgeData)
    ensures Refers(chart, Sweep(chart, w, now, k).judging) && Refers(chart, Sweep(chart, w, now, k).judgeData)
    decreases k
  {
    if k > 0 {
      var prev := Sweep(chart, w, now, k - 1);
      SweepKeepsRefers(chart, w, now, k - 1);
      RowStepKeepsRefers(chart, prev, k - 1, now);
      assert Sweep(chart, w, now, k) == RowStep(chart, prev, k - 1, now);
    }
  }

  /** A candidate admitted during this update: unjudged, from a visited row, inside the window. */
  predicate Admitted(chart: seq<NoteRow>, j: JudgeRow, k: nat, now: uint32) {
    j.offset == UNJUDGED && j.row < k && j.row < |chart| && InWindow(chart[j.row].ms, now)
  }

  predicate AllAdmitted(chart: seq<NoteRow>, js: seq<JudgeRow>, k: nat, now: uint32) {
    forall j :: j in js ==> Admitted(chart, j, k, now)
  }

  /**
   * `r` is `w` after its first m candidates were logged, in order and unchanged: the rest of the
   * old deque is still at the front, unchanged, and everything behind it was admitted.
   */
  predicate Extends(chart: seq<NoteRow>, w: Window, r: Window, m: nat, k: nat, now: uint32) {
    && m <= |w.judging|
    && r.judgeData == w.judgeData + w.judging[..m]
    && |w.judging| - m <= |r.judging|
    && r.judging[..|w.judging| - m] == w.judging[m..]
    && AllAdmitted(chart, r.judging[|w.judging| - m..], k, now)
  }

  /** How many old candidates the loop has expired after visiting k rows: all of it happens at row 0. */
  function Expired(chart: seq<NoteRow>, w: Window, now: uint32, k: nat): nat {
    if k == 0 then 0 else ExpireCount(chart, w.judging, Earliest(now))
  }

  /** Once the front is not older than the window, a row step only admits. */
  lemma RowStepWithoutExpiry(chart: seq<NoteRow>, p: Window, k: nat, now: uint32)
    requires k < |chart| && ExpireCount(chart, p.judging, Earliest(now)) == 0
    ensures var r := RowStep(chart, p, k, now);
            && r.judgeData == p.judgeData
            && r.judging == p.judging + (if Admits(chart, p.judging, k, now) then [JudgeRow(k, UNJUDGED)] else [])
  {
    assert p.judging[0..] == p.judging && p.judging[..0] == [];
  }

  /** An extension by k rows whose front is not older than the window. */
  lemma ExtendsFrontNotExpired(chart: seq<NoteRow>, w: Window, p: Window, m: nat, k: nat, now: uint32)
    requires Extends(chart, w, p, m, k, now)
    requires m < |w.judging| ==> MsOf(chart, w.judging[m]) >= Earliest(now)
    ensures ExpireCount(chart, p.judging, Earliest(now)) == 0
  {
    if |p.judging| > 0 {
      if |w.judging| - m > 0 {
        assert p.judging[0] == p.judging[..|w.judging| - m][0] == w.judging[m];
      } else {
        assert p.judging[0] in p.judging[|w.judging| - m..];
        assert Admitted(chart, p.judging[0], k, now);
      }
    }
  }

  /** Appending an admitted row extends an extension. */
  lemma ExtendsPush(chart: seq<NoteRow>, w: Window, p: Window, m: nat, k: nat, now: uint32, tail: seq<JudgeRow>)
    requires Extends(chart, w, p, m, k, now)
    requires AllAdmitted(chart, tail, k + 1, now)
    ensures Extends(chart, w, Window(p.judging + tail, p.judgeData), m, k + 1, now)
  {
    var r := p.judging + tail;
    assert r[..|w.judging| - m] == p.judging[..|w.judging| - m];
    assert r[|w.judging| - m..] == p.judging[|w.judging| - m..] + tail;
    assert AllAdmitted(chart, p.judging[|w.judging| - m..], k + 1, now);
  }

  /** The first row step does all the expiring. */
  lemma FirstRowShape(chart: seq<NoteRow>, w: Window, now: uint32)
    requires 0 < |chart|
    ensures Extends(chart, w, RowStep(chart, w, 0, now), ExpireCount(chart, w.judging, Earliest(now)), 1, now)
  {
    var m := ExpireCount(chart, w.judging, Earliest(now));
    var kept := w.judging[m..];
    var r := RowStep(chart, w, 0, now);
    assert r.judging[..|kept|] == kept;
    assert r.judging[|kept|..] == [] || r.judging[|kept|..] == [JudgeRow(0, UNJUDGED)];
  }

  /**
   * The shape of the window after k rows: the judge log gained exactly the expired front of the
   * old deque; the rest of the old deque is still at the front; everything behind it was admitted
   * in this update, is unjudged, lies inside the window and refers to a visited row.
   */
  lemma {:induction false} SweepShape(chart: seq<NoteRow>, w: Window, now: uint32, k: nat)
    requires k <= |chart|
    ensures Extends(chart, w, Sweep(chart, w, now, k), Expired(chart, w, now, k), k, now)
    decreases k
  {
    if k == 0 {
      assert w.judging[..0] == [] && w.judging[0..] == w.judging;
    } else if k == 1 {
      FirstRowShape(chart, w, now);
    } else {
      SweepShape(chart, w, now, k - 1);
      LaterRowShape(chart, w, Sweep(chart, w, now, k - 1), ExpireCount(chart, w.judging, Earliest(now)), k - 1, now);
    }
  }

  /** The front `SweepShape` moves to the log is exactly the run of old candidates older than the
      window: each of them is, and the first candidate kept is not. */
  lemma SweepExpiresOlder(chart: seq<NoteRow>, w: Window, now: uint32, k: nat)
    requires 0 < k <= |chart|
    ensures var m := Expired(chart, w, now, k);
            && (forall j :: 0 <= j < m ==> MsOf(chart, w.judging[j]) < Earliest(now))
            && (m < |w.judging| ==> MsOf(chart, w.judging[m]) >= Earliest(now))
  {
    ExpiredAreOlder(chart, w.judging, Earliest(now));
  }

  /** What expiry keeps of `js` is preceded by candidates older than `earliest` and starts with one that is not. */
  lemma KeptAfterOlder(chart: seq<NoteRow>, js: seq<JudgeRow>, earliest: int, kept: seq<JudgeRow>)
    requires kept == js[ExpireCount(chart, js, earliest)..]
    ensures forall j :: 0 <= j < |js| - |kept| ==> MsOf(chart, js[j]) < earliest
    ensures kept != [] ==> MsOf(chart, kept[0]) >= earliest
  {
    ExpiredAreOlder(chart, js, earliest);
  }

  /** A later row step keeps the shape and adds at most the row itself. */
  lemma LaterRowShape(chart: seq<NoteRow>, w: Window, p: Window, m: nat, k: nat, now: uint32)
    requires k < |chart| && m == ExpireCount(chart, w.judging, Earliest(now))
    requires Extends(chart, w, p, m, k, now)
    ensures Extends(chart, w, RowStep(chart, p, k, now), m, k + 1, now)
  {
    ExtendsFrontNotExpired(chart, w, p, m, k, now);
    RowStepWithoutExpiry(chart, p, k, now);
    var tail := if Admits(chart, p.judging, k, now) then [JudgeRow(k, UNJUDGED)] else [];
    ExtendsPush(chart, w, p, m, k, now, tail);
  }

  /** The bounds are the `uint32_t` differences `now - good` and `now + good`. */
  lemma WindowBoundsWrap(now: uint32)
    ensures Earliest(now) == Wrap32(now - GOOD) && Latest(now) == Wrap32(now + GOOD)
  {
  }

  /** Before `good` ms have passed, `now - good` wraps round: no row below 2^32 - good is admitted, all expire. */
  lemma EarlyWindowWraps(now: uint32, ms: uint32)
    requires now < GOOD && ms < U32_MOD - GOOD
    ensures Earliest(now) == U32_MOD + now - GOOD
    ensures !InWindow(ms, now) && ms < Earliest(now)
  {
  }

  // ---------------------------------------------------------------------------------------
  // Drawing

  lemma {:induction false} LaneSpritesMembers(row: nat, columns: bv8, n: nat, s: Sprite)
    requires n <= 5
    ensures s in LaneSprites(row, columns, n) <==> s.row == row && 1 <= s.lane < n && HasNote(columns, s.lane)
    decreases n
  {
    if n > 1 {
      LaneSpritesMembers(row, columns, n - 1, s);
    }
  }

  lemma MaskKeepsLane(columns: bv8, lane: nat)
    requires 1 <= lane <= 4
    ensures HasNote(columns & 0x1E, lane) == HasNote(columns, lane)
  {
    if lane == 1 {
    } else if lane == 2 {
    } else if lane == 3 {
    } else {
    }
  }

  /** Only bits 1..4 of a column mask produce lanes. */
  lemma {:induction false} LaneSpritesIgnoreOtherBits(row: nat, columns: bv8, n: nat)
    requires n <= 5
    ensures LaneSprites(row, columns, n) == LaneSprites(row, columns & 0x1E, n)
    decreases n
  {
    if n > 1 {
      LaneSpritesIgnoreOtherBits(row, columns, n - 1);
      MaskKeepsLane(columns, n - 1);
    }
  }

  /** A sprite is drawn for row r and lane l exactly when r's time has not passed and its bit l is set. */
  lemma {:induction false} DrawnMembers(chart: seq<NoteRow>, time: int, k: nat, s: Sprite)
    requires k <= |chart|
    ensures s in Drawn(chart, time, k) <==>
              s.row < k && chart[s.row].ms >= time && 1 <= s.lane <= 4 && HasNote(chart[s.row].columns, s.lane)
    decreases k
  {
    if k > 0 {
      DrawnMembers(chart, time, k - 1, s);
      var row := chart[k - 1];
      var added := if row.ms < time then [] else LaneSprites(k - 1, row.columns, 5);
      assert Drawn(chart, time, k) == Drawn(chart, time, k - 1) + added;
      assert s in Drawn(chart, time, k) <==> s in Drawn(chart, time, k - 1) || s in added;
      if s.row == k - 1 {
        assert s !in Drawn(chart, time, k - 1);
        if row.ms >= time {
          LaneSpritesMembers(k - 1, row.columns, 5, s);
        }
      } else if row.ms >= time {
        LaneSpritesMembers(k - 1, row.columns, 5, s);
        assert s !in added;
      }
    }
  }

  // ---------------------------------------------------------------------------------------
  // update and input

  /**
   * Drawing never affects judging: the sprites a field holds before an update or a press change
   * nothing about the deque, the log or the clock afterwards, and the deque and log an update
   * leaves are those of the window loop alone.
   */
  lemma DrawingNeverJudges(s: FieldState, d: seq<Sprite>, dt: int, key: int)
    requires 0 <= s.time + dt < U32_MOD && s.time >= 0
    ensures Updated(s.(drawn := d), dt) == Updated(s, dt)
    ensures var u := Updated(s, dt);
            Window(u.judging, u.judgeData) == Sweep(s.noteData, Window(s.judging, s.judgeData), s.time + dt, |s.noteData|)
    ensures Pressed(s.(drawn := d), key) == Pressed(s, key).(drawn := d)
  {
  }

  /** `update` keeps the widget's invariant and advances the clock by exactly `dt`. */
  lemma UpdateKeepsConsistent(s: FieldState, dt: int)
    requires Consistent(s) && 0 <= s.time + dt < U32_MOD
    ensures Consistent(Updated(s, dt))
    ensures Updated(s, dt).time == s.time + dt && Updated(s, dt).noteData == s.noteData
  {
    var w := Window(s.judging, s.judgeData);
    SweepKeepsAscending(s.noteData, w, s.time + dt, |s.noteData|);
    SweepKeepsRefers(s.noteData, w, s.time + dt, |s.noteData|);
  }

  /** The state after an update, assembled field by field. */
  lemma UpdatedFields(s: FieldState, dt: int, time: int, chart: seq<NoteRow>, judging: seq<JudgeRow>, judgeData: seq<JudgeRow>, drawn: seq<Sprite>)
    requires 0 <= time == s.time + dt < U32_MOD && chart == s.noteData
    requires Window(judging, judgeData) == Sweep(chart, Window(s.judging, s.judgeData), time, |chart|)
    requires drawn == Drawn(chart, time, |chart|)
    ensures FieldState(time, chart, judging, judgeData, drawn) == Updated(s, dt)
  {
  }

  /** A SPACE press judges exactly the unjudged candidates; nothing else changes. */
  lemma PressJudgesPending(s: FieldState)
    requires Consistent(s)
    ensures var r := Pressed(s, Sdl.SDLK_SPACE);
            && r.time == s.time && r.noteData == s.noteData && r.judgeData == s.judgeData && r.drawn == s.drawn
            && |r.judging| == |s.judging|
            && forall i :: 0 <= i < |s.judging| ==>
                 && r.judging[i].row == s.judging[i].row
                 && (s.judging[i].offset != UNJUDGED ==> r.judging[i] == s.judging[i])
                 && (s.judging[i].offset == UNJUDGED ==>
                       r.judging[i].offset == ToInt16(s.noteData[s.judging[i].row].ms - s.time))
  {
  }

  /** Any other key leaves the widget as it was. */
  lemma OtherKeysIgnored(s: FieldState, key: int)
    requires key != Sdl.SDLK_SPACE
    ensures Pressed(s, key) == s
  {
  }

  lemma PressKeepsConsistent(s: FieldState, key: int)
    requires Consistent(s)
    ensures Consistent(Pressed(s, key))
  {
    if key == Sdl.SDLK_SPACE {
      var r := Pressed(s, key);
      assert forall i :: 0 <= i < |s.judging| ==> MsOf(s.noteData, r.judging[i]) == MsOf(s.noteData, s.judging[i]);
      AscendingPairwise(s.noteData, s.judging);
      AscendingPairwise(s.noteData, r.judging);
    }
  }

  /** Pressing twice at the same time judges nothing new. */
  lemma PressIdempotent(s: FieldState, key: int)
    requires key == Sdl.SDLK_SPACE ==> s.time >= 0
    ensures Pressed(Pressed(s, key), key) == Pressed(s, key)
  {
    if key == Sdl.SDLK_SPACE {
      var once := JudgeAll(s.noteData, s.judging, s.time);
      var twice := JudgeAll(s.noteData, once, s.time);
      forall i | 0 <= i < |once| ensures twice[i] == once[i] {
        var j := s.judging[i];
        if j.offset == UNJUDGED {
          var o := ToInt16(MsOf(s.noteData, j) - s.time);
          assert once[i] == JudgeRow(j.row, o);
        }
      }
      assert twice == once;
    }
  }

  /** A candidate within `good` ms of the press gets its exact offset, which is within the band. */
  lemma PressOffsetExact(s: FieldState, i: nat)
    requires s.time >= 0 && i < |s.judging| && s.judging[i].row < |s.noteData|
    requires s.judging[i].offset == UNJUDGED
    requires -GOOD <= s.noteData[s.judging[i].row].ms - s.time <= GOOD
    ensures var o := Pressed(s, Sdl.SDLK_SPACE).judging[i].offset;
            o == s.noteData[s.judging[i].row].ms - s.time && -GOOD <= o <= GOOD && o != UNJUDGED
  {
  }

  // ---------------------------------------------------------------------------------------
  // Worked scenarios

  /** A row at 1000 ms is admitted at 980 ms; a press then records +20 ms. */
  lemma ScenarioHit()
    ensures var s := Updated(FieldState(0, [NoteRow(1000, 0x02)], [], [], []), 980);
            && s.judging == [JudgeRow(0, UNJUDGED)]
            && Pressed(s, Sdl.SDLK_SPACE).judging == [JudgeRow(0, 20)]
  {
    var chart := [NoteRow(1000, 0x02)];
    assert Earliest(980) == 780 && Latest(980) == 1180;
    assert Sweep(chart, Window([], []), 980, 1) == Window([JudgeRow(0, UNJUDGED)], []);
  }

  /** Left unhit, the same row leaves the window at 1300 ms and is logged as a miss. */
  lemma ScenarioMiss()
    ensures var s := Updated(Updated(FieldState(0, [NoteRow(1000, 0x02)], [], [], []), 980), 320);
            && s.judging == [] && s.judgeData == [JudgeRow(0, UNJUDGED)] && IsMiss(s.judgeData[0])
  {
    var chart := [NoteRow(1000, 0x02)];
    assert Earliest(980) == 780 && Latest(980) == 1180;
    assert Sweep(chart, Window([], []), 980, 1) == Window([JudgeRow(0, UNJUDGED)], []);
    assert Earliest(1300) == 1100 && Latest(1300) == 1500;
    assert ExpireCount(chart, [JudgeRow(0, UNJUDGED)], 1100) == 1;
    assert Sweep(chart, Window([JudgeRow(0, UNJUDGED)], []), 1300, 1) == Window([], [JudgeRow(0, UNJUDGED)]);
  }

  /** Two rows sharing a timestamp: only the first becomes a candidate. */
  lemma ScenarioTie()
    ensures Updated(FieldState(0, [NoteRow(500, 0x02), NoteRow(500, 0x04)], [], [], []), 450).judging
            == [JudgeRow(0, UNJUDGED)]
  {
    var chart := [NoteRow(500, 0x02), NoteRow(500, 0x04)];
    assert Earliest(450) == 250 && Latest(450) == 650;
    var w1 := Sweep(chart, Window([], []), 450, 1);
    assert w1 == Window([JudgeRow(0, UNJUDGED)], []);
    assert ExpireCount(chart, w1.judging, 250) == 0;
    assert !Admits(chart, w1.judging, 1, 450);
  }

  /** The code's admission test is `Admits`: the loop body computes `RowStep`. */
  lemma PushedUnlessRefused(chart: seq<NoteRow>, w: Window, k: nat, now: uint32, kept: seq<JudgeRow>, js: seq<JudgeRow>)
    requires k < |chart| && Refers(chart, kept)
    requires kept == w.judging[ExpireCount(chart, w.judging, Earliest(now))..]
    requires js == if Earliest(now) < chart[k].ms < Latest(now) && (kept == [] || chart[kept[|kept| - 1].row].ms < chart[k].ms)
                   then kept + [JudgeRow(k, UNJUDGED)] else kept
    ensures js == RowStep(chart, w, k, now).judging
  {
    if kept != [] {
      assert kept[|kept| - 1] in kept;
    }
  }

  // ---------------------------------------------------------------------------------------
  // The widget

  class Field {
    var time: int
    var noteData: seq<NoteRow>
    var judgeData: seq<JudgeRow>
    var judging: seq<JudgeRow>
    var drawn: seq<Sprite>

    ghost function State(): FieldState
      reads this
    {
      FieldState(time, noteData, judging, judgeData, drawn)
    }

    ghost predicate Valid()
      reads this
    {
      Consistent(State())
    }

    /** A field over `chart` whose clock starts at `startMs`. */
    constructor (chart: seq<NoteRow>, startMs: nat)
      ensures Valid() && State() == FieldState(startMs, chart, [], [], [])
    {
      time := startMs;
      noteData := chart;
      judgeData := [];
      judging := [];
      drawn := [];
    }

    /** Pops the candidates older than `earliest` off the front of the deque into the judge log. */
    method ExpireOld(earliest: uint32)
      requires Refers(noteData, judging) && Refers(noteData, judgeData)
      modifies `judging, `judgeData
      ensures Refers(noteData, judging) && Refers(noteData, judgeData)
      ensures var n := ExpireCount(noteData, old(judging), earliest);
              judging == old(judging)[n..] && judgeData == old(judgeData) + old(judging)[..n]
      ensures forall j :: 0 <= j < |old(judging)| - |judging| ==> MsOf(noteData, old(judging)[j]) < earliest
      ensures judging != [] ==> MsOf(noteData, judging[0]) >= earliest
    {
      ghost var c: nat := 0;
      while judging != [] && noteData[judging[0].row].ms < earliest
        invariant c <= |old(judging)| && judging == old(judging)[c..] && judgeData == old(judgeData) + old(judging)[..c]
        invariant ExpireCount(noteData, old(judging), earliest) == ExpireFrom(noteData, old(judging), earliest, c)
        decreases |judging|
      {
        assert judging[0] == old(judging)[c] && old(judging)[c] in old(judging);
        judgeData := judgeData + [judging[0]];
        judging := judging[1..];
        c := c + 1;
        assert old(judging)[..c] == old(judging)[..c - 1] + [old(judging)[c - 1]];
      }
      RefersParts(noteData, old(judging), c);
      RefersJoin(noteData, old(judgeData), old(judging)[..c]);
      KeptAfterOlder(noteData, old(judging), earliest, judging);
    }

    /** One pass of `update`'s loop over the chart: expire, admit row k, add its note sprites. */
    method VisitRow(chart: seq<NoteRow>, k: nat, now: uint32)
      requires chart == noteData && k < |chart| && time == now
      requires Refers(chart, judging) && Refers(chart, judgeData)
      modifies `judging, `judgeData, `drawn
      ensures Refers(chart, judging) && Refers(chart, judgeData)
      ensures Window(judging, judgeData) == RowStep(chart, old(Window(judging, judgeData)), k, now)
      ensures drawn == old(drawn) + (if chart[k].ms < now then [] else LaneSprites(k, chart[k].columns, 5))
    {
      var row := chart[k];
      var earliest := Earliest(now);
      var latest := Latest(now);

      ExpireOld(earliest);

      // admit the row behind the newest candidate
      ghost var kept := judging;
      if earliest < row.ms < latest {
        if judging == [] || chart[judging[|judging| - 1].row].ms < row.ms {
          judging := judging + [JudgeRow(k, UNJUDGED)];
        }
      }
      PushedUnlessRefused(chart, old(Window(judging, judgeData)), k, now, kept, judging);

      // a row whose time has passed is not drawn
      if row.ms < time {
        return;
      }
      DrawLanes(k, row.columns);
    }

    /** The inner loop over lanes 1 to 4: one sprite per set bit of the row's mask. */
    method DrawLanes(k: nat, columns: bv8)
      modifies `drawn
      ensures drawn == old(drawn) + LaneSprites(k, columns, 5)
    {
      for i := 1 to 5
        invariant drawn == old(drawn) + LaneSprites(k, columns, i)
      {
        if HasNote(columns, i) {
          drawn := drawn + [Sprite(k, i)];
        }
      }
    }

    /** `update`'s loop over the whole chart at time `now`, starting from an empty sprite list. */
    method VisitAll(chart: seq<NoteRow>, now: uint32)
      requires chart == noteData && time == now && drawn == []
      requires Refers(chart, judging) && Refers(chart, judgeData)
      modifies `judging, `judgeData, `drawn
      ensures Window(judging, judgeData) == Sweep(chart, old(Window(judging, judgeData)), now, |chart|)
      ensures drawn == Drawn(chart, now, |chart|)
    {
      ghost var w0 := Window(judging, judgeData);
      for k := 0 to |chart|
        modifies `judging, `judgeData, `drawn
        invariant Refers(chart, judging) && Refers(chart, judgeData)
        invariant Window(judging, judgeData) == Sweep(chart, w0, now, k)
        invariant drawn == Drawn(chart, now, k)
      {
        ghost var before := Window(judging, judgeData);
        VisitRow(chart, k, now);
        assert Window(judging, judgeData) == RowStep(chart, before, k, now) == Sweep(chart, w0, now, k + 1);
      }
    }

    method Update(dt: int)
      requires Valid()
      requires 0 <= time + dt < U32_MOD
      modifies this
      ensures Valid()
      ensures State() == Updated(old(State()), dt)
    {
      ghost var s0 := State();
      time := time + dt;
      drawn := [];
      var now: uint32 := time;
      ghost var w0 := Window(judging, judgeData);
      assert w0 == Window(s0.judging, s0.judgeData);
      VisitAll(noteData, now);
      UpdatedFields(s0, dt, time, noteData, judging, judgeData, drawn);
      assert State() == FieldState(time, noteData, judging, judgeData, drawn);
      UpdateKeepsConsistent(s0, dt);
    }

    method Input(key: int)
      requires Valid()
      modifies this
      ensures Valid()
      ensures State() == Pressed(old(State()), key)
    {
      if key == Sdl.SDLK_SPACE {
        var now := time;
        var i := 0;
        while i < |judging|
          invariant unchanged(`time, `noteData, `judgeData, `drawn)
          invariant 0 <= i <= |judging| == |old(judging)|
          invariant forall j :: 0 <= j < i ==> judging[j] == Judged(noteData, old(judging)[j], now)
          invariant forall j :: i <= j < |judging| ==> judging[j] == old(judging)[j]
        {
          var jr := judging[i];
          if jr.offset == UNJUDGED {
            judging := judging[i := JudgeRow(jr.row, ToInt16(noteData[jr.row].ms - now))];
          }
          i := i + 1;
        }
        assert judging == JudgeAll(noteData, old(judging), now);
        PressKeepsConsistent(old(State()), key);
      }
    }
  }
}
