/**
 * The video grid manager without its widgets: which participants have a
 * video cell and whether it is active, who owns the screen share, and where
 * `update_layout` places the active videos.
 */
module Video {
  import opened Common

  const DefaultVideoWidth: int := 320
  const DefaultVideoHeight: int := 240
  const ContainerWidth: int := 800
  const ContainerHeight: int := 600

  /** Multiplying both sides by a non-negative factor keeps their order. */
  lemma {:induction false} MulMono(a: int, b: int, c: nat)
    ensures a <= b ==> a * c <= b * c
    decreases c
  {
    if a <= b && c > 0 {
      MulMono(a, b, c - 1);
      assert a * c == a * (c - 1) + a && b * c == b * (c - 1) + b;
    }
  }

  /** Counts `c` up from a value whose predecessor's square is still below `n`. */
  function CeilSqrtFrom(n: nat, c: nat): (r: nat)
    requires c == 0 || (c - 1) * (c - 1) < n
    ensures r * r >= n && (r == 0 || (r - 1) * (r - 1) < n)
    decreases n - c
  {
    if c * c >= n then c
    else
      assert c < n by {
        MulMono(1, c, c);
      }
      CeilSqrtFrom(n, c + 1)
  }

  /** `math.ceil(math.sqrt(n))` as an integer: the least `c` with `c * c >= n`. */
  function CeilSqrt(n: nat): (c: nat)
    ensures c * c >= n && (c == 0 || (c - 1) * (c - 1) < n)
  {
    CeilSqrtFrom(n, 0)
  }

  /** `math.ceil(n / d)`: the least `q` with `q * d >= n`. */
  function CeilDiv(n: nat, d: nat): (q: nat)
    requires d > 0
    ensures q * d >= n && (q == 0 || (q - 1) * d < n)
  {
    var q := (n + d - 1) / d;
    assert (n + d - 1) == q * d + (n + d - 1) % d;
    assert (q - 1) * d == q * d - d;
    q
  }

  /** `max(default, measured // count)`, where a measured size of zero falls back to the container's. */
  function CellSize(measured: nat, fallback: nat, count: nat, default: int): (s: int)
    requires count > 0
    ensures s >= default
    ensures s >= (if measured == 0 then fallback else measured) / count
    ensures s == default || s == (if measured == 0 then fallback else measured) / count
  {
    var total := if measured == 0 then fallback else measured;
    if default >= total / count then default else total / count
  }

  /** The grid of `n >= 1` videos: `cols` columns and just enough rows, no more rows than columns. */
  lemma GridFits(n: nat)
    requires n >= 1
    ensures CeilSqrt(n) >= 1
    ensures CeilDiv(n, CeilSqrt(n)) * CeilSqrt(n) >= n
    ensures (CeilDiv(n, CeilSqrt(n)) - 1) * CeilSqrt(n) < n
    ensures 1 <= CeilDiv(n, CeilSqrt(n)) <= CeilSqrt(n)
  {
    var c := CeilSqrt(n);
    MulMono(c, 0, c);
    assert c >= 1;
    var r := CeilDiv(n, c);
    MulMono(r, 0, c);
    assert r >= 1;
    MulMono(c, r - 1, c);
  }

  /** Index `idx` of a grid `cols` wide goes in row `idx / cols`, column `idx % cols`. */
  lemma CellInside(idx: nat, n: nat, rows: nat, cols: nat)
    requires cols > 0 && idx < n && rows * cols >= n
    ensures idx / cols < rows && idx % cols < cols
  {
    assert idx == (idx / cols) * cols + idx % cols;
    MulMono(rows, idx / cols, cols);
  }

  /** Two indices never share a cell. */
  lemma CellsDistinct(i: nat, j: nat, cols: nat)
    requires cols > 0 && i != j
    ensures (i / cols, i % cols) != (j / cols, j % cols)
  {
    assert i == (i / cols) * cols + i % cols;
    assert j == (j / cols) * cols + j % cols;
  }

  datatype Placement = Placement(participant: string, row: nat, col: nat)

  /** What `update_layout` shows: the screen share, nothing, or a grid of the active videos. */
  datatype Layout =
    | ScreenShareShown
    | NoActiveVideo
    | Grid(rows: nat, cols: nat, cellWidth: int, cellHeight: int, cells: seq<Placement>)

  /** The participants whose video is active, in table order. */
  function ActiveIds(ids: seq<string>, frames: map<string, bool>): (r: seq<string>)
    requires forall i :: 0 <= i < |ids| ==> ids[i] in frames
    ensures forall x :: x in r <==> x in ids && frames[x]
    ensures Distinct(ids) ==> Distinct(r)
    ensures |r| <= |ids|
  {
    if ids == [] then []
    else
      var rest := ActiveIds(ids[1..], frames);
      assert forall x :: x in ids[1..] ==> x in ids;
      if frames[ids[0]] then
        assert Distinct(ids) ==> ids[0] !in ids[1..];
        [ids[0]] + rest
      else rest
  }

  /** Any two entries of `r`, in the order they come, stand in that order in `ids`. */
  predicate KeepsOrder(r: seq<string>, ids: seq<string>)
  {
    forall i, j :: 0 <= i < j < |r| ==>
      exists a, b :: 0 <= a < b < |ids| && ids[a] == r[i] && ids[b] == r[j]
  }

  /** `pos` gives, for each entry of `r`, a place in `ids` holding it, strictly increasing. */
  predicate Positions(pos: seq<nat>, r: seq<string>, ids: seq<string>)
  {
    |pos| == |r| &&
    (forall k :: 0 <= k < |pos| ==> pos[k] < |ids| && ids[pos[k]] == r[k]) &&
    (forall k, l :: 0 <= k < l < |pos| ==> pos[k] < pos[l])
  }

  /** Positions in the tail of `ids`, moved one place on, with the head's place in front when it is kept. */
  lemma PositionsStep(ids: seq<string>, rest: seq<string>, p: seq<nat>, keep: bool)
      returns (pos: seq<nat>)
    requires |ids| > 0 && Positions(p, rest, ids[1..])
    ensures Positions(pos, if keep then [ids[0]] + rest else rest, ids)
  {
    var shifted := seq(|p|, k requires 0 <= k < |p| => p[k] + 1);
    pos := if keep then [0] + shifted else shifted;
  }

  /** `ActiveIds` picks its entries at strictly increasing places of the table. */
  lemma {:induction false} ActivePositions(ids: seq<string>, frames: map<string, bool>)
      returns (pos: seq<nat>)
    requires forall i :: 0 <= i < |ids| ==> ids[i] in frames
    ensures Positions(pos, ActiveIds(ids, frames), ids)
  {
    if ids == [] {
      pos := [];
    } else {
      var p := ActivePositions(ids[1..], frames);
      pos := PositionsStep(ids, ActiveIds(ids[1..], frames), p, frames[ids[0]]);
    }
  }

  /** `ActiveIds` keeps table order. */
  lemma ActiveIdsInOrder(ids: seq<string>, frames: map<string, bool>)
    requires forall i :: 0 <= i < |ids| ==> ids[i] in frames
    ensures KeepsOrder(ActiveIds(ids, frames), ids)
  {
    var r := ActiveIds(ids, frames);
    var pos := ActivePositions(ids, frames);
    forall i, j | 0 <= i < j < |r|
      ensures exists a, b :: 0 <= a < b < |ids| && ids[a] == r[i] && ids[b] == r[j]
    {
      assert ids[pos[i]] == r[i] && ids[pos[j]] == r[j] && pos[i] < pos[j];
    }
  }

  /**
   * A grid that shows each of `active` exactly once, in order, each in its own
   * cell inside the grid, with cells no smaller than the default video size.
   */
  predicate ShowsAll(layout: Layout, active: seq<string>)
  {
    && layout.Grid?
    && layout.cols == CeilSqrt(|active|) && layout.cols >= 1
    && layout.rows == CeilDiv(|active|, layout.cols)
    && layout.rows * layout.cols >= |active|
    && layout.cellWidth >= DefaultVideoWidth && layout.cellHeight >= DefaultVideoHeight
    && |layout.cells| == |active|
    && (forall k :: 0 <= k < |active| ==>
          && layout.cells[k].participant == active[k]
          && layout.cells[k].row == k / layout.cols && layout.cells[k].col == k % layout.cols
          && layout.cells[k].row < layout.rows && layout.cells[k].col < layout.cols)
    && (forall k1, k2 :: 0 <= k1 < k2 < |active| ==>
          (layout.cells[k1].row, layout.cells[k1].col) != (layout.cells[k2].row, layout.cells[k2].col))
  }

  /**
   * Cells placed row by row, `k` at `(k / cols, k % cols)`, lie inside a grid
   * of `rows * cols >= |active|` cells and never share a cell.
   */
  lemma PlacementsFit(active: seq<string>, rows: nat, cols: nat, cells: seq<Placement>)
    requires cols > 0 && rows * cols >= |active| && |cells| == |active|
    requires forall k :: 0 <= k < |active| ==> cells[k] == Placement(active[k], k / cols, k % cols)
    ensures forall k :: 0 <= k < |active| ==> cells[k].row < rows && cells[k].col < cols
    ensures forall k1, k2 :: 0 <= k1 < k2 < |active| ==>
      (cells[k1].row, cells[k1].col) != (cells[k2].row, cells[k2].col)
  {
    forall k | 0 <= k < |active| ensures cells[k].row < rows && cells[k].col < cols {
      CellInside(k, |active|, rows, cols);
    }
    forall k1, k2 | 0 <= k1 < k2 < |active|
      ensures (cells[k1].row, cells[k1].col) != (cells[k2].row, cells[k2].col)
    {
      CellsDistinct(k1, k2, cols);
    }
  }

  /**
   * The grid part of `update_layout`: `ceil(sqrt(n))` columns, just enough
   * rows, cell sizes from the measured container, and each active video
   * placed row by row in table order.
   */
  method PlaceGrid(active: seq<string>, measuredWidth: nat, measuredHeight: nat) returns (layout: Layout)
    requires |active| > 0
    ensures ShowsAll(layout, active)
    ensures layout.cellWidth == CellSize(measuredWidth, ContainerWidth, layout.cols, DefaultVideoWidth)
    ensures layout.cellHeight == CellSize(measuredHeight, ContainerHeight, layout.rows, DefaultVideoHeight)
  {
    var n := |active|;
    var cols := CeilSqrt(n);
    GridFits(n);
    var rows := CeilDiv(n, cols);
    var cellWidth := CellSize(measuredWidth, ContainerWidth, cols, DefaultVideoWidth);
    var cellHeight := CellSize(measuredHeight, ContainerHeight, rows, DefaultVideoHeight);
    var cells: seq<Placement> := [];
    var idx := 0;
    while idx < n
      invariant 0 <= idx <= n && |cells| == idx
      invariant forall k :: 0 <= k < idx ==> cells[k] == Placement(active[k], k / cols, k % cols)
    {
      cells := cells + [Placement(active[idx], idx / cols, idx % cols)];
      idx := idx + 1;
    }
    layout := Grid(rows, cols, cellWidth, cellHeight, cells);
    PlacementsFit(active, rows, cols, cells);
  }

  class VideoGridManager {
    /** Each participant with a video cell, and whether that video is active. */
    var videoFrames: map<string, bool>
    var order: seq<string>
    var isScreenSharing: bool
    var screenSharerId: Option<string>

    ghost predicate Valid()
      reads this
    {
      OrdersKeys(order, videoFrames)
    }

    /** A sharer is recorded exactly while sharing is on. */
    predicate SharingConsistent()
      reads this
    {
      isScreenSharing <==> screenSharerId.Some?
    }

    constructor ()
      ensures Valid() && SharingConsistent()
      ensures videoFrames == map[] && order == [] && !isScreenSharing && screenSharerId == None
    {
      videoFrames := map[];
      order := [];
      isScreenSharing := false;
      screenSharerId := None;
    }

    /**
     * `add_video`: a no-op for a participant that already has a cell; a new
     * cell starts inactive, and an initial image then activates it.
     */
    method AddVideo(participant: string, withImage: bool)
      requires Valid()
      modifies this
      decreases if withImage then 2 else 0
      ensures Valid()
      ensures participant in old(videoFrames) ==> videoFrames == old(videoFrames) && order == old(order)
      ensures participant !in old(videoFrames) ==>
        videoFrames == old(videoFrames)[participant := withImage] && order == old(order) + [participant]
      ensures isScreenSharing == old(isScreenSharing) && screenSharerId == old(screenSharerId)
    {
      if participant in videoFrames {
        return;
      }
      videoFrames := videoFrames[participant := false];
      order := order + [participant];
      if withImage {
        UpdateVideo(participant);
      }
    }

    /** `set_video_active`: changes only that participant's flag; a no-op for an unknown one. */
    method SetVideoActive(participant: string, active: bool)
      requires Valid()
      modifies this
      ensures Valid()
      ensures videoFrames == if participant in old(videoFrames) then old(videoFrames)[participant := active] else old(videoFrames)
      ensures order == old(order)
      ensures isScreenSharing == old(isScreenSharing) && screenSharerId == old(screenSharerId)
    {
      if participant in videoFrames {
        videoFrames := videoFrames[participant := active];
      }
    }

    /** `update_video`: creates the cell if missing; either way the video ends up active. */
    method UpdateVideo(participant: string)
      requires Valid()
      modifies this
      decreases 1
      ensures Valid()
      ensures videoFrames == old(videoFrames)[participant := true]
      ensures order == if participant in old(videoFrames) then old(order) else old(order) + [participant]
      ensures isScreenSharing == old(isScreenSharing) && screenSharerId == old(screenSharerId)
    {
      if participant !in videoFrames {
        AddVideo(participant, false);
      }
      if !videoFrames[participant] {
        SetVideoActive(participant, true);
      }
    }

    /** `remove_video` (the later definition, which is the one in effect): deletes only that entry. */
    method RemoveVideo(participant: string)
      requires Valid()
      modifies this
      ensures Valid()
      ensures videoFrames == old(videoFrames) - {participant}
      ensures order == Without(old(order), participant)
      ensures isScreenSharing == old(isScreenSharing) && screenSharerId == old(screenSharerId)
    {
      if participant in videoFrames {
        var rest := Without(order, participant);
        forall i | 0 <= i < |rest| ensures rest[i] in videoFrames - {participant} {
          assert rest[i] in rest;
        }
        videoFrames := videoFrames - {participant};
        order := rest;
      }
    }

    /**
     * `start_screen_share`: refused while someone else is sharing; otherwise
     * (also when the same user starts again) it records the sharer. The
     * sharer is an `Option` because Python lets `None` through as an id.
     */
    method StartScreenShare(sharer: Option<string>) returns (ok: bool)
      modifies this
      ensures ok <==> !(old(isScreenSharing) && old(screenSharerId) != sharer)
      ensures ok ==> isScreenSharing && screenSharerId == sharer
      ensures !ok ==> isScreenSharing == old(isScreenSharing) && screenSharerId == old(screenSharerId)
      ensures old(SharingConsistent()) && sharer.Some? ==> SharingConsistent()
      ensures videoFrames == old(videoFrames) && order == old(order)
    {
      if isScreenSharing && screenSharerId != sharer {
        return false;
      }
      isScreenSharing := true;
      screenSharerId := sharer;
      ok := true;
    }

    /**
     * `update_screen_share`: shows a frame and marks sharing as on, but does
     * not record a sharer. `shown` says whether the frame could be displayed;
     * when it could not, nothing changes. `refreshed` says whether the final
     * `update_idletasks` succeeded; when it raises, the result is `false` but
     * sharing is already on. From a state without a recorded sharer a shown
     * frame leaves sharing on with `None` as the only id that can start or
     * stop it.
     */
    method UpdateScreenShare(shown: bool, refreshed: bool) returns (ok: bool)
      modifies this
      ensures ok == (shown && refreshed)
      ensures shown ==> isScreenSharing
      ensures !shown ==> isScreenSharing == old(isScreenSharing)
      ensures screenSharerId == old(screenSharerId)
      ensures videoFrames == old(videoFrames) && order == old(order)
    {
      if !shown {
        return false;
      }
      isScreenSharing := true;
      ok := refreshed;
    }

    /** `stop_screen_share`: only the recorded sharer (`None` when none is recorded) may stop; that clears both fields. */
    method StopScreenShare(sharer: Option<string>) returns (ok: bool)
      modifies this
      ensures ok <==> old(screenSharerId) == sharer
      ensures ok ==> !isScreenSharing && screenSharerId == None
      ensures !ok ==> isScreenSharing == old(isScreenSharing) && screenSharerId == old(screenSharerId)
      ensures old(SharingConsistent()) ==> SharingConsistent()
      ensures videoFrames == old(videoFrames) && order == old(order)
    {
      if screenSharerId != sharer {
        return false;
      }
      isScreenSharing := false;
      screenSharerId := None;
      ok := true;
    }

    /**
     * `update_layout`: while a screen is shared the grid is hidden; otherwise
     * the active videos are placed, in table order, row by row on a grid of
     * `ceil(sqrt(n))` columns. The measured container sizes are parameters.
     */
    method UpdateLayout(measuredWidth: nat, measuredHeight: nat) returns (layout: Layout)
      requires Valid()
      ensures isScreenSharing ==> layout == ScreenShareShown
      ensures !isScreenSharing && ActiveIds(order, videoFrames) == [] ==> layout == NoActiveVideo
      ensures !isScreenSharing && ActiveIds(order, videoFrames) != [] ==>
        && ShowsAll(layout, ActiveIds(order, videoFrames))
        && layout.cellWidth == CellSize(measuredWidth, ContainerWidth, layout.cols, DefaultVideoWidth)
        && layout.cellHeight == CellSize(measuredHeight, ContainerHeight, layout.rows, DefaultVideoHeight)
    {
      if isScreenSharing {
        return ScreenShareShown;
      }
      var active := ActiveIds(order, videoFrames);
      if |active| == 0 {
        return NoActiveVideo;
      }
      layout := PlaceGrid(active, measuredWidth, measuredHeight);
    }
  }
}
