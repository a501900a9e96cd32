/** Last-writer-wins cells with a tombstone floor. */
module Lww {
  import opened Bytes
  import opened Clock
  import opened Wire

  datatype Write = Write(stamp: Stamp, op: Op, key: Key, data: seq<byte>)

  datatype Cell = Cell(current: Option<Write>, floor: Option<Stamp>)

  type Cells = map<Key, Cell>

  datatype MergeOutcome = Applied | StaleDropped | BelowGcFloor

  const EMPTY := Cell(None, None)

  /** `into_stamped`: the part of a frame that conflict resolution looks at. */
  function Stamped(f: Frame): Write {
    Write(f.stamp, f.op, f.key, f.data)
  }

  function CellAt(cells: Cells, key: Key): Cell {
    if key in cells then cells[key] else EMPTY
  }

  function Outcome(c: Cell, w: Write): MergeOutcome {
    if c.floor.Some? && StampAtMost(w.stamp, c.floor.value) then BelowGcFloor
    else if c.current.Some? && StampAtMost(w.stamp, c.current.value.stamp) then StaleDropped
    else Applied
  }

  function MergeCell(c: Cell, w: Write): Cell {
    if Outcome(c, w) == Applied then c.(current := Some(w)) else c
  }

  function Merged(cells: Cells, w: Write): Cells {
    cells[w.key := MergeCell(CellAt(cells, w.key), w)]
  }

  function MergedAll(cells: Cells, frames: seq<Frame>): Cells {
    if frames == [] then cells
    else Merged(MergedAll(cells, frames[..|frames| - 1]), Stamped(frames[|frames| - 1]))
  }

  predicate IsTombstone(c: Cell) {
    c.current.Some? && c.current.value.op == Delete
  }

  function CollectCell(c: Cell): Cell
    requires IsTombstone(c)
  {
    var stamp := c.current.value.stamp;
    Cell(None, if c.floor.Some? && StampAtMost(stamp, c.floor.value) then c.floor else Some(stamp))
  }

  function Collected(cells: Cells, key: Key): Cells {
    if key in cells && IsTombstone(cells[key]) then cells[key := CollectCell(cells[key])] else cells
  }

  /** Visible record of a cell with the peer that authored it. */
  function Shown(c: Cell): Option<(seq<byte>, PeerId)> {
    match c.current
    case Some(w) => if w.op == Delete then None else Some((w.data, w.stamp.peer))
    case None => None
  }

  function Visible(cells: Cells, key: Key): Option<(seq<byte>, PeerId)> {
    Shown(CellAt(cells, key))
  }

  /** `a` comes before `b` in time, then in the counter, then in the bytes of the peer id. */
  predicate Before(a: Stamp, b: Stamp) {
    || a.hlc.physical < b.hlc.physical
    || (a.hlc.physical == b.hlc.physical && a.hlc.logical < b.hlc.logical)
    || (a.hlc == b.hlc && LexLess(a.peer, b.peer))
  }

  /** Of two writes to one untouched record the later one stands, in whichever order they are merged. */
  lemma LaterWriteStands(a: Write, b: Write)
    requires a.key == b.key && Before(a.stamp, b.stamp)
    ensures var shown := if b.op == Delete then None else Some((b.data, b.stamp.peer));
      && Visible(Merged(Merged(map[], a), b), a.key) == shown
      && Visible(Merged(Merged(map[], b), a), a.key) == shown
  {
    StampOrder(a.stamp, b.stamp);
    StampTotal(a.stamp, b.stamp);
  }

  /** A write that was applied is stale when it comes again. */
  lemma SecondTimeIsStale(c: Cell, w: Write)
    requires Outcome(c, w) == Applied
    ensures Outcome(MergeCell(c, w), w) == StaleDropped
  {
  }

  /** A collected tombstone frees its cell, and the write it stood for and everything before it stay below the floor. */
  lemma CollectionFrees(cells: Cells, key: Key, w: Write)
    requires key in cells && IsTombstone(cells[key])
    ensures var t := Collected(cells, key);
      && key in t && t[key].current == None && t[key].floor.Some?
      && (StampAtMost(w.stamp, cells[key].current.value.stamp) ==> Outcome(t[key], w) == BelowGcFloor)
      && (cells[key].floor.Some? && StampAtMost(w.stamp, cells[key].floor.value) ==> Outcome(t[key], w) == BelowGcFloor)
      && (Outcome(cells[key], w) == Applied ==> Outcome(t[key], w) == Applied)
  {
    var top := cells[key].current.value.stamp;
    StampTotal(w.stamp, top);
    if cells[key].floor.Some? {
      StampTotal(w.stamp, cells[key].floor.value);
      StampTotal(top, cells[key].floor.value);
    }
  }

  /** Nothing else is collected. */
  lemma OnlyTombstonesAreCollected(cells: Cells, key: Key, other: Key)
    requires other != key || other !in cells || cells[other].current.None? || cells[other].current.value.op != Delete
    ensures CellAt(Collected(cells, key), other) == CellAt(cells, other)
  {
  }

  /** Every stamp a cell still remembers is below `limit`. */
  predicate CellBelow(c: Cell, limit: Hlc) {
    && (c.current.Some? ==> HlcAtMost(c.current.value.stamp.hlc, limit))
    && (c.floor.Some? ==> HlcAtMost(c.floor.value.hlc, limit))
  }

  class Applier {
    var cells: Cells

    constructor ()
      ensures cells == map[]
    {
      cells := map[];
    }

    method Merge(w: Write) returns (outcome: MergeOutcome)
      modifies this
      ensures cells == Merged(old(cells), w)
      ensures outcome == Outcome(CellAt(old(cells), w.key), w)
    {
      var cell := CellAt(cells, w.key);
      cells := cells[w.key := cell];
      if cell.floor.Some? && StampAtMost(w.stamp, cell.floor.value) {
        return BelowGcFloor;
      }
      if cell.current.Some? && StampAtMost(w.stamp, cell.current.value.stamp) {
        return StaleDropped;
      }
      cells := cells[w.key := cell.(current := Some(w))];
      return Applied;
    }

    method CollectTombstone(key: Key) returns (collected: bool)
      modifies this
      ensures cells == Collected(old(cells), key)
      ensures collected <==> key in old(cells) && IsTombstone(old(cells)[key])
    {
      if key !in cells || cells[key].current.None? || cells[key].current.value.op != Delete {
        return false;
      }
      var cell := cells[key];
      var stamp := cell.current.value.stamp;
      var floor := if cell.floor.Some? && StampAtMost(stamp, cell.floor.value) then cell.floor else Some(stamp);
      cells := cells[key := Cell(None, floor)];
      return true;
    }
  }
}
