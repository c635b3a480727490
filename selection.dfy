/**
 * Drag selection on the grid: the state `isSelecting`, `selectionStart` and
 * `selectionEnd` keep between mouse-down and mouse-up, the highlight test
 * `isSlotSelected`, and the span a finished drag proposes to the dialog.
 */
module Selection {
  import opened Wrappers
  import opened Minutes
  import opened TimeSlots

  /** A cell of the grid: a weekday column and a slot label. */
  datatype Cell = Cell(day: int, time: string)

  /** Idle: `isSelecting` false and both ends null. Selecting: a drag from
      `anchor` (`selectionStart`) to `current` (`selectionEnd`). */
  datatype DragState = Idle | Selecting(anchor: Cell, current: Cell)

  /** JavaScript's `Math.min`/`Math.max` followed by `lo <= x && x <= hi`:
      false as soon as any of the three is NaN. */
  predicate Between(x: Option<int>, a: Option<int>, b: Option<int>) {
    && x.Some? && a.Some? && b.Some?
    && (if a.value <= b.value then a.value else b.value) <= x.value
    && x.value <= (if a.value <= b.value then b.value else a.value)
  }

  /** `isSlotSelected(day, time)`. */
  function IsSlotSelected(drag: DragState, day: int, time: string): (selected: bool)
    ensures drag.Idle? ==> !selected
    ensures selected <==>
              && drag.Selecting? && day == drag.anchor.day
              && TimeToMinutes(time).Some? && TimeToMinutes(drag.anchor.time).Some? && TimeToMinutes(drag.current.time).Some?
              && ((TimeToMinutes(drag.anchor.time).value <= TimeToMinutes(time).value <= TimeToMinutes(drag.current.time).value)
                  || (TimeToMinutes(drag.current.time).value <= TimeToMinutes(time).value <= TimeToMinutes(drag.anchor.time).value))
  {
    match drag
    case Idle => false
    case Selecting(anchor, current) =>
      day == anchor.day
      && Between(TimeToMinutes(time), TimeToMinutes(anchor.time), TimeToMinutes(current.time))
  }

  /** Dragging up or down highlights the same cells: swapping the two ends' times changes nothing. */
  lemma SelectionSymmetric(anchor: Cell, current: Cell, day: int, time: string)
    ensures IsSlotSelected(Selecting(anchor, current), day, time)
         == IsSlotSelected(Selecting(anchor.(time := current.time), current.(time := anchor.time)), day, time)
  {
  }

  /** Only the anchor's column is highlighted, even when the drag crosses into another. */
  lemma SelectionInAnchorColumn(anchor: Cell, current: Cell, time: string)
    requires current.day != anchor.day
    ensures !IsSlotSelected(Selecting(anchor, current), current.day, time)
  {
  }

  /** Both ends of a drag over readable slot labels are highlighted. */
  lemma EndsSelected(anchor: Cell, current: Cell)
    requires TimeToMinutes(anchor.time).Some? && TimeToMinutes(current.time).Some?
    ensures IsSlotSelected(Selecting(anchor, current), anchor.day, anchor.time)
    ensures current.day == anchor.day ==> IsSlotSelected(Selecting(anchor, current), current.day, current.time)
  {
  }

  /** `timeToMinutes(t) + k`, NaN staying NaN. */
  function AddMinutes(m: Option<int>, k: int): (r: Option<int>)
    ensures r.Some? <==> m.Some?
    ensures r.Some? ==> r.value - m.value == k
  {
    match m
    case None => None
    case Some(v) => Some(v + k)
  }

  /** The end time a finished drag proposes: `minutesToTime(timeToMinutes(selectionEnd.time) + interval)`,
      one interval after the cell the pointer was last over, "NaN:NaN" when that cell's label does not read. */
  function DragEndTime(current: Cell, interval: Interval): (t: string)
    ensures TimeToMinutes(current.time).None? ==> t == "NaN:NaN"
  {
    MinutesToTimeOrNaN(AddMinutes(TimeToMinutes(current.time), interval))
  }

  /** From a readable cell label the proposed end reads back as that cell's minute plus one interval. */
  lemma DragEndReadsBack(current: Cell, interval: Interval)
    requires TimeToMinutes(current.time).Some?
    ensures TimeToMinutes(DragEndTime(current, interval)) == Some(TimeToMinutes(current.time).value + interval)
  {
    ShiftedReadsBack(TimeToMinutes(current.time), interval);
  }

  /** Writing a non-negative count moved by `k` minutes and reading it back gives the moved count. */
  lemma ShiftedReadsBack(m: Option<int>, k: nat)
    requires m.Some? && m.value >= 0
    ensures TimeToMinutes(MinutesToTimeOrNaN(AddMinutes(m, k))) == Some(m.value + k)
  {
    MinutesRoundTrip(m.value + k);
  }
}
