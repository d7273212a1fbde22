/** Inclusive ranges of wrapping sequence numbers (seq.go). */
module CircularRanges {
  import opened Words

  /** Whether `item` lies on the forward walk from `start` to `end`. */
  predicate Contains(start: u16, end: u16, item: u16) {
    if end >= start then start <= item <= end
    else if item >= start then true
    else item <= end
  }

  /** Membership is a comparison of forward distances from the start. */
  lemma ContainsIsDistance(start: u16, end: u16, item: u16)
    ensures Contains(start, end, item) <==> Sub(item, start) <= Sub(end, start)
  {
  }

  /** What is still to be yielded by a range. */
  ghost function Items(start: u16, end: u16, exhausted: bool): (items: seq<u16>)
    ensures exhausted ==> items == []
    ensures !exhausted ==> |items| == Sub(end, start) + 1
    ensures forall i :: 0 <= i < |items| ==> items[i] == Add(start, i)
  {
    if exhausted then [] else seq(Sub(end, start) + 1, (i: int) => if 0 <= i < 0x1_0000 then Add(start, i) else 0)
  }

  /** The walk yields exactly the contained numbers, each once. */
  lemma ItemsAreTheRange(start: u16, end: u16)
    ensures forall item: u16 :: item in Items(start, end, false) <==> Contains(start, end, item)
    ensures var items := Items(start, end, false); forall i, j :: 0 <= i < j < |items| ==> items[i] != items[j]
  {
    var items := Items(start, end, false);
    forall item: u16 ensures item in items <==> Contains(start, end, item) {
      if Contains(start, end, item) {
        assert items[Sub(item, start)] == item;
      }
    }
  }

  class CircularRange {
    var start: u16
    var end: u16
    var exhausted: bool

    constructor (start: u16, end: u16)
      ensures this.start == start && this.end == end && !exhausted
    {
      this.start, this.end, exhausted := start, end, false;
    }

    /** Yields the first remaining number and drops it; `ok` is false once none is left. */
    method Next() returns (item: u16, ok: bool)
      modifies this
      ensures ok <==> old(Items(start, end, exhausted)) != []
      ensures ok ==> item == old(Items(start, end, exhausted))[0]
      ensures ok ==> Items(start, end, exhausted) == old(Items(start, end, exhausted))[1..]
      ensures !ok ==> item == 0 && unchanged(this)
      ensures end == old(end)
    {
      if exhausted {
        return 0, false;
      } else if start == end {
        exhausted := true;
        return end, true;
      } else {
        var step := Add(start, 1);
        var current := start;
        start := step;
        return current, true;
      }
    }
  }
}
