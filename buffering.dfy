/**
 * The period's buffered position: the smallest buffered position among the enabled
 * wrappers, wrappers that have buffered to the end of their source being ignored.
 */
module Buffering {

  const LONG_MIN: int := -0x8000_0000_0000_0000
  const LONG_MAX: int := 0x7fff_ffff_ffff_ffff

  /** A Java long. */
  type Long = x: int | LONG_MIN <= x <= LONG_MAX

  /** C.END_OF_SOURCE_US, which is Long.MIN_VALUE. */
  const END_OF_SOURCE_US: Long := LONG_MIN

  function Min(a: Long, b: Long): Long {
    if a <= b then a else b
  }

  /** The accumulating loop over the wrappers' positions, starting from `acc`. */
  function MinIgnoringEnd(positions: seq<Long>, acc: Long): Long {
    if |positions| == 0 then acc
    else MinIgnoringEnd(positions[1..], if positions[0] != END_OF_SOURCE_US then Min(acc, positions[0]) else acc)
  }

  /** getBufferedPositionUs over the enabled wrappers' buffered positions, in order. */
  function BufferedPosition(positions: seq<Long>): Long {
    var b := MinIgnoringEnd(positions, LONG_MAX);
    if b == LONG_MAX then END_OF_SOURCE_US else b
  }

  /**
   * The loop's result is the start value or one of the positions other than the end
   * marker, and lies at or below the start value and every such position.
   */
  lemma {:induction false} MinIgnoringEndBounds(positions: seq<Long>, acc: Long)
    ensures MinIgnoringEnd(positions, acc) <= acc
    ensures forall i :: 0 <= i < |positions| && positions[i] != END_OF_SOURCE_US ==>
      MinIgnoringEnd(positions, acc) <= positions[i]
    ensures MinIgnoringEnd(positions, acc) == acc ||
      exists i :: 0 <= i < |positions| && positions[i] != END_OF_SOURCE_US && MinIgnoringEnd(positions, acc) == positions[i]
  {
    if |positions| > 0 {
      var next := if positions[0] != END_OF_SOURCE_US then Min(acc, positions[0]) else acc;
      MinIgnoringEndBounds(positions[1..], next);
      assert forall i :: 1 <= i < |positions| ==> positions[i] == positions[1..][i - 1];
      if MinIgnoringEnd(positions, acc) != next {
        var i :| 0 <= i < |positions[1..]| && positions[1..][i] != END_OF_SOURCE_US &&
          MinIgnoringEnd(positions, acc) == positions[1..][i];
        assert positions[i + 1] == positions[1..][i];
      } else if next != acc {
        assert positions[0] != END_OF_SOURCE_US && next == positions[0];
      }
    }
  }

  /**
   * The buffered position is the end marker exactly when every position is the end marker
   * or Long.MAX_VALUE (in particular when there is no position at all); otherwise it is the
   * smallest position that is not the end marker.
   */
  lemma BufferedPositionIsMinimum(positions: seq<Long>)
    ensures BufferedPosition(positions) == END_OF_SOURCE_US <==>
      forall i :: 0 <= i < |positions| ==> positions[i] == END_OF_SOURCE_US || positions[i] == LONG_MAX
    ensures BufferedPosition(positions) != END_OF_SOURCE_US ==>
      (exists i :: 0 <= i < |positions| && positions[i] == BufferedPosition(positions)) &&
      forall i :: 0 <= i < |positions| && positions[i] != END_OF_SOURCE_US ==> BufferedPosition(positions) <= positions[i]
  {
    MinIgnoringEndBounds(positions, LONG_MAX);
  }

  /** Positions 1000, end of source and 2000 give 1000. */
  lemma BufferedPositionExample()
    ensures BufferedPosition([1000, END_OF_SOURCE_US, 2000]) == 1000
  {
    var ps: seq<Long> := [1000, END_OF_SOURCE_US, 2000];
    BufferedPositionIsMinimum(ps);
    assert ps[0] != END_OF_SOURCE_US && ps[0] != LONG_MAX;
  }
}
