/**
 * The merge fold of the multiplexing-table reader, independent of what the join test looks at:
 * spans `0 .. n-1` arrive in order; each one is linked into the last cell when the test
 * accepts it against that cell as it stands, and opens a new cell otherwise.
 */
module Merging {

  /** A cell: the span that opened it and the spans linked into it, in order. */
  datatype Cell = Cell(head: nat, members: seq<nat>)

  /** Every index of the cell is below `n`. */
  predicate CellIn(c: Cell, n: nat) {
    c.head < n && forall k :: 0 <= k < |c.members| ==> c.members[k] < n
  }

  predicate AllIn(cells: seq<Cell>, n: nat) {
    forall i :: 0 <= i < |cells| ==> CellIn(cells[i], n)
  }

  /** Span `j` arrives: it joins the last cell if `joins` accepts it, else opens a cell. */
  function Step(cells: seq<Cell>, j: nat, joins: (Cell, nat) -> bool): (r: seq<Cell>)
    requires AllIn(cells, j)
    ensures AllIn(r, j + 1)
    ensures r != [] && r[0].head == (if cells == [] then j else cells[0].head)
  {
    assert forall i :: 0 <= i < |cells| ==> CellIn(cells[i], j + 1);
    if cells == [] then [Cell(j, [])]
    else
      var last := cells[|cells| - 1];
      if joins(last, j) then cells[..|cells| - 1] + [last.(members := last.members + [j])]
      else cells + [Cell(j, [])]
  }

  /** The cells after the first `n` spans. */
  function Merged(n: nat, joins: (Cell, nat) -> bool): (cells: seq<Cell>)
    ensures AllIn(cells, n)
    ensures n > 0 ==> cells != [] && cells[0].head == 0
  {
    if n == 0 then [] else Step(Merged(n - 1, joins), n - 1, joins)
  }

  /** The spans of some cells in reading order: each cell's first span, then its members. */
  function Order(cells: seq<Cell>): seq<nat> {
    if cells == [] then []
    else Order(cells[..|cells| - 1]) + ([cells[|cells| - 1].head] + cells[|cells| - 1].members)
  }

  function Range(n: nat): (r: seq<nat>)
    ensures |r| == n && forall i :: 0 <= i < n ==> r[i] == i
  {
    seq(n, i => i)
  }

  lemma RangeSnoc(n: nat)
    ensures Range(n + 1) == Range(n) + [n]
  {
  }

  lemma OrderSnoc(cells: seq<Cell>, c: Cell)
    ensures Order(cells + [c]) == Order(cells) + ([c.head] + c.members)
  {
    assert (cells + [c])[..|cells|] == cells;
  }

  /** A step adds the new span at the end of the reading order. */
  lemma OrderStep(cells: seq<Cell>, j: nat, joins: (Cell, nat) -> bool)
    requires AllIn(cells, j)
    ensures Order(Step(cells, j, joins)) == Order(cells) + [j]
  {
    if cells != [] {
      var last := cells[|cells| - 1];
      var init := cells[..|cells| - 1];
      assert cells == init + [last];
      OrderSnoc(init, last);
      if joins(last, j) {
        OrderSnoc(init, last.(members := last.members + [j]));
      } else {
        OrderSnoc(cells, Cell(j, []));
      }
    } else {
      OrderSnoc([], Cell(j, []));
    }
  }

  /**
   * The merge partitions the spans: read cell by cell, first span then members, the
   * cells hold every span exactly once and in arrival order.
   */
  lemma {:induction false} MergedPartition(n: nat, joins: (Cell, nat) -> bool)
    ensures Order(Merged(n, joins)) == Range(n)
  {
    if n > 0 {
      var m := n - 1;
      MergedPartition(m, joins);
      OrderStep(Merged(m, joins), m, joins);
      RangeSnoc(m);
    }
  }

  /** Member `k` of `c` was accepted against the cell as it stood before that member. */
  predicate JoinedAt(c: Cell, k: nat, joins: (Cell, nat) -> bool)
    requires k < |c.members|
  {
    joins(Cell(c.head, c.members[..k]), c.members[k])
  }

  predicate MembersJoined(c: Cell, joins: (Cell, nat) -> bool) {
    forall k :: 0 <= k < |c.members| ==> JoinedAt(c, k, joins)
  }

  /** Span `j` was refused by the finished cell `c`. */
  predicate Refused(c: Cell, j: nat, joins: (Cell, nat) -> bool) {
    !joins(c, j)
  }

  /** Every member of every cell was accepted, and every cell's first span refused by the cell before. */
  ghost predicate Explained(cells: seq<Cell>, joins: (Cell, nat) -> bool) {
    && (forall i :: 0 <= i < |cells| ==> MembersJoined(cells[i], joins))
    && (forall i, j :: 0 <= i && j == i + 1 && j < |cells| ==> Refused(cells[i], cells[j].head, joins))
  }

  /** A member the test accepts against the cell keeps the earlier members' reasons. */
  lemma JoinedExtend(c: Cell, j: nat, joins: (Cell, nat) -> bool)
    requires MembersJoined(c, joins) && joins(c, j)
    ensures MembersJoined(c.(members := c.members + [j]), joins)
  {
    var c' := c.(members := c.members + [j]);
    forall k | 0 <= k < |c'.members|
      ensures JoinedAt(c', k, joins)
    {
      if k < |c.members| {
        assert c'.members[..k] == c.members[..k];
        assert JoinedAt(c, k, joins);
      } else {
        assert Cell(c'.head, c'.members[..k]) == c;
      }
    }
  }

  /** A step keeps every reason. */
  lemma StepJoined(cells: seq<Cell>, j: nat, joins: (Cell, nat) -> bool)
    requires AllIn(cells, j) && Explained(cells, joins)
    ensures Explained(Step(cells, j, joins), joins)
  {
    var r := Step(cells, j, joins);
    if cells != [] {
      var last := cells[|cells| - 1];
      var n := |cells| - 1;
      if joins(last, j) {
        assert r == cells[..n] + [last.(members := last.members + [j])];
        JoinedExtend(last, j, joins);
        forall i | 0 <= i < |r|
          ensures MembersJoined(r[i], joins)
        {
          if i < n {
            assert r[i] == cells[i];
          }
        }
        forall i, k | 0 <= i && k == i + 1 && k < |r|
          ensures Refused(r[i], r[k].head, joins)
        {
          assert r[i] == cells[i] && r[k].head == cells[k].head;
        }
      } else {
        assert r == cells + [Cell(j, [])];
        forall i | 0 <= i < |r|
          ensures MembersJoined(r[i], joins)
        {
          if i < |cells| {
            assert r[i] == cells[i];
          }
        }
        forall i, k | 0 <= i && k == i + 1 && k < |r|
          ensures Refused(r[i], r[k].head, joins)
        {
          if k < |cells| {
            assert r[i] == cells[i] && r[k] == cells[k];
          }
        }
      }
    }
  }

  /**
   * Why each span is where it is: a member was accepted against its cell as the cell stood
   * when the member arrived, and a cell's first span was refused by the finished cell before it.
   */
  lemma {:induction false} MergedJoins(n: nat, joins: (Cell, nat) -> bool)
    ensures Explained(Merged(n, joins), joins)
  {
    if n > 0 {
      MergedJoins(n - 1, joins);
      StepJoined(Merged(n - 1, joins), n - 1, joins);
    }
  }
}
