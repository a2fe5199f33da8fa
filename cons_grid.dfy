/**
 * What the requests of the early console (stage2/cons.early.c) do to the
 * character cells of the screen: __cons_move_lines copies lines so that
 * overlapping source and destination ranges come out right, and
 * __cons_scroll as written moves the text down instead of up.
 */
module ConsGrid {
  import opened ConsGeom
  import opened ConsText

  /** The code shown in each cell, line by line. */
  type Grid = seq<seq<int>>

  /** A cell that shows nothing. */
  const BLANK: int := 0

  function Blank(n: nat): (row: seq<int>)
    ensures |row| == n
  {
    seq(n, _ => BLANK)
  }

  /** yn lines of xn cells. */
  predicate Rect(s: Grid, yn: int, xn: int)
  {
    |s| == yn && forall r :: 0 <= r < |s| ==> |s[r]| == xn
  }

  /** One request: a drawn, erased or copied run of cells, or a cleared screen; requests outside the screen change nothing. */
  function Apply(s: Grid, op: Op): (r: Grid)
    ensures |r| == |s|
  {
    match op
    case DrawChar(y, x, wc) =>
      if 0 <= y < |s| && 0 <= x < |s[y]| then s[y := s[y][x := wc]] else s
    case EraseCells(y, x, n) =>
      if 0 <= y < |s| && 0 <= x && 0 <= n && x + n <= |s[y]| then s[y := s[y][..x] + Blank(n) + s[y][x + n..]] else s
    case MoveCells(dy, dx, sy, sx, n) =>
      if 0 <= dy < |s| && 0 <= sy < |s| && 0 <= dx && 0 <= sx && 0 <= n && dx + n <= |s[dy]| && sx + n <= |s[sy]|
      then s[dy := s[dy][..dx] + s[sy][sx..sx + n] + s[dy][dx + n..]]
      else s
    case ZeroFb(_) => seq(|s|, r requires 0 <= r < |s| => Blank(|s[r]|))
  }

  /** The requests in order. */
  function Replay(s: Grid, ops: seq<Op>): (r: Grid)
    ensures |r| == |s|
    decreases |ops|
  {
    if |ops| == 0 then s else Apply(Replay(s, ops[..|ops| - 1]), ops[|ops| - 1])
  }

  lemma {:induction false} ReplayAppend(s: Grid, a: seq<Op>, b: seq<Op>)
    ensures Replay(s, a + b) == Replay(Replay(s, a), b)
    decreases |b|
  {
    if |b| == 0 {
      assert a + b == a;
    } else {
      assert (a + b)[..|a + b| - 1] == a + b[..|b| - 1];
      ReplayAppend(s, a, b[..|b| - 1]);
    }
  }

  lemma ReplayLast(s: Grid, ops: seq<Op>, j: nat, k: nat)
    requires k <= |ops| && k == j + 1
    ensures Replay(s, ops[..k]) == Apply(Replay(s, ops[..j]), ops[j])
  {
    assert ops[..k][..j] == ops[..j];
  }

  /** A whole-line copy replaces the destination line by the source line. */
  lemma MoveLine(s: Grid, yn: int, xn: int, d: int, r: int)
    requires Rect(s, yn, xn) && 0 <= d < yn && 0 <= r < yn
    ensures Apply(s, MoveCells(d, 0, r, 0, xn)) == s[d := s[r]]
  {
    assert s[d][..0] + s[r][0..xn] + s[d][xn..] == s[r];
  }

  /** The reference for a line move: lines dst .. dst+n-1 show what lines src .. src+n-1 showed. */
  function BlockMove(s: Grid, dst: int, src: int, n: int): (r: Grid)
    ensures |r| == |s|
  {
    seq(|s|, y requires 0 <= y < |s| =>
      if dst <= y < dst + n && 0 <= y - dst + src < |s| then s[y - dst + src] else s[y])
  }

  lemma BlockMoveRect(s: Grid, yn: int, xn: int, dst: int, src: int, n: int)
    requires Rect(s, yn, xn)
    ensures Rect(BlockMove(s, dst, src, n), yn, xn)
  {
  }

  lemma ReplayOne(s: Grid, op: Op)
    ensures Replay(s, [op]) == Apply(s, op)
  {
    assert [op][..0] == [];
  }

  /** Copying toward the top: the first copy, then the rest one line further down. */
  lemma MoveUpSplit(dst: int, src: int, n: nat, xn: int)
    requires n >= 1
    ensures MoveUpOps(dst, src, n, xn) == [MoveCells(dst, 0, src, 0, xn)] + MoveUpOps(dst + 1, src + 1, n - 1, xn)
  {
  }

  /** Copying toward the bottom: the last line first, then the lines above it. */
  lemma MoveDownSplit(dst: int, src: int, n: nat, xn: int)
    requires n >= 1
    ensures MoveDownOps(dst, src, n, xn) == [MoveCells(dst + n - 1, 0, src + n - 1, 0, xn)] + MoveDownOps(dst, src, n - 1, xn)
  {
  }

  /** Copying top down toward the top never overwrites a source line still to be read. */
  lemma {:induction false} MoveUpLines(s: Grid, yn: int, xn: int, dst: int, src: int, n: nat)
    requires Rect(s, yn, xn) && 0 <= dst < src && src + n <= yn
    ensures Replay(s, MoveUpOps(dst, src, n, xn)) == BlockMove(s, dst, src, n)
    decreases n
  {
    if n == 0 {
      assert MoveUpOps(dst, src, n, xn) == [];
      BlockMoveNone(s, dst, src);
    } else {
      var s1 := s[dst := s[src]];
      assert Rect(s1, yn, xn);
      MoveUpLines(s1, yn, xn, dst + 1, src + 1, n - 1);
      MoveUpMore(s, yn, xn, dst, src, n);
    }
  }

  /** The first copy of a move toward the top, followed by the rest of the move. */
  lemma MoveUpMore(s: Grid, yn: int, xn: int, dst: int, src: int, n: nat)
    requires Rect(s, yn, xn) && 0 <= dst < src && src + n <= yn && n >= 1
    requires Replay(s[dst := s[src]], MoveUpOps(dst + 1, src + 1, n - 1, xn)) == BlockMove(s[dst := s[src]], dst + 1, src + 1, n - 1)
    ensures Replay(s, MoveUpOps(dst, src, n, xn)) == BlockMove(s, dst, src, n)
  {
    var first := MoveCells(dst, 0, src, 0, xn);
    var rest := MoveUpOps(dst + 1, src + 1, n - 1, xn);
    var s1 := s[dst := s[src]];
    calc {
      Replay(s, MoveUpOps(dst, src, n, xn));
      { MoveUpSplit(dst, src, n, xn); }
      Replay(s, [first] + rest);
      { ReplayAppend(s, [first], rest); }
      Replay(Replay(s, [first]), rest);
      { ReplayOne(s, first); MoveLine(s, yn, xn, dst, src); }
      Replay(s1, rest);
      BlockMove(s1, dst + 1, src + 1, n - 1);
      { MoveUpFirst(s, dst, src, n); }
      BlockMove(s, dst, src, n);
    }
  }

  lemma MoveUpFirst(s: Grid, dst: int, src: int, n: nat)
    requires 0 <= dst < src && src + n <= |s| && n >= 1
    ensures BlockMove(s[dst := s[src]], dst + 1, src + 1, n - 1) == BlockMove(s, dst, src, n)
  {
  }

  lemma BlockMoveNone(s: Grid, dst: int, src: int)
    ensures BlockMove(s, dst, src, 0) == s
  {
  }

  /** Copying bottom up toward the bottom never overwrites a source line still to be read. */
  lemma {:induction false} MoveDownLines(s: Grid, yn: int, xn: int, dst: int, src: int, n: nat)
    requires Rect(s, yn, xn) && 0 <= src < dst && dst + n <= yn
    ensures Replay(s, MoveDownOps(dst, src, n, xn)) == BlockMove(s, dst, src, n)
    decreases n
  {
    if n == 0 {
      assert MoveDownOps(dst, src, n, xn) == [];
      BlockMoveNone(s, dst, src);
    } else {
      var s1 := s[dst + n - 1 := s[src + n - 1]];
      assert Rect(s1, yn, xn);
      MoveDownLines(s1, yn, xn, dst, src, n - 1);
      MoveDownMore(s, yn, xn, dst, src, n);
    }
  }

  /** The last line of a move toward the bottom, followed by the lines above it. */
  lemma MoveDownMore(s: Grid, yn: int, xn: int, dst: int, src: int, n: nat)
    requires Rect(s, yn, xn) && 0 <= src < dst && dst + n <= yn && n >= 1
    requires Replay(s[dst + n - 1 := s[src + n - 1]], MoveDownOps(dst, src, n - 1, xn)) ==
             BlockMove(s[dst + n - 1 := s[src + n - 1]], dst, src, n - 1)
    ensures Replay(s, MoveDownOps(dst, src, n, xn)) == BlockMove(s, dst, src, n)
  {
    var d, r := dst + n - 1, src + n - 1;
    var first := MoveCells(d, 0, r, 0, xn);
    var rest := MoveDownOps(dst, src, n - 1, xn);
    var s1 := s[d := s[r]];
    calc {
      Replay(s, MoveDownOps(dst, src, n, xn));
      { MoveDownSplit(dst, src, n, xn); }
      Replay(s, [first] + rest);
      { ReplayAppend(s, [first], rest); }
      Replay(Replay(s, [first]), rest);
      { ReplayOne(s, first); MoveLine(s, yn, xn, d, r); }
      Replay(s1, rest);
      BlockMove(s1, dst, src, n - 1);
      { MoveDownFirst(s, dst, src, n); }
      BlockMove(s, dst, src, n);
    }
  }

  lemma MoveDownFirst(s: Grid, dst: int, src: int, n: nat)
    requires 0 <= src < dst && dst + n <= |s| && n >= 1
    ensures BlockMove(s[dst + n - 1 := s[src + n - 1]], dst, src, n - 1) == BlockMove(s, dst, src, n)
  {
  }

  /** __cons_move_lines is a block move whichever way the ranges overlap. */
  lemma MoveLinesIsBlockMove(s: Grid, yn: int, xn: int, dst: int, src: int, n: nat)
    requires Rect(s, yn, xn) && 0 <= dst && 0 <= src && dst + n <= yn && src + n <= yn
    ensures Replay(s, MoveLinesOps(dst, src, n, xn)) == BlockMove(s, dst, src, n)
  {
    if dst < src {
      MoveUpLines(s, yn, xn, dst, src, n);
    } else if dst > src {
      MoveDownLines(s, yn, xn, dst, src, n);
    } else {
      assert BlockMove(s, dst, src, n) == s;
    }
  }

  /** The reference for erasing lines. */
  function Erased(s: Grid, y: int, n: int, xn: nat): (r: Grid)
    ensures |r| == |s|
  {
    seq(|s|, r requires 0 <= r < |s| => if y <= r < y + n then Blank(xn) else s[r])
  }

  lemma {:induction false} EraseSteps(s: Grid, yn: int, xn: nat, y: int, n: nat, k: nat)
    requires Rect(s, yn, xn) && 0 <= y && y + n <= yn && k <= n
    ensures Replay(s, EraseLinesOps(y, n, xn)[..k]) == Erased(s, y, k, xn)
    decreases k
  {
    var ops := EraseLinesOps(y, n, xn);
    if k == 0 {
      assert Erased(s, y, 0, xn) == s;
    } else {
      EraseSteps(s, yn, xn, y, n, k - 1);
      ReplayLast(s, ops, k - 1, k);
      EraseStep(s, yn, xn, y, k - 1, k);
    }
  }

  /** Erasing one more line below the lines already blank. */
  lemma EraseStep(s: Grid, yn: int, xn: nat, y: int, j: nat, k: nat)
    requires Rect(s, yn, xn) && 0 <= y && y + j < yn && k == j + 1
    ensures Apply(Erased(s, y, j, xn), EraseCells(y + j, 0, xn)) == Erased(s, y, k, xn)
  {
    var p := Erased(s, y, j, xn);
    assert |p[y + j]| == xn;
    assert p[y + j][..0] + Blank(xn) + p[y + j][xn..] == Blank(xn);
    assert p[y + j := Blank(xn)] == Erased(s, y, k, xn);
  }

  /** __cons_erase_lines blanks exactly lines y .. y+n-1. */
  lemma EraseLinesBlanks(s: Grid, yn: int, xn: nat, y: int, n: nat)
    requires Rect(s, yn, xn) && 0 <= y && y + n <= yn
    ensures Replay(s, EraseLinesOps(y, n, xn)) == Erased(s, y, n, xn)
  {
    EraseSteps(s, yn, xn, y, n, n);
    assert EraseLinesOps(y, n, xn)[..n] == EraseLinesOps(y, n, xn);
  }

  /** Scrolling up by n: each line shows the one n below it, and the last n lines are blank. */
  lemma ScrollShiftsUp(s: Grid, g: Geom, n: nat)
    requires g.xn >= 0 && Rect(s, g.yn, g.xn) && n <= g.yn
    ensures Replay(s, ScrollOps(g, n)) ==
            seq(g.yn, r requires 0 <= r < g.yn => if r < g.yn - n then s[r + n] else Blank(g.xn))
  {
    var m := MoveLinesOps(0, n, g.yn - n, g.xn);
    ReplayAppend(s, m, EraseLinesOps(g.yn - n, n, g.xn));
    MoveLinesIsBlockMove(s, g.yn, g.xn, 0, n, g.yn - n);
    BlockMoveRect(s, g.yn, g.xn, 0, n, g.yn - n);
    EraseLinesBlanks(BlockMove(s, 0, n, g.yn - n), g.yn, g.xn, g.yn - n, n);
  }

  /** __cons_scroll as written: the first n lines stay, the others show the line n above them, and the last n are blank. */
  lemma ScrollAsWrittenShiftsDown(s: Grid, g: Geom, n: nat)
    requires g.xn >= 0 && Rect(s, g.yn, g.xn) && n <= g.yn
    ensures Replay(s, ScrollOpsAsWritten(g, n)) ==
            seq(g.yn, r requires 0 <= r < g.yn =>
              if r >= g.yn - n then Blank(g.xn) else if r < n then s[r] else s[r - n])
  {
    var m := MoveLinesOps(n, 0, g.yn - n, g.xn);
    ReplayAppend(s, m, EraseLinesOps(g.yn - n, n, g.xn));
    MoveLinesIsBlockMove(s, g.yn, g.xn, n, 0, g.yn - n);
    BlockMoveRect(s, g.yn, g.xn, n, 0, g.yn - n);
    EraseLinesBlanks(BlockMove(s, n, 0, g.yn - n), g.yn, g.xn, g.yn - n, n);
  }

  /**
   * On a two-line screen showing A over B, a line feed on the bottom line
   * scrolls as written to A over blank, losing B; scrolling up gives B
   * over blank.
   */
  lemma ScrollAsWrittenLosesBottomLine(g: Geom)
    requires g.yn == 2 && g.xn == 1
    ensures Replay([['A' as int], ['B' as int]], ScrollOpsAsWritten(g, 1)) == [['A' as int], [BLANK]]
    ensures Replay([['A' as int], ['B' as int]], ScrollOps(g, 1)) == [['B' as int], [BLANK]]
  {
    var s: Grid := [['A' as int], ['B' as int]];
    ScrollAsWrittenShiftsDown(s, g, 1);
    ScrollShiftsUp(s, g, 1);
    assert Blank(1) == [BLANK];
  }
}
