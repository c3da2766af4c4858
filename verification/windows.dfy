/** Sliding windows: the "drop the oldest k, keep order, append the batch" update
    shared by the raw-sample window, the mel window and the embedding window, the
    row-major flattening of a 2-D window, and the in-place array algorithms that
    implement them. */
module Windows {

  datatype Option<T> = None | Some(value: T)

  // ---------------------------------------------------------------------------
  // Specification on sequences
  // ---------------------------------------------------------------------------

  /** The window after dropping its oldest |batch| entries and appending batch. */
  function ShiftAppend<T>(window: seq<T>, batch: seq<T>): (r: seq<T>)
    requires |batch| <= |window|
    ensures |r| == |window|
    ensures forall i :: 0 <= i < |window| - |batch| ==> r[i] == window[i + |batch|]
    ensures forall i :: |window| - |batch| <= i < |window| ==> r[i] == batch[i - (|window| - |batch|)]
  {
    window[|batch|..] + batch
  }

  /** Two advances in a row are one advance by the concatenated batch. */
  lemma ShiftAppendTwice<T>(window: seq<T>, a: seq<T>, b: seq<T>)
    requires |a| + |b| <= |window|
    ensures ShiftAppend(ShiftAppend(window, a), b) == ShiftAppend(window, a + b)
  {
    assert ShiftAppend(window, a)[|b|..] == window[|a| + |b|..] + a;
  }

  /** The window fed with a stream of batches, oldest batch first. */
  function Feed<T>(window: seq<T>, batches: seq<seq<T>>): (r: seq<T>)
    requires forall k :: 0 <= k < |batches| ==> |batches[k]| <= |window|
    ensures |r| == |window|
    decreases |batches|
  {
    if batches == [] then window
    else Feed(ShiftAppend(window, batches[0]), batches[1..])
  }

  /** All the batches of a stream, in arrival order. */
  function Concat<T>(batches: seq<seq<T>>): seq<T>
  {
    if batches == [] then [] else batches[0] + Concat(batches[1..])
  }

  /** Whatever the stream, the window always holds the |window| most recent
      elements of its initial contents followed by everything that arrived. */
  lemma {:induction false} FeedKeepsLatest<T>(window: seq<T>, batches: seq<seq<T>>)
    requires forall k :: 0 <= k < |batches| ==> |batches[k]| <= |window|
    ensures Feed(window, batches) == (window + Concat(batches))[|Concat(batches)|..]
    decreases |batches|
  {
    if batches != [] {
      var b, rest := batches[0], batches[1..];
      var w' := ShiftAppend(window, b);
      FeedKeepsLatest(w', rest);
      var c := Concat(rest);
      assert Concat(batches) == b + c;
      calc {
        Feed(window, batches);
        Feed(w', rest);
        (w' + c)[|c|..];
        { assert w' + c == (window + b + c)[|b|..]; }
        (window + b + c)[|b|..][|c|..];
        (window + b + c)[|b| + |c|..];
        { assert window + b + c == window + (b + c); }
        (window + Concat(batches))[|Concat(batches)|..];
      }
    }
  }

  /** Every element multiplied by gain, in place of the sample it came from. */
  function Scale(gain: real, s: seq<real>): (r: seq<real>)
    ensures |r| == |s|
    ensures forall i :: 0 <= i < |s| ==> r[i] == gain * s[i]
  {
    seq(|s|, i requires 0 <= i < |s| => gain * s[i])
  }

  // ---------------------------------------------------------------------------
  // Two-dimensional windows and their row-major flattening
  // ---------------------------------------------------------------------------

  /** g is a rows x cols matrix of rows. */
  predicate IsGrid<T>(g: seq<seq<T>>, rows: nat, cols: nat)
  {
    |g| == rows && forall i :: 0 <= i < |g| ==> |g[i]| == cols
  }

  /** The rows of a two-dimensional array, oldest (index 0) first. */
  function Grid<T>(a: array2<T>): (g: seq<seq<T>>)
    reads a
    ensures IsGrid(g, a.Length0, a.Length1)
    ensures forall i, j :: 0 <= i < a.Length0 && 0 <= j < a.Length1 ==> g[i][j] == a[i, j]
  {
    seq(a.Length0, i requires 0 <= i < a.Length0 reads a =>
      seq(a.Length1, j requires 0 <= j < a.Length1 reads a => a[i, j]))
  }

  /** Two grids of the same shape with the same entries are equal. */
  lemma GridExt<T>(g: seq<seq<T>>, h: seq<seq<T>>, rows: nat, cols: nat)
    requires IsGrid(g, rows, cols) && IsGrid(h, rows, cols)
    requires forall i, j :: 0 <= i < rows && 0 <= j < cols ==> g[i][j] == h[i][j]
    ensures g == h
  {
    forall i | 0 <= i < rows
      ensures g[i] == h[i]
    {
      assert |g[i]| == cols == |h[i]|;
      forall j | 0 <= j < cols
        ensures g[i][j] == h[i][j]
      {
      }
    }
  }

  /** Rows laid end to end, oldest row first (row-major order). */
  function Flatten<T>(g: seq<seq<T>>): seq<T>
  {
    if g == [] then [] else g[0] + Flatten(g[1..])
  }

  /** Appending a row to the grid appends it to the flattening. */
  lemma {:induction false} FlattenSnoc<T>(g: seq<seq<T>>, row: seq<T>)
    ensures Flatten(g + [row]) == Flatten(g) + row
  {
    if g != [] {
      assert (g + [row])[1..] == g[1..] + [row];
      FlattenSnoc(g[1..], row);
    } else {
      assert [row][1..] == [];
    }
  }

  lemma MulStep(i: nat, n: nat, cols: nat)
    requires i < n
    ensures i * cols + cols <= n * cols
  {
    assert i * cols + cols == (i + 1) * cols;
  }

  /** A rows x cols grid flattens to rows * cols values. */
  lemma {:induction false} FlattenLength<T>(g: seq<seq<T>>, rows: nat, cols: nat)
    requires IsGrid(g, rows, cols)
    ensures |Flatten(g)| == rows * cols
  {
    if rows > 0 {
      FlattenLength(g[1..], rows - 1, cols);
      assert |Flatten(g)| == cols + (rows - 1) * cols;
    }
  }

  /** Flattening distributes over concatenation of grids. */
  lemma {:induction false} FlattenAppend<T>(g: seq<seq<T>>, h: seq<seq<T>>)
    ensures Flatten(g + h) == Flatten(g) + Flatten(h)
    decreases |g|
  {
    if g != [] {
      assert (g + h)[1..] == g[1..] + h;
      FlattenAppend(g[1..], h);
    } else {
      assert g + h == h;
    }
  }

  /** The entry of row i and column j of a grid follows the flattened rows before it. */
  lemma FlattenAtRow<T>(g: seq<seq<T>>, rows: nat, cols: nat, i: nat, j: nat)
    requires IsGrid(g, rows, cols) && i < rows && j < cols
    ensures |Flatten(g[..i])| + j < |Flatten(g)|
    ensures Flatten(g)[|Flatten(g[..i])| + j] == g[i][j]
  {
    assert g == g[..i] + g[i..];
    FlattenAppend(g[..i], g[i..]);
    assert Flatten(g[i..]) == g[i] + Flatten(g[i + 1..]);
  }

  /** The entry of row i and column j of a grid lands at index i * cols + j. */
  lemma FlattenAtIndex<T>(g: seq<seq<T>>, rows: nat, cols: nat, i: nat, j: nat)
    requires IsGrid(g, rows, cols) && i < rows && j < cols
    ensures i * cols + j < |Flatten(g)| && Flatten(g)[i * cols + j] == g[i][j]
  {
    FlattenAtRow(g, rows, cols, i, j);
    FlattenLength(g[..i], i, cols);
  }

  /** The inverse of Flatten: cut a vector into consecutive rows of cols values. */
  function Chunks<T>(s: seq<T>, cols: nat): seq<seq<T>>
    requires cols > 0
    decreases |s|
  {
    if |s| <= cols then (if s == [] then [] else [s]) else [s[..cols]] + Chunks(s[cols..], cols)
  }

  /** Cutting a flattened grid back into rows gives the grid back. */
  lemma {:induction false} ChunksFlatten<T>(g: seq<seq<T>>, rows: nat, cols: nat)
    requires cols > 0 && IsGrid(g, rows, cols)
    ensures Chunks(Flatten(g), cols) == g
  {
    if rows > 0 {
      ChunksFlatten(g[1..], rows - 1, cols);
      FlattenLength(g[1..], rows - 1, cols);
      var f := Flatten(g);
      assert f == g[0] + Flatten(g[1..]);
      assert f[..cols] == g[0];
      assert f[cols..] == Flatten(g[1..]);
      if rows == 1 {
        assert g[1..] == [];
        assert f == g[0];
        assert g == [g[0]];
      } else {
        assert |f| > cols;
        assert g == [g[0]] + g[1..];
      }
    }
  }

  // ---------------------------------------------------------------------------
  // In-place array algorithms
  // ---------------------------------------------------------------------------

  /** System.arraycopy: copy length elements from src[srcPos..] to dest[destPos..],
      as if through a temporary copy, so that src and dest may be the same array. */
  method ArrayCopy<T>(src: array<T>, srcPos: nat, dest: array<T>, destPos: nat, length: nat)
    requires srcPos + length <= src.Length && destPos + length <= dest.Length
    modifies dest
    ensures dest[..] == old(dest[..destPos]) + old(src[srcPos..srcPos + length]) + old(dest[destPos + length..])
  {
    var tmp := src[srcPos..srcPos + length];
    forall k | 0 <= k < length {
      dest[destPos + k] := tmp[k];
    }
    assert dest[..] == old(dest[..destPos]) + tmp + old(dest[destPos + length..]);
  }

  /** Multiply every element of a by gain, in place. */
  method ScaleInPlace(a: array<real>, gain: real)
    modifies a
    ensures a[..] == Scale(gain, old(a[..]))
  {
    var i := 0;
    while i < a.Length
      invariant 0 <= i <= a.Length
      invariant forall k :: 0 <= k < i ==> a[k] == gain * old(a[k])
      invariant forall k :: i <= k < a.Length ==> a[k] == old(a[k])
    {
      a[i] := gain * a[i];
      i := i + 1;
    }
    assert forall k :: 0 <= k < a.Length ==> a[..][k] == Scale(gain, old(a[..]))[k];
  }

  /** Move rows k.. of g to the front, row by row; the last k rows keep their
      old contents. */
  method ShiftRowsUp(g: array2<real>, k: nat)
    requires k <= g.Length0
    modifies g
    ensures forall r, c :: 0 <= r < g.Length0 - k && 0 <= c < g.Length1 ==> g[r, c] == old(g[r + k, c])
    ensures forall r, c :: g.Length0 - k <= r < g.Length0 && 0 <= c < g.Length1 ==> g[r, c] == old(g[r, c])
  {
    var rows, cols := g.Length0, g.Length1;
    var i := 0;
    while i < rows - k
      invariant 0 <= i <= rows - k
      invariant forall r, c :: 0 <= r < i && 0 <= c < cols ==> g[r, c] == old(g[r + k, c])
      invariant forall r, c :: i <= r < rows && 0 <= c < cols ==> g[r, c] == old(g[r, c])
    {
      var j := 0;
      while j < cols
        invariant 0 <= j <= cols
        invariant forall r, c :: 0 <= r < i && 0 <= c < cols ==> g[r, c] == old(g[r + k, c])
        invariant forall c :: 0 <= c < j ==> g[i, c] == old(g[i + k, c])
        invariant forall r, c :: i <= r < rows && 0 <= c < cols && (r > i || c >= j) ==> g[r, c] == old(g[r, c])
      {
        g[i, j] := g[i + k, j];
        j := j + 1;
      }
      i := i + 1;
    }
  }

  /** Write batch into the last |batch| rows of g; the rows before them stay. */
  method FillLastRows(g: array2<real>, batch: seq<seq<real>>)
    requires |batch| <= g.Length0 && IsGrid(batch, |batch|, g.Length1)
    modifies g
    ensures forall r, c :: 0 <= r < g.Length0 - |batch| && 0 <= c < g.Length1 ==> g[r, c] == old(g[r, c])
    ensures forall r, c :: 0 <= r < |batch| && 0 <= c < g.Length1 ==> g[g.Length0 - |batch| + r, c] == batch[r][c]
  {
    var rows, cols, k := g.Length0, g.Length1, |batch|;
    var i := 0;
    while i < k
      invariant 0 <= i <= k
      invariant forall r, c :: 0 <= r < rows - k && 0 <= c < cols ==> g[r, c] == old(g[r, c])
      invariant forall r, c :: 0 <= r < i && 0 <= c < cols ==> g[rows - k + r, c] == batch[r][c]
    {
      var j := 0;
      while j < cols
        invariant 0 <= j <= cols
        invariant forall r, c :: 0 <= r < rows - k && 0 <= c < cols ==> g[r, c] == old(g[r, c])
        invariant forall r, c :: 0 <= r < i && 0 <= c < cols ==> g[rows - k + r, c] == batch[r][c]
        invariant forall c :: 0 <= c < j ==> g[rows - k + i, c] == batch[i][c]
      {
        g[rows - k + i, j] := batch[i][j];
        j := j + 1;
      }
      i := i + 1;
    }
  }

  /** Move rows k.. of g to the front, then write batch into the freed last rows. */
  method AdvanceGrid(g: array2<real>, batch: seq<seq<real>>)
    requires |batch| <= g.Length0 && IsGrid(batch, |batch|, g.Length1)
    modifies g
    ensures Grid(g) == ShiftAppend(old(Grid(g)), batch)
  {
    ghost var before := Grid(g);
    var rows, cols, k := g.Length0, g.Length1, |batch|;
    ShiftRowsUp(g, k);
    FillLastRows(g, batch);
    ShiftAppendPointwise(before, batch, Grid(g), rows, cols);
  }

  /** A grid whose first rows are the old rows shifted up by |batch| and whose last
      rows are the batch is the shift-append of the two. */
  lemma ShiftAppendPointwise<T>(before: seq<seq<T>>, batch: seq<seq<T>>, h: seq<seq<T>>, rows: nat, cols: nat)
    requires |batch| <= rows
    requires IsGrid(before, rows, cols) && IsGrid(batch, |batch|, cols) && IsGrid(h, rows, cols)
    requires forall r, c :: 0 <= r < rows - |batch| && 0 <= c < cols ==> h[r][c] == before[r + |batch|][c]
    requires forall r, c :: 0 <= r < |batch| && 0 <= c < cols ==> h[rows - |batch| + r][c] == batch[r][c]
    ensures h == ShiftAppend(before, batch)
  {
    var k := |batch|;
    var after := ShiftAppend(before, batch);
    forall r, c | 0 <= r < rows && 0 <= c < cols
      ensures h[r][c] == after[r][c]
    {
      if r >= rows - k {
        assert h[rows - k + (r - (rows - k))][c] == batch[r - (rows - k)][c];
      }
    }
    GridExt(h, after, rows, cols);
  }

  /** The rows before row i, then row i, are a prefix of the flattening. */
  lemma FlattenPrefix<T>(g: seq<seq<T>>, i: nat)
    requires i < |g|
    ensures Flatten(g[..i + 1]) == Flatten(g[..i]) + g[i]
    ensures |Flatten(g[..i + 1])| <= |Flatten(g)|
  {
    assert g[..i + 1] == g[..i] + [g[i]];
    FlattenSnoc(g[..i], g[i]);
    assert g == g[..i + 1] + g[i + 1..];
    FlattenAppend(g[..i + 1], g[i + 1..]);
  }

  /** Copy row i of a into out from index start on. */
  method CopyRow(a: array2<real>, i: nat, out: array<real>, start: nat)
    requires i < a.Length0 && start + a.Length1 <= out.Length
    modifies out
    ensures out[..start + a.Length1] == old(out[..start]) + Grid(a)[i]
  {
    var j := 0;
    while j < a.Length1
      invariant 0 <= j <= a.Length1
      invariant out[..start + j] == old(out[..start]) + Grid(a)[i][..j]
    {
      out[start + j] := a[i, j];
      assert Grid(a)[i][..j + 1] == Grid(a)[i][..j] + [a[i, j]];
      j := j + 1;
    }
    assert Grid(a)[i][..a.Length1] == Grid(a)[i];
  }

  /** Row-major flattening of a two-dimensional array, written with a running
      index into a fresh vector. */
  method FlattenRowMajor(a: array2<real>) returns (flat: seq<real>)
    ensures flat == Flatten(Grid(a))
    ensures |flat| == a.Length0 * a.Length1
  {
    var rows, cols := a.Length0, a.Length1;
    ghost var g := Grid(a);
    FlattenLength(g, rows, cols);
    var out := new real[rows * cols];
    var index := 0;
    var i := 0;
    while i < rows
      invariant 0 <= i <= rows
      invariant index == |Flatten(g[..i])| <= out.Length
      invariant out[..index] == Flatten(g[..i])
    {
      FlattenPrefix(g, i);
      CopyRow(a, i, out, index);
      index := index + cols;
      i := i + 1;
    }
    assert g[..rows] == g;
    assert out[..] == out[..index];
    flat := out[..];
  }
}
