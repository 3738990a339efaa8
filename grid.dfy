/**
 * Placement of tents on the map: `clamp`, the default grid `makeGrid(n)`,
 * the drag position and the tent count `recreateGrid` asks for.
 */
module MapGrid {
  import opened Wrappers
  import opened Venue
  import Decimal

  /** `clamp`: n limited from above by hi, then from below by lo. */
  function Clamp(n: real, lo: real, hi: real): (r: real)
    ensures lo <= hi ==> lo <= r <= hi
    ensures lo <= n <= hi ==> r == n
    ensures n <= lo ==> r == lo
    ensures lo <= hi <= n ==> r == hi
  {
    var m := if hi <= n then hi else n;
    if m <= lo then lo else m
  }

  /** `Math.ceil(Math.sqrt(n))` for integers: the least c with c * c >= n. */
  function CeilSqrt(n: int): (c: nat)
    ensures c * c >= n
    ensures c == 0 || (c - 1) * (c - 1) < n
  {
    CeilSqrtFrom(n, 0)
  }

  function CeilSqrtFrom(n: int, c: nat): (r: nat)
    requires c == 0 || (c - 1) * (c - 1) < n
    ensures r * r >= n
    ensures r == 0 || (r - 1) * (r - 1) < n
    decreases n - c
  {
    if c * c >= n then c
    else
      assert c < n;
      CeilSqrtFrom(n, c + 1)
  }

  /** `Math.ceil(n / cols)`; with no columns there are no rows (JavaScript
      computes NaN, and the loop over rows does not run). */
  function RowsFor(n: int, cols: nat): (rows: nat)
    ensures cols > 0 && n > 0 ==> rows * cols >= n && rows > 0
    ensures cols > 0 && n > 0 ==> (rows - 1) * cols < n
  {
    if cols == 0 || n <= 0 then 0
    else
      var q := (n + cols - 1) / cols;
      assert q * cols <= n + cols - 1;
      q
  }

  /** The k-th tent (0-based) of the default grid: row k / cols, column k % cols,
      centred in its cell, available, price 0. */
  function GridTent(k: nat, cols: nat, rows: nat): Tent
    requires cols > 0 && rows > 0
  {
    Tent(k + 1, ((k % cols) as real + 0.5) / (cols as real), ((k / cols) as real + 0.5) / (rows as real), Av, 0.0)
  }

  /** The grid `makeGrid(n)` produces. */
  function Grid(n: int): seq<Tent> {
    if n <= 0 then []
    else
      var cols := CeilSqrt(n);
      var rows := RowsFor(n, cols);
      seq(n, k requires 0 <= k < n => GridTent(k, cols, rows))
  }

  /** `makeGrid(n)`: fills rows of `ceil(sqrt(n))` cells until n tents are placed. */
  method MakeGrid(n: int) returns (res: seq<Tent>)
    ensures res == Grid(n)
  {
    res := [];
    var cols := CeilSqrt(n);
    var rows := RowsFor(n, cols);
    var id := 1;
    var r := 0;
    ghost var total := if n > 0 then n else 0;
    while r < rows && id <= n
      invariant 0 <= r <= rows && 1 <= id
      invariant rows > 0 ==> n > 0 && cols > 0 && rows * cols >= n
      invariant id - 1 == if r * cols <= total then r * cols else total
      invariant res == Grid(n)[..id - 1]
    {
      var c := 0;
      while c < cols && id <= n
        invariant 0 <= c <= cols
        invariant id - 1 == if r * cols + c <= n then r * cols + c else n
        invariant res == Grid(n)[..id - 1]
      {
        DivModOfCell(r, c, cols);
        assert Grid(n)[id - 1] == Tent(id, (c as real + 0.5) / (cols as real), (r as real + 0.5) / (rows as real), Av, 0.0);
        res := res + [Tent(id, (c as real + 0.5) / (cols as real), (r as real + 0.5) / (rows as real), Av, 0.0)];
        id := id + 1;
        c := c + 1;
      }
      assert (r + 1) * cols == r * cols + cols;
      r := r + 1;
    }
    assert id - 1 == total;
  }

  lemma DivModOfCell(r: nat, c: nat, cols: nat)
    requires c < cols
    ensures (r * cols + c) / cols == r && (r * cols + c) % cols == c
  {
    var x := r * cols + c;
    var q, m := x / cols, x % cols;
    assert x == q * cols + m;
    assert (q - r) * cols == c - m;
    if q > r {
      MulAtLeast(q - r, cols);
    } else if q < r {
      MulAtLeast(r - q, cols);
    }
  }

  lemma MulAtLeast(a: int, b: nat)
    requires a >= 1
    ensures a * b >= b
  {
  }

  /** `makeGrid(n)` for n >= 1: n tents with ids 1..n in order, all
      available, price 0, placed strictly inside the map; nothing for n <= 0. */
  lemma GridShape(n: int)
    ensures n <= 0 ==> Grid(n) == []
    ensures n > 0 ==> |Grid(n)| == n
    ensures forall k :: 0 <= k < |Grid(n)| ==>
      var t := Grid(n)[k];
      t.id == k + 1 && t.state == Av && t.price == 0.0 && 0.0 < t.x < 1.0 && 0.0 < t.y < 1.0
  {
    if n > 0 {
      var cols := CeilSqrt(n);
      var rows := RowsFor(n, cols);
      forall k | 0 <= k < n
        ensures var t := Grid(n)[k]; 0.0 < t.x < 1.0 && 0.0 < t.y < 1.0
      {
        CellInside(k % cols, cols);
        RowBelow(k, cols, rows, n);
        CellInside(k / cols, rows);
      }
    }
  }

  lemma CellInside(i: nat, m: nat)
    requires i < m
    ensures 0.0 < ((i as real) + 0.5) / (m as real) < 1.0
  {
    FractionBelowOne((i as real) + 0.5, m as real);
  }

  lemma FractionBelowOne(a: real, b: real)
    requires 0.0 < a < b
    ensures 0.0 < a / b < 1.0
  {
    var q := a / b;
    assert q * b == a;
    if q >= 1.0 {
      assert false;
    }
    if q <= 0.0 {
      assert false;
    }
  }

  lemma RowBelow(k: nat, cols: nat, rows: nat, n: int)
    requires cols > 0 && k < n <= rows * cols
    ensures k / cols < rows
  {
  }

  /** The ids of a grid are distinct. */
  lemma GridUniqueIds(n: int)
    ensures UniqueIds(Grid(n))
  {
    GridShape(n);
  }

  /** The `rect` of the map when a drag started. */
  datatype Rect = Rect(left: real, top: real, width: real, height: real)

  /** The relative position of a pointer over the map, clamped into the map. */
  function DragPosition(rect: Rect, clientX: real, clientY: real): (p: (real, real))
    requires rect.width > 0.0 && rect.height > 0.0
    ensures 0.0 <= p.0 <= 1.0 && 0.0 <= p.1 <= 1.0
    ensures rect.left <= clientX <= rect.left + rect.width ==> p.0 * rect.width == clientX - rect.left
    ensures rect.top <= clientY <= rect.top + rect.height ==> p.1 * rect.height == clientY - rect.top
    ensures clientX <= rect.left ==> p.0 == 0.0
    ensures clientX >= rect.left + rect.width ==> p.0 == 1.0
    ensures clientY <= rect.top ==> p.1 == 0.0
    ensures clientY >= rect.top + rect.height ==> p.1 == 1.0
  {
    (Clamp((clientX - rect.left) / rect.width, 0.0, 1.0), Clamp((clientY - rect.top) / rect.height, 0.0, 1.0))
  }

  /**
   * The least integer a JavaScript number cannot hold: 2^1024 - 2^970, the
   * midpoint between the largest finite double and 2^1024. `parseInt` rounds
   * a value of at least this size to Infinity (and its negation to -Infinity).
   */
  const InfinityBound: int := 0xFFFFFFFFFFFFFC00000000000000000000000000000000000000000000000000000000000000000000000000000000000000000000000000000000000000000000000000000000000000000000000000000000000000000000000000000000000000000000000000000000000000000000000000000000000000000000000000

  /** The reading of `parseInt` is a finite number. */
  predicate Finite(k: int) {
    -InfinityBound < k < InfinityBound
  }

  /** The count `recreateGrid` uses: the prompt's answer (empty or cancelled
      means "20") read by `parseInt(·, 10)`, clamped into [1, 500], or 20 when
      that reading is not a finite number (NaN, or too large for a double). */
  function RecreateCount(answer: Option<string>): (count: int)
    ensures 1 <= count <= 500
    ensures ParseInt10Or20(answer).None? ==> count == 20
    ensures ParseInt10Or20(answer).Some? && !Finite(ParseInt10Or20(answer).value) ==> count == 20
    ensures ParseInt10Or20(answer).Some? && Finite(ParseInt10Or20(answer).value) ==>
      var k := ParseInt10Or20(answer).value;
      count == if k < 1 then 1 else if k > 500 then 500 else k
  {
    match ParseInt10Or20(answer)
    case None => 20
    case Some(k) => if Finite(k) then ClampCount(k) else 20
  }

  function ParseInt10Or20(answer: Option<string>): Option<int> {
    Decimal.ParseInt10(if answer.None? || answer.value == "" then "20" else answer.value)
  }

  /** `clamp(k, 1, 500)` for an integer k, whose result is again an integer. */
  function ClampCount(k: int): (count: int)
    ensures count as real == Clamp(k as real, 1.0, 500.0)
  {
    Clamp(k as real, 1.0, 500.0).Floor
  }

  /** Cancelling the prompt, or leaving it empty, recreates 20 tents. */
  lemma RecreateCountDefault(answer: Option<string>)
    requires answer.None? || answer == Some("")
    ensures RecreateCount(answer) == 20
  {
    assert Decimal.IntToString(20) == "20" by {
      assert Decimal.NatToString(2) == ['2'];
    }
    Decimal.ParseInt10OfIntToString(20);
    assert ParseInt10Or20(answer) == Some(20);
    assert Finite(20);
  }

  /** Typing a number too large for a double reads as Infinity, which is not
      finite, so the default 20 tents are recreated rather than 500. */
  lemma RecreateCountHuge(k: int)
    requires k >= InfinityBound
    ensures RecreateCount(Some(Decimal.IntToString(k))) == 20
  {
    Decimal.ParseInt10OfIntToString(k);
  }

  /** Typing the text of an integer asks for that many tents, within [1, 500]. */
  lemma RecreateCountTyped(k: int)
    requires 1 <= k <= 500
    ensures RecreateCount(Some(Decimal.IntToString(k))) == k
  {
    Decimal.ParseInt10OfIntToString(k);
  }
}
