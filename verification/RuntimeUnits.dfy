/** How many single-runtime starts the measured resources allow. Measurements are
    reals: rounding of the original's floats is not modelled. */
module RuntimeUnits {
  import opened Outcomes

  /** A measured field; Unusable is missing, no number, boolean, negative or not finite. */
  datatype Field = Unusable | Measured(value: real)

  datatype Row = Row(available: Field, reserve: Field, pairBudget: Field)

  const SLACK := 0.000000001

  predicate Usable(f: Field) { f.Measured? && f.value >= 0.0 }

  predicate ReadableRow(row: Row) {
    Usable(row.available) && Usable(row.reserve) && Usable(row.pairBudget) && row.pairBudget.value > 0.0
  }

  const MEASURES := ["cpu", "memoryGiB", "pods", "storageGiB"]

  predicate Readable(rows: map<string, Row>) {
    forall name | name in MEASURES :: name in rows && ReadableRow(rows[name])
  }

  /** What is left above the protected reserve, with the comparison's slack. */
  function Headroom(row: Row): (h: real)
    requires ReadableRow(row)
    ensures h > 0.0
  {
    var spare := row.available.value - row.reserve.value;
    (if spare > 0.0 then spare else 0.0) + SLACK
  }

  /** `n` runtimes, at half a pair each, fit into the row. */
  predicate Fits(row: Row, n: int)
    requires ReadableRow(row)
  {
    n as real * (row.pairBudget.value / 2.0) <= Headroom(row)
  }

  predicate FitsAll(rows: map<string, Row>, n: int)
    requires Readable(rows)
  {
    Fits(rows["cpu"], n) && Fits(rows["memoryGiB"], n) && Fits(rows["pods"], n)
  }

  function RowUnits(row: Row): (u: int)
    requires ReadableRow(row)
    ensures u >= 0 && forall n: int :: n <= u <==> Fits(row, n)
  {
    var half := row.pairBudget.value / 2.0;
    var u := (Headroom(row) / half).Floor;
    assert u >= 0 && forall n: int :: n <= u <==> Fits(row, n) by {
      forall n: int ensures n <= u <==> Fits(row, n) { FloorIsLargest(Headroom(row), half, u, n); }
      FloorIsLargest(Headroom(row), half, u, 0);
    }
    u
  }

  lemma DivideBy(h: real, half: real, x: real)
    requires half > 0.0
    ensures x <= h / half <==> x * half <= h
  {
    var q := h / half;
    assert q * half == h;
    if x <= q { assert (q - x) * half >= 0.0; } else { assert (x - q) * half > 0.0; }
  }

  lemma FloorIsLargest(h: real, half: real, u: int, n: int)
    requires h > 0.0 && half > 0.0 && u == (h / half).Floor
    ensures u >= 0 && (n <= u <==> n as real * half <= h)
  {
    DivideBy(h, half, 0.0);
    DivideBy(h, half, n as real);
  }

  /** The starts that fit: the largest number for which processor, memory and
      pods all have headroom, and none when any measurement is unusable. Storage
      must be measured but never limits. */
  method RuntimeUnits(rows: map<string, Row>) returns (u: int)
    ensures u >= 0
    ensures Readable(rows) ==> forall n: int :: n <= u <==> FitsAll(rows, n)
    ensures !Readable(rows) ==> u == 0
  {
    var units: seq<int> := [];
    for i := 0 to 4
      invariant |units| == (if i < 3 then i else 3)
      invariant forall j | 0 <= j < i :: MEASURES[j] in rows && ReadableRow(rows[MEASURES[j]])
      invariant forall j | 0 <= j < |units| :: units[j] == RowUnits(rows[MEASURES[j]])
    {
      var name := MEASURES[i];
      if name !in rows { return 0; }
      var row := rows[name];
      if !Usable(row.available) || !Usable(row.reserve) || !Usable(row.pairBudget) { return 0; }
      if row.pairBudget.value <= 0.0 { return 0; }
      if name == "storageGiB" { continue; }
      units := units + [RowUnits(row)];
    }
    assert MEASURES[0] == "cpu" && MEASURES[1] == "memoryGiB" && MEASURES[2] == "pods";
    assert Readable(rows);
    assert units == [RowUnits(rows["cpu"]), RowUnits(rows["memoryGiB"]), RowUnits(rows["pods"])];
    u := Least(units);
    forall n: int ensures n <= u <==> FitsAll(rows, n) {
      assert n <= u <==> n <= units[0] && n <= units[1] && n <= units[2];
    }
  }

  function Least(s: seq<int>): (m: int)
    requires s != []
    ensures (exists i :: 0 <= i < |s| && m == s[i]) && forall i | 0 <= i < |s| :: m <= s[i]
  {
    if |s| == 1 then s[0] else
      var m := Least(s[1..]);
      assert forall i | 1 <= i < |s| :: s[i] == s[1..][i - 1];
      if s[0] < m then s[0] else m
  }
}
