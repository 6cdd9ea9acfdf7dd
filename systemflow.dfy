/** The system heat flow: one row per supply row, holding the supply total
    heat flow less the return total heat flow, in MW, with the two output
    tables aligned by index arithmetic from the tail of the return table. */
module SystemFlow {
  import opened Common
  import opened BranchData

  const MEGA: real := 1000000.0

  /** The length of the shorter output table. */
  function ShorterLength(nSupply: nat, nReturn: nat): (l: nat)
    ensures l <= nSupply && l <= nReturn && (l == nSupply || l == nReturn)
  {
    if nSupply <= nReturn then nSupply else nReturn
  }

  /** How many rows the return table has beyond the supply table, or zero.
      Subtracting it from the return length gives the shorter length, so the
      return output index and the return input index read in a pass agree. */
  function TailOffset(nSupply: nat, nReturn: nat): (d: nat)
    ensures nReturn - d == ShorterLength(nSupply, nReturn)
  {
    var diff := nSupply - nReturn;
    if diff > 0 then 0 else -diff
  }

  /** Whether pass i reads a new pair of totals: the return take-off at the
      aligned index is nonzero, or i is the shorter length. Only meaningful
      when the index is in range; outside it the pass fails. */
  predicate IsHit(retIn: seq<Segment>, lenSys: int, i: int) {
    0 <= lenSys - i < |retIn| && (retIn[lenSys - i].takeOff != 0.0 || i == lenSys)
  }

  /** The number of hits among the first n passes. */
  function Hits(retIn: seq<Segment>, lenSys: int, n: nat): nat {
    if n == 0 then 0 else Hits(retIn, lenSys, n - 1) + (if IsHit(retIn, lenSys, n - 1) then 1 else 0)
  }

  /** The loop variables after some passes: the rows written, the supply row
      to read next, the last net heat flow computed (unbound at first), and
      the failure that stopped the loop. */
  datatype SysState = SysState(rows: seq<SystemRow>, j: nat, value: Option<real>, error: Option<Error>)

  /** A pass that got as far as writing its row. */
  datatype Tick = Tick(row: SystemRow, j: nat, value: real)

  /** Writing the row of pass i: the supply input position, the supply output
      length along the line, and the last net heat flow computed. */
  function Emit(supIn: seq<Segment>, supOut: seq<PipeRow>, i: nat, j: nat, value: Option<real>): (r: Result<Tick>)
    requires i < |supOut|
    ensures r.Err? <==> i >= |supIn| || value.None?
    ensures r.Err? ==> r.error == (if i >= |supIn| then IndexOutOfRange(i) else UnboundValue)
    ensures r.Ok? ==> r.value == Tick(SystemRow(supIn[i].lat, supIn[i].lon, supOut[i].lTot, value.value), j, value.value)
  {
    if i >= |supIn| then Err(IndexOutOfRange(i))
    else if value.None? then Err(UnboundValue)
    else Ok(Tick(SystemRow(supIn[i].lat, supIn[i].lon, supOut[i].lTot, value.value), j, value.value))
  }

  /** One pass of the loop of calculate_system_heat_flow. */
  function SystemPass(supIn: seq<Segment>, retIn: seq<Segment>, supOut: seq<PipeRow>, retOut: seq<PipeRow>,
                      i: nat, j: nat, value: Option<real>): (r: Result<Tick>)
    requires j <= i < |supOut|
    ensures r.Ok? ==> r.value.j <= i + 1
  {
    var lenSys := ShorterLength(|supOut|, |retOut|);
    var idx := lenSys - i;
    if !(0 <= idx < |retIn|) then Err(IndexOutOfRange(idx))
    else if retIn[idx].takeOff != 0.0 || i == lenSys then
      var ridx := |retOut| - TailOffset(|supOut|, |retOut|) - i;
      if !(0 <= ridx < |retOut|) then Err(IndexOutOfRange(ridx))
      else Emit(supIn, supOut, i, j + 1, Some(supOut[j].qTot / MEGA - retOut[ridx].qTot / MEGA))
    else Emit(supIn, supOut, i, j, value)
  }

  /** The loop over the first n supply output rows. */
  function SystemFrom(supIn: seq<Segment>, retIn: seq<Segment>, supOut: seq<PipeRow>, retOut: seq<PipeRow>, n: nat)
    : (m: SysState)
    requires n <= |supOut|
    ensures m.j <= |m.rows| <= n
    ensures m.error.None? <==> |m.rows| == n
  {
    if n == 0 then SysState([], 0, None, None)
    else
      var m := SystemFrom(supIn, retIn, supOut, retOut, n - 1);
      if m.error.Some? then m
      else
        match SystemPass(supIn, retIn, supOut, retOut, n - 1, m.j, m.value)
        case Err(e) => m.(error := Some(e))
        case Ok(t) => SysState(m.rows + [t.row], t.j, Some(t.value), None)
  }

  /** calculate_system_heat_flow over all supply output rows. */
  function System(supIn: seq<Segment>, retIn: seq<Segment>, supOut: seq<PipeRow>, retOut: seq<PipeRow>): SysState {
    SystemFrom(supIn, retIn, supOut, retOut, |supOut|)
  }

  /** Once a pass fails, no later pass runs. */
  lemma {:induction false} SystemStops(supIn: seq<Segment>, retIn: seq<Segment>, supOut: seq<PipeRow>,
                                       retOut: seq<PipeRow>, k: nat, n: nat)
    requires k <= n <= |supOut| && SystemFrom(supIn, retIn, supOut, retOut, k).error.Some?
    ensures SystemFrom(supIn, retIn, supOut, retOut, n) == SystemFrom(supIn, retIn, supOut, retOut, k)
    decreases n
  {
    if n > k {
      SystemStops(supIn, retIn, supOut, retOut, k, n - 1);
    }
  }

  // ------------------------------------------------------------- invariants

  /** Every row copies the position of the supply row with the same index:
      the supply input coordinates and the supply output length. */
  predicate SystemPositions(supIn: seq<Segment>, supOut: seq<PipeRow>, rows: seq<SystemRow>) {
    && |rows| <= |supIn| && |rows| <= |supOut|
    && forall k :: 0 <= k < |rows| ==>
         rows[k].lat == supIn[k].lat && rows[k].lon == supIn[k].lon && rows[k].lTot == supOut[k].lTot
  }

  /** The value of row k: a hit row holds the next unread supply total less
      the return total at the aligned index, in MW; any other row repeats the
      previous row's value, so the first row must be a hit. */
  predicate RowValue(retIn: seq<Segment>, supOut: seq<PipeRow>, retOut: seq<PipeRow>, rows: seq<SystemRow>, k: nat)
    requires k < |rows|
  {
    var lenSys := ShorterLength(|supOut|, |retOut|);
    && (IsHit(retIn, lenSys, k) ==>
          && Hits(retIn, lenSys, k) < |supOut| && 0 <= lenSys - k < |retOut|
          && rows[k].qSystem == supOut[Hits(retIn, lenSys, k)].qTot / MEGA - retOut[lenSys - k].qTot / MEGA)
    && (!IsHit(retIn, lenSys, k) ==> 0 < k && rows[k].qSystem == rows[k - 1].qSystem)
  }

  predicate SystemValues(retIn: seq<Segment>, supOut: seq<PipeRow>, retOut: seq<PipeRow>, rows: seq<SystemRow>) {
    forall k :: 0 <= k < |rows| ==> RowValue(retIn, supOut, retOut, rows, k)
  }

  /** What the loop variables hold after the rows written so far. */
  predicate Tracked(retIn: seq<Segment>, supOut: seq<PipeRow>, retOut: seq<PipeRow>, m: SysState) {
    && m.j == Hits(retIn, ShorterLength(|supOut|, |retOut|), |m.rows|)
    && (m.value.Some? <==> |m.rows| > 0)
    && (|m.rows| > 0 ==> m.value.value == m.rows[|m.rows| - 1].qSystem)
  }

  /** The invariants survive one successful pass. */
  lemma SystemPassKeeps(supIn: seq<Segment>, retIn: seq<Segment>, supOut: seq<PipeRow>, retOut: seq<PipeRow>,
                        m: SysState, t: Tick)
    requires |m.rows| < |supOut| && m.j <= |m.rows|
    requires SystemPositions(supIn, supOut, m.rows) && SystemValues(retIn, supOut, retOut, m.rows)
    requires Tracked(retIn, supOut, retOut, m)
    requires SystemPass(supIn, retIn, supOut, retOut, |m.rows|, m.j, m.value) == Ok(t)
    ensures var m' := SysState(m.rows + [t.row], t.j, Some(t.value), None);
            && SystemPositions(supIn, supOut, m'.rows) && SystemValues(retIn, supOut, retOut, m'.rows)
            && Tracked(retIn, supOut, retOut, m')
  {
    var n := |m.rows|;
    var rows' := m.rows + [t.row];
    var lenSys := ShorterLength(|supOut|, |retOut|);
    var idx := lenSys - n;
    assert 0 <= idx < |retIn|;
    if IsHit(retIn, lenSys, n) {
      assert |retOut| - TailOffset(|supOut|, |retOut|) - n == idx;
      assert t == Tick(SystemRow(supIn[n].lat, supIn[n].lon, supOut[n].lTot, t.value), m.j + 1,
                       supOut[m.j].qTot / MEGA - retOut[idx].qTot / MEGA);
    } else {
      assert t == Tick(SystemRow(supIn[n].lat, supIn[n].lon, supOut[n].lTot, m.value.value), m.j, m.value.value);
    }
    assert RowValue(retIn, supOut, retOut, rows', n);
    forall k | 0 <= k < n
      ensures RowValue(retIn, supOut, retOut, rows', k)
    {
      assert rows'[k] == m.rows[k];
      assert RowValue(retIn, supOut, retOut, m.rows, k);
      if 0 < k {
        assert rows'[k - 1] == m.rows[k - 1];
      }
    }
  }

  /** What every row written satisfies, and what the loop variables hold,
      whether or not the loop completes. */
  lemma {:induction false} SystemInvariants(supIn: seq<Segment>, retIn: seq<Segment>, supOut: seq<PipeRow>,
                                            retOut: seq<PipeRow>, n: nat)
    requires n <= |supOut|
    ensures var m := SystemFrom(supIn, retIn, supOut, retOut, n);
            && SystemPositions(supIn, supOut, m.rows) && SystemValues(retIn, supOut, retOut, m.rows)
            && Tracked(retIn, supOut, retOut, m)
  {
    if n > 0 {
      SystemInvariants(supIn, retIn, supOut, retOut, n - 1);
      var m := SystemFrom(supIn, retIn, supOut, retOut, n - 1);
      if m.error.None? {
        var t := SystemPass(supIn, retIn, supOut, retOut, n - 1, m.j, m.value);
        if t.Ok? {
          SystemPassKeeps(supIn, retIn, supOut, retOut, m, t.value);
        }
      }
    }
  }

  /** When the supply output is not shorter than the return output and the
      return input has no more rows than the return output, the very first
      pass reads the return take-off one past the end: nothing is written. */
  lemma SystemNeedsShorterSupply(supIn: seq<Segment>, retIn: seq<Segment>, supOut: seq<PipeRow>, retOut: seq<PipeRow>)
    requires 0 < |supOut| && |retOut| <= |supOut| && |retIn| <= |retOut|
    ensures System(supIn, retIn, supOut, retOut) == SysState([], 0, None, Some(IndexOutOfRange(|retOut|)))
  {
    SystemStops(supIn, retIn, supOut, retOut, 1, |supOut|);
  }

  /** With a supply output strictly shorter than the return output and one
      return input row per return output row, the loop completes exactly when
      every supply output row has a supply input row and, if there is any
      supply output, the return take-off at the supply length is nonzero (so
      the first pass has a value to write). */
  lemma SystemCompletes(supIn: seq<Segment>, retIn: seq<Segment>, supOut: seq<PipeRow>, retOut: seq<PipeRow>)
    requires |supOut| < |retOut| == |retIn|
    ensures System(supIn, retIn, supOut, retOut).error.None? <==>
              |supOut| <= |supIn| && (|supOut| > 0 ==> retIn[|supOut|].takeOff != 0.0)
  {
    var ok := |supOut| <= |supIn| && (|supOut| > 0 ==> retIn[|supOut|].takeOff != 0.0);
    if ok {
      SystemRuns(supIn, retIn, supOut, retOut, |supOut|);
    } else if |supOut| > |supIn| {
      SystemInvariants(supIn, retIn, supOut, retOut, |supOut|);
    } else if |supOut| > 0 {
      assert SystemPass(supIn, retIn, supOut, retOut, 0, 0, None) == Err(UnboundValue);
      SystemStops(supIn, retIn, supOut, retOut, 1, |supOut|);
    }
  }

  /** Under the conditions of SystemCompletes, no pass among the first n
      fails. */
  lemma {:induction false} SystemRuns(supIn: seq<Segment>, retIn: seq<Segment>, supOut: seq<PipeRow>,
                                      retOut: seq<PipeRow>, n: nat)
    requires |supOut| < |retOut| == |retIn| && |supOut| <= |supIn| && n <= |supOut|
    requires |supOut| > 0 ==> retIn[|supOut|].takeOff != 0.0
    ensures SystemFrom(supIn, retIn, supOut, retOut, n).error.None?
  {
    if n > 0 {
      SystemRuns(supIn, retIn, supOut, retOut, n - 1);
      SystemInvariants(supIn, retIn, supOut, retOut, n - 1);
    }
  }
}
