/** The return line calculation: a march from the far end back to the plant.
    It starts from the mass flow that leaves the last supply segment, and at
    every return segment with a consumer it finds, with a cursor walking down
    the supply line, the supply consumer whose flow comes back there and mixes
    that flow into the line. */
module ReturnLine {
  import opened Common
  import opened Functions
  import opened Outlet
  import opened BranchData

  // --------------------------------------------------------- consumer match

  /** The number of segments with a nonzero take-off. */
  function Consumers(segs: seq<Segment>): nat {
    if segs == [] then 0
    else Consumers(segs[..|segs| - 1]) + (if segs[|segs| - 1].takeOff != 0.0 then 1 else 0)
  }

  /** The inner while loop: from supply index j downwards, the first segment
      with a nonzero take-off. Reading index -1 is a KeyError. */
  function NextConsumer(sup: seq<Segment>, j: int): (r: Result<int>)
    requires -1 <= j < |sup|
    ensures r.Ok? ==> && 0 <= r.value <= j && sup[r.value].takeOff != 0.0
                      && forall k :: r.value < k <= j ==> sup[k].takeOff == 0.0
    ensures r.Err? ==> && r.error == IndexOutOfRange(-1)
                       && forall k :: 0 <= k <= j ==> sup[k].takeOff == 0.0
    decreases j + 1
  {
    if j < 0 then Err(IndexOutOfRange(j))
    else if sup[j].takeOff != 0.0 then Ok(j)
    else NextConsumer(sup, j - 1)
  }

  /** The consumer flow of a return segment, the new cursor, and the supply
      index matched (none for a zero take-off). */
  datatype Match = Match(mdotConsumer: real, cursor: int, pick: Option<int>)

  /** A zero return take-off brings no flow back. A nonzero one takes the
      next supply consumer at or below the cursor, brings back the negated
      consumer flow recorded in that supply row, and moves the cursor one
      below it. */
  function MatchConsumer(sup: seq<Segment>, supOut: seq<PipeRow>, takeOff: real, cursor: int): (r: Result<Match>)
    requires -1 <= cursor < |sup|
    ensures takeOff == 0.0 ==> r == Ok(Match(0.0, cursor, None))
    ensures takeOff != 0.0 && r.Ok? ==>
              && r.value.pick.Some?
              && var k := r.value.pick.value;
              && 0 <= k <= cursor && sup[k].takeOff != 0.0
              && (forall i :: k < i <= cursor ==> sup[i].takeOff == 0.0)
              && k < |supOut| && r.value.mdotConsumer == -supOut[k].mdotConsumer
              && r.value.cursor == k - 1
    ensures r.Err? ==>
              && takeOff != 0.0 && r.error.IndexOutOfRange?
              && (r.error.index == -1 <==> forall i :: 0 <= i <= cursor ==> sup[i].takeOff == 0.0)
              && (r.error.index != -1 ==> 0 <= r.error.index <= cursor && |supOut| <= r.error.index
                                          && sup[r.error.index].takeOff != 0.0)
    ensures r.Ok? ==> -1 <= r.value.cursor <= cursor
  {
    if takeOff == 0.0 then Ok(Match(0.0, cursor, None))
    else
      match NextConsumer(sup, cursor)
      case Err(e) => Err(e)
      case Ok(k) =>
        if k >= |supOut| then Err(IndexOutOfRange(k))
        else Ok(Match(-supOut[k].mdotConsumer, k - 1, Some(k)))
  }

  /** Supply take-offs [0, 3, 0, 0, 2] and return take-offs [0, 5, 0]: the
      first return consumer gets back -2, the flow of supply segment 4. A
      second consumer would get -3 from segment 1, and a third finds none and
      reads index -1. */
  lemma ConsumerExample(sup: seq<Segment>, supOut: seq<PipeRow>)
    requires |sup| == 5 && |supOut| == 5
    requires forall k :: 0 <= k < 5 ==> supOut[k].mdotConsumer == sup[k].takeOff
    requires sup[0].takeOff == 0.0 && sup[1].takeOff == 3.0 && sup[2].takeOff == 0.0
    requires sup[3].takeOff == 0.0 && sup[4].takeOff == 2.0
    ensures MatchConsumer(sup, supOut, 0.0, 4) == Ok(Match(0.0, 4, None))
    ensures MatchConsumer(sup, supOut, 5.0, 4) == Ok(Match(-2.0, 3, Some(4)))
    ensures MatchConsumer(sup, supOut, 0.0, 3) == Ok(Match(0.0, 3, None))
    ensures MatchConsumer(sup, supOut, 5.0, 3) == Ok(Match(-3.0, 0, Some(1)))
    ensures MatchConsumer(sup, supOut, 5.0, 0) == Err(IndexOutOfRange(-1))
  {
    assert NextConsumer(sup, 3) == NextConsumer(sup, 2) == NextConsumer(sup, 1) == Ok(1);
  }

  // ------------------------------------------------------------------ mixing

  /** Temperature after the consumer flow at the release temperature mixes
      into the line flow. */
  function Mix(tOut: real, mdot: real, tRelease: real, mdotC: real): (t: real)
    requires mdot + mdotC != 0.0
    ensures t * (mdot + mdotC) == tOut * mdot + tRelease * mdotC
    ensures mdotC == 0.0 ==> t == tOut
  {
    (tOut * mdot + tRelease * mdotC) / (mdot + mdotC)
  }

  /** With both flows non-negative the mixture lies between the two
      temperatures. */
  lemma MixBetween(tOut: real, mdot: real, tRelease: real, mdotC: real)
    requires mdot >= 0.0 && mdotC >= 0.0 && mdot + mdotC != 0.0
    ensures tOut <= tRelease ==> tOut <= Mix(tOut, mdot, tRelease, mdotC) <= tRelease
    ensures tRelease <= tOut ==> tRelease <= Mix(tOut, mdot, tRelease, mdotC) <= tOut
  {
    var t := Mix(tOut, mdot, tRelease, mdotC);
    var m := mdot + mdotC;
    assert (t - tOut) * m == (tRelease - tOut) * mdotC;
    assert (t - tRelease) * m == (tOut - tRelease) * mdot;
  }

  // -------------------------------------------------------------- the march

  /** A row, the variables for the next segment, the new cursor and the
      supply index matched. */
  datatype ReturnStep = ReturnStep(row: PipeRow, next: Flow, cursor: int, pick: Option<int>)

  /** How a return row and the next variables carry the running values on:
      the position falls by the segment length, losses accumulate, the total
      heat flow loses the heat loss and gains the heat the return consumer
      column records, the consumer flow joins the mass flow, and the mixed
      temperature becomes the next inlet temperature. */
  predicate ReturnCarried(tRelease: real, seg: Segment, f: Flow, st: ReturnStep) {
    var row := st.row;
    var next := st.next;
    && row.lat == seg.lat && row.lon == seg.lon
    && row.lTot == f.lTot - seg.length && next.lTot == row.lTot
    && row.qLossTot == f.qLossTot + row.qLoss && next.qLossTot == row.qLossTot
    && row.qTot == f.qTot - row.qLoss + row.qConsumerAbs && next.qTot == row.qTot
    && row.mdot == f.mdot && next.mdot == f.mdot + row.mdotConsumer
    && f.mdot + row.mdotConsumer != 0.0
    && next.tIn == Mix(row.temperature, f.mdot, tRelease, row.mdotConsumer)
  }

  /** The bookkeeping after the outlet temperature and the consumer of a
      return segment are known. */
  function ReturnRecord(s: Setup, seg: Segment, dInternal: real, f: Flow, o: Outlet, m: Match): (r: Result<ReturnStep>)
    requires seg.length != 0.0 && dInternal != 0.0
    ensures r.Err? <==> f.mdot + m.mdotConsumer == 0.0 || FluidDensity(s, f.tIn) == 0.0
    ensures r.Err? ==> r.error == DivisionByZero
    ensures r.Ok? ==> && ReturnCarried(s.iv.tConsumerRelease, seg, f, r.value)
                      && RowValues(s, seg, dInternal, f, r.value.row)
                      && r.value.row.temperature == o.tOut && r.value.row.qLoss == o.qLoss
                      && r.value.row.mdotConsumer == m.mdotConsumer
                      && r.value.cursor == m.cursor && r.value.pick == m.pick
  {
    if f.mdot + m.mdotConsumer == 0.0 then Err(DivisionByZero)
    else
      var tMix := Mix(o.tOut, f.mdot, s.iv.tConsumerRelease, m.mdotConsumer);
      var lTot := f.lTot - seg.length;
      var qLossTot := f.qLossTot + o.qLoss;
      var den := FluidDensity(s, f.tIn);
      if den == 0.0 then Err(DivisionByZero)
      else
        var cp := SpecificHeat(s, f.tIn, WATER);
        var qConsAbs := Abs(seg.takeOff) * cp * (o.tOut - s.ext.tZero);
        var qConsAct := Abs(seg.takeOff) * cp * (o.tOut - s.iv.tConsumerRelease);
        ConsumerHeatSplit(Abs(seg.takeOff) * cp, o.tOut, s.ext.tZero, s.iv.tConsumerRelease);
        var qTot := f.qTot - o.qLoss + qConsAbs;
        var row := PipeRow(seg.lat, seg.lon, lTot, o.tOut, f.mdot, o.qLoss, o.qLoss / seg.length,
                           qLossTot, FlowVelocity(den, f.mdot, dInternal), m.mdotConsumer,
                           qConsAbs, qConsAct, qTot);
        Ok(ReturnStep(row, Flow(tMix, f.mdot + m.mdotConsumer, lTot, qLossTot, qTot), m.cursor, m.pick))
  }

  /** One pass of the return loop: geometry, outlet temperature, consumer
      match, bookkeeping, failing at the first step that fails. */
  function ReturnPass(s: Setup, sup: seq<Segment>, supOut: seq<PipeRow>, seg: Segment, f: Flow, cursor: int)
    : (r: Result<ReturnStep>)
    requires -1 <= cursor < |sup|
    ensures r.Ok? ==> && ReturnCarried(s.iv.tConsumerRelease, seg, f, r.value)
                      && MatchConsumer(sup, supOut, seg.takeOff, cursor)
                           == Ok(Match(r.value.row.mdotConsumer, r.value.cursor, r.value.pick))
  {
    match SegmentGeometry(s, seg, s.insReturn)
    case Err(e) => Err(e)
    case Ok(g) =>
      match OutputTemperature(s.ext.ln, SegmentProblem(s, seg, g, f), s.maxIter)
      case Err(e) => Err(e)
      case Ok(o) =>
        match MatchConsumer(sup, supOut, seg.takeOff, cursor)
        case Err(e) => Err(e)
        case Ok(m) => ReturnRecord(s, seg, g.dInternal, f, o, m)
  }

  /** A return pass fails at the first of its steps that fails, in the
      order geometry, outlet temperature, consumer match, bookkeeping. */
  lemma ReturnPassOrder(s: Setup, sup: seq<Segment>, supOut: seq<PipeRow>, seg: Segment, f: Flow, cursor: int)
    requires -1 <= cursor < |sup|
    ensures var r := ReturnPass(s, sup, supOut, seg, f, cursor);
            var gr := SegmentGeometry(s, seg, s.insReturn);
            && (gr.Err? ==> r == Err(gr.error))
            && (gr.Ok? ==>
                  var o := OutputTemperature(s.ext.ln, SegmentProblem(s, seg, gr.value, f), s.maxIter);
                  var m := MatchConsumer(sup, supOut, seg.takeOff, cursor);
                  && (o.Err? ==> r == Err(o.error))
                  && (o.Ok? && m.Err? ==> r == Err(m.error))
                  && (o.Ok? && m.Ok? ==> r == ReturnRecord(s, seg, gr.value.dInternal, f, o.value, m.value)))
  {
  }

  /** Rows written, the variables, the cursor, the supply indices matched so
      far, and the failure (if any) that stopped the march. */
  datatype ReturnMarch = ReturnMarch(rows: seq<PipeRow>, flow: Flow, cursor: int, picks: seq<int>, error: Option<Error>)

  /** The variables before the first return segment: the return inlet
      temperature, the mass flow of the last supply row, the position at the
      branch length, no loss yet, the heat the flow carries in, and the cursor
      on the last supply segment. */
  function ReturnStart(s: Setup, sup: seq<Segment>, supOut: seq<PipeRow>): (m: ReturnMarch)
    requires supOut != []
    ensures m.rows == [] && m.picks == [] && m.error.None? && m.cursor == |sup| - 1
    ensures m.flow.tIn == s.iv.tInReturn && m.flow.mdot == supOut[|supOut| - 1].mdot
    ensures m.flow.lTot == LengthSum(sup) && m.flow.qLossTot == 0.0
    ensures m.flow.qTot == HeatContent(s, m.flow.mdot, s.iv.tInReturn)
  {
    var mdot := supOut[|supOut| - 1].mdot;
    ReturnMarch([], Flow(s.iv.tInReturn, mdot, LengthSum(sup), 0.0, HeatContent(s, mdot, s.iv.tInReturn)),
                |sup| - 1, [], None)
  }

  /** The march over the first n return segments. */
  function ReturnFrom(s: Setup, sup: seq<Segment>, supOut: seq<PipeRow>, ret: seq<Segment>, n: nat): (m: ReturnMarch)
    requires supOut != [] && n <= |ret|
    ensures |m.rows| <= n
    ensures m.error.None? <==> |m.rows| == n
    ensures -1 <= m.cursor < |sup|
  {
    if n == 0 then ReturnStart(s, sup, supOut)
    else
      var m := ReturnFrom(s, sup, supOut, ret, n - 1);
      if m.error.Some? then m
      else
        match ReturnPass(s, sup, supOut, ret[n - 1], m.flow, m.cursor)
        case Err(e) => m.(error := Some(e))
        case Ok(st) =>
          ReturnMarch(m.rows + [st.row], st.next, st.cursor,
                      m.picks + (if st.pick.Some? then [st.pick.value] else []), None)
  }

  /** One more return segment: a successful pass appends its row and hands
      on its variables, cursor and pick, a failing one stops the march with
      its error. */
  lemma ReturnAdvance(s: Setup, sup: seq<Segment>, supOut: seq<PipeRow>, ret: seq<Segment>, i: nat,
                      rows: seq<PipeRow>, f: Flow, cursor: int, picks: seq<int>, st: Result<ReturnStep>)
    requires supOut != [] && i < |ret| && -1 <= cursor < |sup|
    requires ReturnFrom(s, sup, supOut, ret, i) == ReturnMarch(rows, f, cursor, picks, None)
    requires st == ReturnPass(s, sup, supOut, ret[i], f, cursor)
    ensures st.Ok? ==>
              ReturnFrom(s, sup, supOut, ret, i + 1)
                == ReturnMarch(rows + [st.value.row], st.value.next, st.value.cursor,
                               picks + (if st.value.pick.Some? then [st.value.pick.value] else []), None)
    ensures st.Err? ==> ReturnFrom(s, sup, supOut, ret, i + 1) == ReturnMarch(rows, f, cursor, picks, Some(st.error))
  {
  }

  /** calculate_return over all return segments, once supply rows exist. */
  function Return(s: Setup, sup: seq<Segment>, supOut: seq<PipeRow>, ret: seq<Segment>): ReturnMarch
    requires supOut != []
  {
    ReturnFrom(s, sup, supOut, ret, |ret|)
  }

  /** Once a pass fails, no later segment is looked at. */
  lemma {:induction false} ReturnStops(s: Setup, sup: seq<Segment>, supOut: seq<PipeRow>, ret: seq<Segment>, k: nat, n: nat)
    requires supOut != [] && k <= n <= |ret| && ReturnFrom(s, sup, supOut, ret, k).error.Some?
    ensures ReturnFrom(s, sup, supOut, ret, n) == ReturnFrom(s, sup, supOut, ret, k)
    decreases n
  {
    if n > k {
      ReturnStops(s, sup, supOut, ret, k, n - 1);
    }
  }

  // ------------------------------------------------------- march invariants

  /** Row positions count down from the branch length. */
  predicate ReturnPositions(lBranch: real, ret: seq<Segment>, rows: seq<PipeRow>) {
    && |rows| <= |ret|
    && forall k :: 0 <= k < |rows| ==>
         && rows[k].lTot == lBranch - LengthSum(ret[..k + 1])
         && rows[k].lat == ret[k].lat && rows[k].lon == ret[k].lon
  }

  /** The total heat flow has lost the losses so far and gained the return
      consumers' heat so far. */
  predicate ReturnBalanced(q0: real, rows: seq<PipeRow>) {
    forall k :: 0 <= k < |rows| ==>
      && rows[k].qLossTot == LossSum(rows[..k + 1])
      && rows[k].qTot == q0 - LossSum(rows[..k + 1]) + ConsumerHeatSum(rows[..k + 1])
  }

  predicate MassCarried(mdot0: real, rows: seq<PipeRow>) {
    forall k :: 0 <= k < |rows| ==> rows[k].mdot == mdot0 + ConsumerFlowSum(rows[..k])
  }

  /** The matched supply indices strictly decrease, lie above the cursor and
      have nonzero take-offs; every consumer above the cursor has been
      matched; so the consumers at or below the cursor and the matches add up
      to all supply consumers. */
  predicate PicksSound(sup: seq<Segment>, picks: seq<int>, cursor: int) {
    && -1 <= cursor < |sup|
    && (forall a, b :: 0 <= a < b < |picks| ==> picks[a] > picks[b])
    && (forall a :: 0 <= a < |picks| ==> cursor < picks[a] < |sup| && sup[picks[a]].takeOff != 0.0)
    && (forall i :: cursor < i < |sup| && sup[i].takeOff != 0.0 ==> i in picks)
    && Consumers(sup[..cursor + 1]) + |picks| == Consumers(sup)
  }

  /** Each row's consumer flow: zero where the return take-off is zero, and
      otherwise the negated supply consumer flow of the matching pick; the
      n-th nonzero return take-off takes the n-th pick. */
  predicate ConsumersMatched(ret: seq<Segment>, supOut: seq<PipeRow>, rows: seq<PipeRow>, picks: seq<int>) {
    && |rows| <= |ret|
    && |picks| == Consumers(ret[..|rows|])
    && (forall a :: 0 <= a < |picks| ==> 0 <= picks[a] < |supOut|)
    && forall k :: 0 <= k < |rows| ==>
         && (ret[k].takeOff == 0.0 ==> rows[k].mdotConsumer == 0.0)
         && (ret[k].takeOff != 0.0 ==> (Consumers(ret[..k]) < |picks| &&
               rows[k].mdotConsumer == -supOut[picks[Consumers(ret[..k])]].mdotConsumer))
  }

  /** Counting consumers over a prefix one longer. */
  lemma ConsumersPrefix(segs: seq<Segment>, k: nat)
    requires k < |segs|
    ensures Consumers(segs[..k + 1]) == Consumers(segs[..k]) + (if segs[k].takeOff != 0.0 then 1 else 0)
  {
    assert segs[..k + 1][..k] == segs[..k];
  }

  /** Segments with zero take-off between two indices add no consumers. */
  lemma {:induction false} ConsumersSkipZeros(segs: seq<Segment>, lo: nat, hi: nat)
    requires lo <= hi <= |segs|
    requires forall i :: lo <= i < hi ==> segs[i].takeOff == 0.0
    ensures Consumers(segs[..hi]) == Consumers(segs[..lo])
    decreases hi
  {
    if hi > lo {
      ConsumersSkipZeros(segs, lo, hi - 1);
      ConsumersPrefix(segs, hi - 1);
    }
  }

  /** The running-value invariants survive one return pass. */
  lemma ReturnPassKeeps(lBranch: real, ret: seq<Segment>, tRelease: real, q0: real, mdot0: real,
                        rows: seq<PipeRow>, f: Flow, st: ReturnStep)
    requires |rows| < |ret| && ReturnCarried(tRelease, ret[|rows|], f, st)
    requires ReturnPositions(lBranch, ret, rows) && f.lTot == lBranch - LengthSum(ret[..|rows|])
    requires ReturnBalanced(q0, rows) && f.qLossTot == LossSum(rows)
    requires f.qTot == q0 - LossSum(rows) + ConsumerHeatSum(rows)
    requires MassCarried(mdot0, rows) && f.mdot == mdot0 + ConsumerFlowSum(rows)
    ensures var rows' := rows + [st.row];
            && ReturnPositions(lBranch, ret, rows') && st.next.lTot == lBranch - LengthSum(ret[..|rows'|])
            && ReturnBalanced(q0, rows') && st.next.qLossTot == LossSum(rows')
            && st.next.qTot == q0 - LossSum(rows') + ConsumerHeatSum(rows')
            && MassCarried(mdot0, rows') && st.next.mdot == mdot0 + ConsumerFlowSum(rows')
  {
    ReturnPositionsKeep(lBranch, ret, rows, f, st);
    ReturnSumsKeep(q0, mdot0, rows, f, st);
  }

  lemma ReturnPositionsKeep(lBranch: real, ret: seq<Segment>, rows: seq<PipeRow>, f: Flow, st: ReturnStep)
    requires |rows| < |ret| && st.row.lat == ret[|rows|].lat && st.row.lon == ret[|rows|].lon
    requires st.row.lTot == f.lTot - ret[|rows|].length && st.next.lTot == st.row.lTot
    requires ReturnPositions(lBranch, ret, rows) && f.lTot == lBranch - LengthSum(ret[..|rows|])
    ensures ReturnPositions(lBranch, ret, rows + [st.row])
    ensures st.next.lTot == lBranch - LengthSum(ret[..|rows| + 1])
  {
    var n := |rows|;
    var rows' := rows + [st.row];
    PrefixSums(ret, rows, n);
    assert forall k :: 0 <= k < n ==> rows'[k] == rows[k];
  }

  lemma ReturnSumsKeep(q0: real, mdot0: real, rows: seq<PipeRow>, f: Flow, st: ReturnStep)
    requires st.row.qLossTot == f.qLossTot + st.row.qLoss && st.next.qLossTot == st.row.qLossTot
    requires st.row.qTot == f.qTot - st.row.qLoss + st.row.qConsumerAbs && st.next.qTot == st.row.qTot
    requires st.row.mdot == f.mdot && st.next.mdot == f.mdot + st.row.mdotConsumer
    requires ReturnBalanced(q0, rows) && f.qLossTot == LossSum(rows)
    requires f.qTot == q0 - LossSum(rows) + ConsumerHeatSum(rows)
    requires MassCarried(mdot0, rows) && f.mdot == mdot0 + ConsumerFlowSum(rows)
    ensures var rows' := rows + [st.row];
            && ReturnBalanced(q0, rows') && st.next.qLossTot == LossSum(rows')
            && st.next.qTot == q0 - LossSum(rows') + ConsumerHeatSum(rows')
            && MassCarried(mdot0, rows') && st.next.mdot == mdot0 + ConsumerFlowSum(rows')
  {
    var n := |rows|;
    var rows' := rows + [st.row];
    AppendRow(rows, st.row);
    forall k | 0 <= k < n + 1
      ensures && rows'[k].qLossTot == LossSum(rows'[..k + 1])
              && rows'[k].qTot == q0 - LossSum(rows'[..k + 1]) + ConsumerHeatSum(rows'[..k + 1])
    {
      if k < n {
        assert rows'[k] == rows[k];
      } else {
        assert rows'[..k + 1] == rows';
      }
    }
    forall k | 0 <= k < n + 1
      ensures rows'[k].mdot == mdot0 + ConsumerFlowSum(rows'[..k])
    {
      if k < n {
        assert rows'[k] == rows[k];
      }
    }
  }

  /** Matching supply index k, the nearest consumer at or below the cursor,
      keeps the cursor and pick invariants with the cursor moved below k. */
  lemma PicksExtend(sup: seq<Segment>, picks: seq<int>, cursor: int, k: int)
    requires PicksSound(sup, picks, cursor)
    requires 0 <= k <= cursor && sup[k].takeOff != 0.0
    requires forall i :: k < i <= cursor ==> sup[i].takeOff == 0.0
    ensures PicksSound(sup, picks + [k], k - 1)
  {
    var picks' := picks + [k];
    ConsumersSkipZeros(sup, k + 1, cursor + 1);
    ConsumersPrefix(sup, k);
    assert picks'[|picks|] == k;
    forall i | k - 1 < i < |sup| && sup[i].takeOff != 0.0
      ensures i in picks'
    {
      if i > cursor {
        assert i in picks;
      } else {
        assert i == k;
      }
    }
  }

  /** The cursor and pick invariants survive one consumer match. */
  lemma PicksKeep(sup: seq<Segment>, supOut: seq<PipeRow>, takeOff: real, picks: seq<int>, cursor: int, m: Match)
    requires PicksSound(sup, picks, cursor)
    requires MatchConsumer(sup, supOut, takeOff, cursor) == Ok(m)
    ensures PicksSound(sup, picks + (if m.pick.Some? then [m.pick.value] else []), m.cursor)
  {
    if m.pick.Some? {
      PicksExtend(sup, picks, cursor, m.pick.value);
    } else {
      assert picks + [] == picks;
    }
  }

  /** The row-to-pick correspondence survives one return pass. */
  lemma MatchedKeep(sup: seq<Segment>, supOut: seq<PipeRow>, ret: seq<Segment>,
                    rows: seq<PipeRow>, picks: seq<int>, cursor: int, row: PipeRow, m: Match)
    requires |rows| < |ret| && -1 <= cursor < |sup| && ConsumersMatched(ret, supOut, rows, picks)
    requires MatchConsumer(sup, supOut, ret[|rows|].takeOff, cursor) == Ok(m)
    requires row.mdotConsumer == m.mdotConsumer
    ensures ConsumersMatched(ret, supOut, rows + [row], picks + (if m.pick.Some? then [m.pick.value] else []))
  {
    var n := |rows|;
    var rows' := rows + [row];
    var picks' := picks + (if m.pick.Some? then [m.pick.value] else []);
    ConsumersPrefix(ret, n);
    assert rows'[..n + 1][..n] == rows;
    assert rows'[..n + 1] == rows';
    forall k | 0 <= k < |rows'|
      ensures ret[k].takeOff != 0.0 ==> (Consumers(ret[..k]) < |picks'| &&
                rows'[k].mdotConsumer == -supOut[picks'[Consumers(ret[..k])]].mdotConsumer)
    {
      if k < n && ret[k].takeOff != 0.0 {
        assert picks'[Consumers(ret[..k])] == picks[Consumers(ret[..k])];
      }
    }
  }

  /** What every row of a return march satisfies (rows written before a
      failure included): positions count down from the branch length; the
      cumulative loss and the total heat flow follow the losses and the
      return consumers' heat; and the mass flow entering each segment is the
      last supply mass flow plus the consumer flows brought back before it.
      While no pass has failed, the variables carry the same running values. */
  predicate ReturnHolds(lBranch: real, f0: Flow, ret: seq<Segment>, n: nat, m: ReturnMarch) {
    && n <= |ret|
    && ReturnPositions(lBranch, ret, m.rows)
    && ReturnBalanced(f0.qTot, m.rows)
    && MassCarried(f0.mdot, m.rows)
    && (m.error.None? ==>
          && m.flow.lTot == lBranch - LengthSum(ret[..n])
          && m.flow.qLossTot == LossSum(m.rows)
          && m.flow.qTot == f0.qTot - LossSum(m.rows) + ConsumerHeatSum(m.rows)
          && m.flow.mdot == f0.mdot + ConsumerFlowSum(m.rows))
  }

  /** How the march over n segments follows from the march over n - 1: a
      failure stays, a failing pass keeps the rows, and a successful pass
      appends its row and hands on its variables. */
  lemma ReturnFromCases(s: Setup, sup: seq<Segment>, supOut: seq<PipeRow>, ret: seq<Segment>, n: nat)
    requires supOut != [] && 0 < n <= |ret|
    ensures var m := ReturnFrom(s, sup, supOut, ret, n - 1);
            var m' := ReturnFrom(s, sup, supOut, ret, n);
            var st := ReturnPass(s, sup, supOut, ret[n - 1], m.flow, m.cursor);
            && (m.error.Some? ==> m' == m)
            && (m.error.None? && st.Err? ==>
                  m'.rows == m.rows && m'.picks == m.picks && m'.cursor == m.cursor && m'.error.Some?)
            && (m.error.None? && st.Ok? ==>
                  && |m.rows| == n - 1
                  && ReturnCarried(s.iv.tConsumerRelease, ret[n - 1], m.flow, st.value)
                  && MatchConsumer(sup, supOut, ret[n - 1].takeOff, m.cursor)
                       == Ok(Match(st.value.row.mdotConsumer, st.value.cursor, st.value.pick))
                  && m'.rows == m.rows + [st.value.row] && m'.flow == st.value.next && m'.error.None?
                  && m'.cursor == st.value.cursor
                  && m'.picks == m.picks + (if st.value.pick.Some? then [st.value.pick.value] else []))
  {
  }

  /** The invariants carried from n - 1 segments to n, over the three cases
      of ReturnFromCases. */
  lemma ReturnHoldsStep(lBranch: real, f0: Flow, tRelease: real, ret: seq<Segment>, n: nat,
                        m: ReturnMarch, m': ReturnMarch, st: Result<ReturnStep>)
    requires 0 < n <= |ret| && ReturnHolds(lBranch, f0, ret, n - 1, m)
    requires m.error.Some? ==> m' == m
    requires m.error.None? && st.Err? ==> m'.rows == m.rows && m'.error.Some?
    requires m.error.None? && st.Ok? ==>
               && |m.rows| == n - 1
               && ReturnCarried(tRelease, ret[n - 1], m.flow, st.value)
               && m'.rows == m.rows + [st.value.row] && m'.flow == st.value.next && m'.error.None?
    ensures ReturnHolds(lBranch, f0, ret, n, m')
  {
    if m.error.None? && st.Ok? {
      ReturnPassKeeps(lBranch, ret, tRelease, f0.qTot, f0.mdot, m.rows, m.flow, st.value);
    }
  }

  /** Every return march keeps ReturnHolds. */
  lemma {:induction false} ReturnInvariants(s: Setup, sup: seq<Segment>, supOut: seq<PipeRow>, ret: seq<Segment>, n: nat)
    requires supOut != [] && n <= |ret|
    ensures ReturnHolds(LengthSum(sup), ReturnStart(s, sup, supOut).flow, ret, n, ReturnFrom(s, sup, supOut, ret, n))
  {
    var f0 := ReturnStart(s, sup, supOut).flow;
    if n > 0 {
      ReturnInvariants(s, sup, supOut, ret, n - 1);
      var m := ReturnFrom(s, sup, supOut, ret, n - 1);
      ReturnFromCases(s, sup, supOut, ret, n);
      ReturnHoldsStep(LengthSum(sup), f0, s.iv.tConsumerRelease, ret, n, m, ReturnFrom(s, sup, supOut, ret, n),
                      ReturnPass(s, sup, supOut, ret[n - 1], m.flow, m.cursor));
    } else {
      assert ret[..0] == [];
    }
  }

  /** The matching invariants carried from n - 1 segments to n, over the
      three cases of ReturnFromCases. */
  lemma MatchingStep(sup: seq<Segment>, supOut: seq<PipeRow>, ret: seq<Segment>, n: nat,
                     m: ReturnMarch, m': ReturnMarch, st: Result<ReturnStep>)
    requires 0 < n <= |ret|
    requires PicksSound(sup, m.picks, m.cursor) && ConsumersMatched(ret, supOut, m.rows, m.picks)
    requires m.error.Some? ==> m' == m
    requires m.error.None? && st.Err? ==>
               m'.rows == m.rows && m'.picks == m.picks && m'.cursor == m.cursor
    requires m.error.None? && st.Ok? ==>
               && |m.rows| == n - 1
               && MatchConsumer(sup, supOut, ret[n - 1].takeOff, m.cursor)
                    == Ok(Match(st.value.row.mdotConsumer, st.value.cursor, st.value.pick))
               && m'.rows == m.rows + [st.value.row] && m'.cursor == st.value.cursor
               && m'.picks == m.picks + (if st.value.pick.Some? then [st.value.pick.value] else [])
    ensures PicksSound(sup, m'.picks, m'.cursor) && ConsumersMatched(ret, supOut, m'.rows, m'.picks)
  {
    if m.error.None? && st.Ok? {
      var mt := Match(st.value.row.mdotConsumer, st.value.cursor, st.value.pick);
      PicksKeep(sup, supOut, ret[n - 1].takeOff, m.picks, m.cursor, mt);
      MatchedKeep(sup, supOut, ret, m.rows, m.picks, m.cursor, st.value.row, mt);
    }
  }

  /** The consumer flows of the return rows come from supply consumers
      matched in strictly decreasing order without skipping any, the n-th
      nonzero return take-off taking the n-th match. */
  lemma {:induction false} ReturnMatching(s: Setup, sup: seq<Segment>, supOut: seq<PipeRow>, ret: seq<Segment>, n: nat)
    requires supOut != [] && n <= |ret|
    ensures var m := ReturnFrom(s, sup, supOut, ret, n);
            PicksSound(sup, m.picks, m.cursor) && ConsumersMatched(ret, supOut, m.rows, m.picks)
  {
    if n > 0 {
      ReturnMatching(s, sup, supOut, ret, n - 1);
      var m := ReturnFrom(s, sup, supOut, ret, n - 1);
      ReturnFromCases(s, sup, supOut, ret, n);
      MatchingStep(sup, supOut, ret, n, m, ReturnFrom(s, sup, supOut, ret, n),
                   ReturnPass(s, sup, supOut, ret[n - 1], m.flow, m.cursor));
    } else {
      assert ret[..0] == [];
      assert sup[..|sup|] == sup;
    }
  }

  /** A return line that brings back flow from more consumers than the supply
      line has cannot complete: completing means every return consumer was
      matched to a different supply consumer. */
  lemma ReturnNeedsSupplyConsumers(s: Setup, sup: seq<Segment>, supOut: seq<PipeRow>, ret: seq<Segment>)
    requires supOut != []
    requires Return(s, sup, supOut, ret).error.None?
    ensures Consumers(ret) <= Consumers(sup)
  {
    ReturnMatching(s, sup, supOut, ret, |ret|);
    assert ret[..|ret|] == ret;
  }

  /** After a complete march the last row sits at the branch length less the
      return line's length: at zero when the two lines are equally long. */
  lemma ReturnEndsAtPlant(s: Setup, sup: seq<Segment>, supOut: seq<PipeRow>, ret: seq<Segment>)
    requires supOut != [] && |ret| > 0
    requires Return(s, sup, supOut, ret).error.None?
    ensures |Return(s, sup, supOut, ret).rows| == |ret|
    ensures Return(s, sup, supOut, ret).rows[|ret| - 1].lTot == LengthSum(sup) - LengthSum(ret)
  {
    ReturnInvariants(s, sup, supOut, ret, |ret|);
    assert ret[..|ret|] == ret;
  }
}
