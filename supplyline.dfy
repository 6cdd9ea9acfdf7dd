/** The supply line calculation: a march from the plant outwards that, segment
    by segment, finds the outlet temperature and heat loss, writes one row,
    and hands the outlet temperature and the reduced mass flow to the next
    segment. */
module SupplyLine {
  import opened Common
  import opened Functions
  import opened Outlet
  import opened BranchData

  /** A row and the variables for the next segment. */
  datatype Step = Step(row: PipeRow, next: Flow)

  /** The rows written so far, the variables, and the failure (if any) that
      stopped the march; rows written before a failure stay written. */
  datatype March = March(rows: seq<PipeRow>, flow: Flow, error: Option<Error>)

  /** The variables before the first segment: the supply inlet temperature,
      the mass flow from the volume flow [m3/h] and the density, position and
      cumulative loss zero, and the heat the flow carries in. */
  function SupplyStart(s: Setup): Flow {
    var mdot := MassFlow(s, s.iv.vdot, s.iv.tInSupply);
    Flow(s.iv.tInSupply, mdot, 0.0, 0.0, HeatContent(s, mdot, s.iv.tInSupply))
  }

  /** The start values: the mass flow [kg/s] is the volume flow [m3/h] times
      the density at the inlet temperature over 3600 seconds, and the heat
      flow is what that mass flow carries in. */
  lemma SupplyStartValues(s: Setup)
    ensures var f := SupplyStart(s);
            && f.tIn == s.iv.tInSupply && f.lTot == 0.0 && f.qLossTot == 0.0
            && f.mdot * 3600.0 == s.iv.vdot * FluidDensity(s, s.iv.tInSupply)
            && f.qTot == HeatContent(s, f.mdot, s.iv.tInSupply)
  {
  }

  /** How a supply row and the next variables carry the running values on:
      position and cumulative loss grow, the total heat flow loses the heat
      loss and the consumer's heat, the take-off leaves the mass flow, and the
      outlet temperature becomes the next inlet temperature. */
  predicate SupplyCarried(seg: Segment, f: Flow, st: Step) {
    var row := st.row;
    var next := st.next;
    && row.lat == seg.lat && row.lon == seg.lon
    && row.lTot == f.lTot + seg.length && next.lTot == row.lTot
    && row.qLossTot == f.qLossTot + row.qLoss && next.qLossTot == row.qLossTot
    && row.qTot == f.qTot - row.qLoss - row.qConsumerAbs && next.qTot == row.qTot
    && row.mdot == f.mdot && row.mdotConsumer == seg.takeOff
    && next.mdot == f.mdot + seg.takeOff
    && next.tIn == row.temperature
  }

  /** The bookkeeping after the outlet temperature of a segment is known. */
  function SupplyRecord(s: Setup, seg: Segment, dInternal: real, f: Flow, o: Outlet): (r: Result<Step>)
    requires seg.length != 0.0 && dInternal != 0.0
    ensures r.Err? <==> FluidDensity(s, f.tIn) == 0.0
    ensures r.Err? ==> r.error == DivisionByZero
    ensures r.Ok? ==> && SupplyCarried(seg, f, r.value) && RowValues(s, seg, dInternal, f, r.value.row)
                      && r.value.row.temperature == o.tOut && r.value.row.qLoss == o.qLoss
  {
    var lTot := f.lTot + seg.length;
    var qLossTot := f.qLossTot + o.qLoss;
    var den := FluidDensity(s, f.tIn);
    if den == 0.0 then Err(DivisionByZero)
    else
      var cp := SpecificHeat(s, f.tIn, WATER);
      var qConsAbs := Abs(seg.takeOff) * cp * (o.tOut - s.ext.tZero);
      var qConsAct := Abs(seg.takeOff) * cp * (o.tOut - s.iv.tConsumerRelease);
      ConsumerHeatSplit(Abs(seg.takeOff) * cp, o.tOut, s.ext.tZero, s.iv.tConsumerRelease);
      var qTot := f.qTot - o.qLoss - qConsAbs;
      var row := PipeRow(seg.lat, seg.lon, lTot, o.tOut, f.mdot, o.qLoss, o.qLoss / seg.length,
                         qLossTot, FlowVelocity(den, f.mdot, dInternal), seg.takeOff,
                         qConsAbs, qConsAct, qTot);
      Ok(Step(row, Flow(o.tOut, f.mdot + seg.takeOff, lTot, qLossTot, qTot)))
  }

  /** One pass of the supply loop: geometry, outlet temperature, bookkeeping,
      failing at the first step that fails. */
  function SupplyStep(s: Setup, seg: Segment, f: Flow): (r: Result<Step>)
    ensures r.Ok? ==> SupplyCarried(seg, f, r.value)
  {
    match SegmentGeometry(s, seg, s.insSupply)
    case Err(e) => Err(e)
    case Ok(g) =>
      match OutputTemperature(s.ext.ln, SegmentProblem(s, seg, g, f), s.maxIter)
      case Err(e) => Err(e)
      case Ok(o) => SupplyRecord(s, seg, g.dInternal, f, o)
  }

  /** A supply pass fails at the first of its steps that fails, in the order
      geometry, outlet temperature, bookkeeping. */
  lemma SupplyStepOrder(s: Setup, seg: Segment, f: Flow)
    ensures var r := SupplyStep(s, seg, f);
            var gr := SegmentGeometry(s, seg, s.insSupply);
            && (gr.Err? ==> r == Err(gr.error))
            && (gr.Ok? ==>
                  var o := OutputTemperature(s.ext.ln, SegmentProblem(s, seg, gr.value, f), s.maxIter);
                  && (o.Err? ==> r == Err(o.error))
                  && (o.Ok? ==> r == SupplyRecord(s, seg, gr.value.dInternal, f, o.value)))
  {
  }

  /** The march over the first n segments. */
  function SupplyFrom(s: Setup, segs: seq<Segment>, n: nat): (m: March)
    requires n <= |segs|
    ensures |m.rows| <= n
    ensures m.error.None? <==> |m.rows| == n
  {
    if n == 0 then March([], SupplyStart(s), None)
    else
      var m := SupplyFrom(s, segs, n - 1);
      if m.error.Some? then m
      else
        match SupplyStep(s, segs[n - 1], m.flow)
        case Err(e) => m.(error := Some(e))
        case Ok(st) => March(m.rows + [st.row], st.next, None)
  }

  /** One more segment: a successful pass appends its row and hands on its
      variables, a failing one stops the march with its error. */
  lemma SupplyAdvance(s: Setup, segs: seq<Segment>, i: nat, rows: seq<PipeRow>, f: Flow, st: Result<Step>)
    requires i < |segs| && SupplyFrom(s, segs, i) == March(rows, f, None) && st == SupplyStep(s, segs[i], f)
    ensures st.Ok? ==> SupplyFrom(s, segs, i + 1) == March(rows + [st.value.row], st.value.next, None)
    ensures st.Err? ==> SupplyFrom(s, segs, i + 1) == March(rows, f, Some(st.error))
  {
  }

  /** calculate_supply over all segments. */
  function Supply(s: Setup, segs: seq<Segment>): March {
    SupplyFrom(s, segs, |segs|)
  }

  /** Once a pass fails, no later segment is looked at. */
  lemma {:induction false} SupplyStops(s: Setup, segs: seq<Segment>, k: nat, n: nat)
    requires k <= n <= |segs| && SupplyFrom(s, segs, k).error.Some?
    ensures SupplyFrom(s, segs, n) == SupplyFrom(s, segs, k)
    decreases n
  {
    if n > k {
      SupplyStops(s, segs, k, n - 1);
    }
  }

  /** Row positions and cumulative losses and the total heat flow, stated
      over the rows written so far. */
  predicate PositionsHold(segs: seq<Segment>, rows: seq<PipeRow>) {
    && |rows| <= |segs|
    && forall k :: 0 <= k < |rows| ==>
         && rows[k].lTot == LengthSum(segs[..k + 1])
         && rows[k].lat == segs[k].lat && rows[k].lon == segs[k].lon
         && rows[k].mdotConsumer == segs[k].takeOff
  }

  predicate SupplyBalanced(q0: real, rows: seq<PipeRow>) {
    forall k :: 0 <= k < |rows| ==>
      && rows[k].qLossTot == LossSum(rows[..k + 1])
      && rows[k].qTot == q0 - LossSum(rows[..k + 1]) - ConsumerHeatSum(rows[..k + 1])
  }

  predicate MassCarried(mdot0: real, rows: seq<PipeRow>) {
    forall k :: 0 <= k < |rows| ==> rows[k].mdot == mdot0 + ConsumerFlowSum(rows[..k])
  }

  /** The three invariants survive one supply pass. */
  lemma SupplyStepKeeps(segs: seq<Segment>, q0: real, mdot0: real, rows: seq<PipeRow>, f: Flow, st: Step)
    requires |rows| < |segs| && SupplyCarried(segs[|rows|], f, st)
    requires PositionsHold(segs, rows) && f.lTot == LengthSum(segs[..|rows|])
    requires SupplyBalanced(q0, rows) && f.qLossTot == LossSum(rows)
    requires f.qTot == q0 - LossSum(rows) - ConsumerHeatSum(rows)
    requires MassCarried(mdot0, rows) && f.mdot == mdot0 + ConsumerFlowSum(rows)
    ensures var rows' := rows + [st.row];
            && PositionsHold(segs, rows') && st.next.lTot == LengthSum(segs[..|rows'|])
            && SupplyBalanced(q0, rows') && st.next.qLossTot == LossSum(rows')
            && st.next.qTot == q0 - LossSum(rows') - ConsumerHeatSum(rows')
            && MassCarried(mdot0, rows') && st.next.mdot == mdot0 + ConsumerFlowSum(rows')
  {
    var n := |rows|;
    var rows' := rows + [st.row];
    AppendRow(rows, st.row);
    PrefixSums(segs, rows, n);
    assert rows'[..n + 1] == rows';
  }

  /** What every row of a supply march satisfies: it describes its own
      segment; its position is the summed length of the segments up to and
      including it; its cumulative loss is the sum of the losses so far; the
      total heat flow has lost exactly those losses and the heat handed to
      the consumers so far; and the mass flow entering it is the initial
      mass flow plus the take-offs before it. A failure keeps these for the
      rows already written; while no pass has failed, the variables carry
      the same running values. */
  predicate SupplyHolds(f0: Flow, segs: seq<Segment>, n: nat, m: March) {
    && n <= |segs|
    && PositionsHold(segs, m.rows) && SupplyBalanced(f0.qTot, m.rows) && MassCarried(f0.mdot, m.rows)
    && (m.error.None? ==>
          && m.flow.lTot == LengthSum(segs[..n])
          && m.flow.qLossTot == LossSum(m.rows)
          && m.flow.qTot == f0.qTot - LossSum(m.rows) - ConsumerHeatSum(m.rows)
          && m.flow.mdot == f0.mdot + ConsumerFlowSum(m.rows))
  }

  /** How the march over n segments follows from the march over n - 1: a
      failure stays, a failing pass keeps the rows, and a successful pass
      appends its row and hands on its variables. */
  lemma SupplyFromCases(s: Setup, segs: seq<Segment>, n: nat)
    requires 0 < n <= |segs|
    ensures var m := SupplyFrom(s, segs, n - 1);
            var m' := SupplyFrom(s, segs, n);
            var st := SupplyStep(s, segs[n - 1], m.flow);
            && (m.error.Some? ==> m' == m)
            && (m.error.None? && st.Err? ==> m'.rows == m.rows && m'.error.Some?)
            && (m.error.None? && st.Ok? ==>
                  && |m.rows| == n - 1 && SupplyCarried(segs[n - 1], m.flow, st.value)
                  && m'.rows == m.rows + [st.value.row] && m'.flow == st.value.next && m'.error.None?)
  {
  }

  /** The invariants carried from n - 1 segments to n, over the three cases
      of SupplyFromCases. */
  lemma SupplyHoldsStep(f0: Flow, segs: seq<Segment>, n: nat, m: March, m': March, st: Result<Step>)
    requires 0 < n <= |segs| && SupplyHolds(f0, segs, n - 1, m)
    requires m.error.Some? ==> m' == m
    requires m.error.None? && st.Err? ==> m'.rows == m.rows && m'.error.Some?
    requires m.error.None? && st.Ok? ==>
               && |m.rows| == n - 1 && SupplyCarried(segs[n - 1], m.flow, st.value)
               && m'.rows == m.rows + [st.value.row] && m'.flow == st.value.next && m'.error.None?
    ensures SupplyHolds(f0, segs, n, m')
  {
    if m.error.None? && st.Ok? {
      SupplyStepKeeps(segs, f0.qTot, f0.mdot, m.rows, m.flow, st.value);
    }
  }

  /** SupplyHolds carried from the march over n - 1 segments to n. */
  lemma SupplyMarchKeeps(s: Setup, segs: seq<Segment>, n: nat)
    requires 0 < n <= |segs|
    requires SupplyHolds(SupplyStart(s), segs, n - 1, SupplyFrom(s, segs, n - 1))
    ensures SupplyHolds(SupplyStart(s), segs, n, SupplyFrom(s, segs, n))
  {
    var m := SupplyFrom(s, segs, n - 1);
    SupplyFromCases(s, segs, n);
    SupplyHoldsStep(SupplyStart(s), segs, n, m, SupplyFrom(s, segs, n), SupplyStep(s, segs[n - 1], m.flow));
  }

  /** Every supply march keeps SupplyHolds. */
  lemma {:induction false} SupplyInvariants(s: Setup, segs: seq<Segment>, n: nat)
    requires n <= |segs|
    ensures SupplyHolds(SupplyStart(s), segs, n, SupplyFrom(s, segs, n))
  {
    if n > 0 {
      SupplyInvariants(s, segs, n - 1);
      SupplyMarchKeeps(s, segs, n);
    } else {
      assert segs[..0] == [];
    }
  }

  /** After a complete march there is one row per segment and the last row
      sits at the branch length. */
  lemma SupplyEndsAtBranchLength(s: Setup, segs: seq<Segment>)
    requires Supply(s, segs).error.None? && |segs| > 0
    ensures |Supply(s, segs).rows| == |segs|
    ensures Supply(s, segs).rows[|segs| - 1].lTot == LengthSum(segs)
  {
    SupplyInvariants(s, segs, |segs|);
    assert segs[..|segs|] == segs;
  }

  /** With non-negative segment lengths every prefix sum lies between zero
      and any longer prefix sum. */
  lemma {:induction false} PrefixLengthBounds(segs: seq<Segment>, k: nat, l: nat)
    requires forall i :: 0 <= i < |segs| ==> segs[i].length >= 0.0
    requires k <= l <= |segs|
    ensures 0.0 <= LengthSum(segs[..k]) <= LengthSum(segs[..l])
    decreases l
  {
    if l == 0 {
      assert segs[..0] == [];
    } else if k < l {
      PrefixLengthBounds(segs, k, l - 1);
      PrefixSums(segs, [], l - 1);
    } else {
      PrefixLengthBounds(segs, k - 1, k - 1);
      PrefixSums(segs, [], k - 1);
    }
  }

  /** Rows placed at the prefix sums of non-negative lengths are ordered
      and lie between zero and the total length. */
  lemma {:induction false} PositionsOrdered(segs: seq<Segment>, rows: seq<PipeRow>, k: nat, l: nat)
    requires forall i :: 0 <= i < |segs| ==> segs[i].length >= 0.0
    requires PositionsHold(segs, rows) && k <= l < |rows|
    ensures 0.0 <= rows[k].lTot <= rows[l].lTot <= LengthSum(segs)
  {
    assert segs[..|segs|] == segs;
    PrefixLengthBounds(segs, k + 1, l + 1);
    PrefixLengthBounds(segs, l + 1, |segs|);
  }

  /** With non-negative segment lengths the supply rows move outwards: their
      positions never decrease and stay between zero and the branch length. */
  lemma SupplyPositionsWithinBranch(s: Setup, segs: seq<Segment>)
    requires forall i :: 0 <= i < |segs| ==> segs[i].length >= 0.0
    ensures var rows := Supply(s, segs).rows;
            forall k, l :: 0 <= k <= l < |rows| ==> 0.0 <= rows[k].lTot <= rows[l].lTot <= LengthSum(segs)
  {
    SupplyInvariants(s, segs, |segs|);
    var rows := Supply(s, segs).rows;
    forall k: nat, l: nat | k <= l < |rows|
      ensures 0.0 <= rows[k].lTot <= rows[l].lTot <= LengthSum(segs)
    {
      PositionsOrdered(segs, rows, k, l);
    }
  }
}
