/** A district-heating branch: the validated setup, the supply and return
    input segments, and the three output tables that the supply, return and
    system calculations append to. Each calculation is a loop over the rows
    of its line, proved to append exactly the rows of the march that
    specifies it and to stop with the march's failure. */
module BranchEngine {
  import opened Common
  import opened Parameters
  import opened Functions
  import opened Validation
  import opened Outlet
  import opened BranchData
  import opened SupplyLine
  import opened ReturnLine
  import opened SystemFlow

  class Branch {
    const setup: Setup
    const supplyIn: seq<Segment>
    const returnIn: seq<Segment>
    var supplyOut: seq<PipeRow>
    var returnOut: seq<PipeRow>
    var systemOut: seq<SystemRow>

    constructor (s: Setup, supplyIn: seq<Segment>, returnIn: seq<Segment>)
      ensures setup == s && this.supplyIn == supplyIn && this.returnIn == returnIn
      ensures supplyOut == [] && returnOut == [] && systemOut == []
    {
      setup := s;
      this.supplyIn := supplyIn;
      this.returnIn := returnIn;
      supplyOut := [];
      returnOut := [];
      systemOut := [];
    }

    /** Branch.__init__: a branch exists exactly when the setup can be made,
        and it starts with empty output tables. */
    static method New(iv: Option<Config>, thValues: map<string, Table>, thFile: map<string, Table>,
                      mode: string, damage: Option<PyValue>, ext: Externals, maxIter: nat,
                      supplyIn: seq<Segment>, returnIn: seq<Segment>) returns (r: Result<Branch>)
      ensures var s := MakeSetup(iv, thValues, thFile, mode, damage, ext, maxIter);
              && (r.Ok? <==> s.Ok?)
              && (r.Err? ==> r.error == s.error)
              && (r.Ok? ==> && fresh(r.value) && r.value.setup == s.value
                            && r.value.supplyIn == supplyIn && r.value.returnIn == returnIn
                            && r.value.supplyOut == [] && r.value.returnOut == [] && r.value.systemOut == [])
    {
      match MakeSetup(iv, thValues, thFile, mode, damage, ext, maxIter)
      case Err(e) =>
        r := Err(e);
      case Ok(s) =>
        var b := new Branch(s, supplyIn, returnIn);
        r := Ok(b);
    }

    /** calculate_branch_length: the summed lengths of the supply segments. */
    function BranchLength(): real {
      LengthSum(supplyIn)
    }

    /** One pass of the loop of calculate_supply: geometry and thermal
        resistance, outlet temperature and heat loss, then the row and the
        variables for the next segment. */
    method SupplySegment(seg: Segment, f: Flow) returns (r: Result<Step>)
      ensures r == SupplyStep(setup, seg, f)
    {
      var s := setup;
      SupplyStepOrder(s, seg, f);
      var gr := SegmentGeometry(s, seg, s.insSupply);
      if gr.Err? {
        return Err(gr.error);
      }
      var g := gr.value;
      var tAmb := SelectAmbientTemperature(seg.location).value;
      var cp := SpecificHeat(s, f.tIn, WATER);
      var o := CalculateOutputTemperature(s.ext.ln, Problem(f.tIn, tAmb, f.mdot, cp, g.rTot, TOLERANCE), s.maxIter);
      assert Problem(f.tIn, tAmb, f.mdot, cp, g.rTot, TOLERANCE) == SegmentProblem(s, seg, g, f);
      if o.Err? {
        return Err(o.error);
      }
      // running values, velocity, consumer heat and the row
      r := SupplyRecord(s, seg, g.dInternal, f, o.value);
    }

    /** calculate_supply: appends the rows of the supply march, and reports
        the failure that stopped it (rows written before it stay). */
    method CalculateSupply() returns (err: Option<Error>)
      modifies this`supplyOut
      ensures supplyOut == old(supplyOut) + Supply(setup, supplyIn).rows
      ensures err == Supply(setup, supplyIn).error
    {
      var s := setup;
      var tIn := s.iv.tInSupply;
      var mdot := MassFlow(s, s.iv.vdot, tIn);
      var f := Flow(tIn, mdot, 0.0, 0.0, HeatContent(s, mdot, tIn));
      ghost var rows: seq<PipeRow> := [];
      var i := 0;
      while i < |supplyIn|
        invariant 0 <= i <= |supplyIn|
        invariant supplyOut == old(supplyOut) + rows
        invariant SupplyFrom(s, supplyIn, i) == March(rows, f, None)
      {
        var st := SupplySegment(supplyIn[i], f);
        SupplyAdvance(s, supplyIn, i, rows, f, st);
        if st.Err? {
          SupplyStops(s, supplyIn, i + 1, |supplyIn|);
          return Some(st.error);
        }
        supplyOut := supplyOut + [st.value.row];
        rows := rows + [st.value.row];
        f := st.value.next;
        i := i + 1;
      }
      err := None;
    }

    /** The inner loop of calculate_return: from the cursor downwards, the
        next supply segment with a consumer, whose recorded consumer flow
        comes back negated; the cursor then moves below it. */
    method FindConsumer(takeOff: real, cursor: int) returns (r: Result<Match>)
      requires -1 <= cursor < |supplyIn|
      ensures r == MatchConsumer(supplyIn, supplyOut, takeOff, cursor)
    {
      if takeOff == 0.0 {
        return Ok(Match(0.0, cursor, None));
      }
      var j := cursor;
      while true
        invariant -1 <= j <= cursor
        invariant NextConsumer(supplyIn, cursor) == NextConsumer(supplyIn, j)
        decreases j + 1
      {
        if j < 0 {
          return Err(IndexOutOfRange(j));
        }
        if supplyIn[j].takeOff != 0.0 {
          break;
        }
        j := j - 1;
      }
      if j >= |supplyOut| {
        return Err(IndexOutOfRange(j));
      }
      r := Ok(Match(-supplyOut[j].mdotConsumer, j - 1, Some(j)));
    }

    /** One pass of the loop of calculate_return: geometry and thermal
        resistance, outlet temperature and heat loss, the matching consumer,
        the mixture, then the row and the variables for the next segment. */
    method ReturnSegment(seg: Segment, f: Flow, cursor: int) returns (r: Result<ReturnStep>)
      requires -1 <= cursor < |supplyIn|
      ensures r == ReturnPass(setup, supplyIn, supplyOut, seg, f, cursor)
    {
      var s := setup;
      ReturnPassOrder(s, supplyIn, supplyOut, seg, f, cursor);
      var gr := SegmentGeometry(s, seg, s.insReturn);
      if gr.Err? {
        return Err(gr.error);
      }
      var g := gr.value;
      var tAmb := SelectAmbientTemperature(seg.location).value;
      var cp := SpecificHeat(s, f.tIn, WATER);
      var o := CalculateOutputTemperature(s.ext.ln, Problem(f.tIn, tAmb, f.mdot, cp, g.rTot, TOLERANCE), s.maxIter);
      assert Problem(f.tIn, tAmb, f.mdot, cp, g.rTot, TOLERANCE) == SegmentProblem(s, seg, g, f);
      if o.Err? {
        return Err(o.error);
      }
      var m := FindConsumer(seg.takeOff, cursor);
      if m.Err? {
        return Err(m.error);
      }
      // mixture, running values, velocity, consumer heat and the row
      r := ReturnRecord(s, seg, g.dInternal, f, o.value, m.value);
    }

    /** calculate_return: without supply rows it fails before writing
        anything; otherwise it appends the rows of the return march and
        reports the failure that stopped it. */
    method CalculateReturn() returns (err: Option<Error>)
      modifies this`returnOut
      ensures supplyOut == [] ==> err == Some(SupplyDataMissing) && returnOut == old(returnOut)
      ensures supplyOut != [] ==>
                && returnOut == old(returnOut) + Return(setup, supplyIn, supplyOut, returnIn).rows
                && err == Return(setup, supplyIn, supplyOut, returnIn).error
    {
      if supplyOut == [] {
        return Some(SupplyDataMissing);
      }
      var s := setup;
      var tIn := s.iv.tInReturn;
      var mdot := supplyOut[|supplyOut| - 1].mdot;
      var f := Flow(tIn, mdot, BranchLength(), 0.0, HeatContent(s, mdot, tIn));
      var j := |supplyIn| - 1;
      ghost var rows: seq<PipeRow> := [];
      ghost var picks: seq<int> := [];
      var i := 0;
      while i < |returnIn|
        invariant 0 <= i <= |returnIn|
        invariant returnOut == old(returnOut) + rows
        invariant ReturnFrom(s, supplyIn, supplyOut, returnIn, i) == ReturnMarch(rows, f, j, picks, None)
      {
        var st := ReturnSegment(returnIn[i], f, j);
        ReturnAdvance(s, supplyIn, supplyOut, returnIn, i, rows, f, j, picks, st);
        if st.Err? {
          ReturnStops(s, supplyIn, supplyOut, returnIn, i + 1, |returnIn|);
          return Some(st.error);
        }
        returnOut := returnOut + [st.value.row];
        rows := rows + [st.value.row];
        picks := picks + (if st.value.pick.Some? then [st.value.pick.value] else []);
        f := st.value.next;
        j := st.value.cursor;
        i := i + 1;
      }
      err := None;
    }

    /** One pass of the loop of calculate_system_heat_flow, given the
        shorter output length and the tail offset computed before the loop. */
    method SystemRowAt(lenSys: int, diff: int, i: nat, j: nat, value: Option<real>) returns (r: Result<Tick>)
      requires lenSys == ShorterLength(|supplyOut|, |returnOut|) && diff == TailOffset(|supplyOut|, |returnOut|)
      requires j <= i < |supplyOut|
      ensures r == SystemPass(supplyIn, returnIn, supplyOut, returnOut, i, j, value)
    {
      var idx := lenSys - i;
      if !(0 <= idx < |returnIn|) {
        return Err(IndexOutOfRange(idx));
      }
      var j', value' := j, value;
      if returnIn[idx].takeOff != 0.0 || i == lenSys {
        var ridx := |returnOut| - diff - i;
        if !(0 <= ridx < |returnOut|) {
          return Err(IndexOutOfRange(ridx));
        }
        value' := Some(supplyOut[j].qTot / MEGA - returnOut[ridx].qTot / MEGA);
        j' := j + 1;
      }
      if i >= |supplyIn| {
        return Err(IndexOutOfRange(i));
      }
      if value'.None? {
        return Err(UnboundValue);
      }
      r := Ok(Tick(SystemRow(supplyIn[i].lat, supplyIn[i].lon, supplyOut[i].lTot, value'.value), j', value'.value));
    }

    /** calculate_system_heat_flow: appends the rows of the system loop and
        reports the failure that stopped it. */
    method CalculateSystemHeatFlow() returns (err: Option<Error>)
      modifies this`systemOut
      ensures systemOut == old(systemOut) + System(supplyIn, returnIn, supplyOut, returnOut).rows
      ensures err == System(supplyIn, returnIn, supplyOut, returnOut).error
    {
      var lenSys: int;
      if |supplyOut| <= |returnOut| {
        lenSys := |supplyOut|;
      } else {
        lenSys := |returnOut|;
      }
      var lengthDiff := |supplyOut| - |returnOut|;
      var diff: int;
      if lengthDiff > 0 {
        diff := 0;
      } else {
        diff := -lengthDiff;
      }
      var j := 0;
      var value: Option<real> := None;
      ghost var rows: seq<SystemRow> := [];
      var i := 0;
      while i < |supplyOut|
        invariant 0 <= i <= |supplyOut|
        invariant systemOut == old(systemOut) + rows
        invariant SystemFrom(supplyIn, returnIn, supplyOut, returnOut, i) == SysState(rows, j, value, None)
      {
        var t := SystemRowAt(lenSys, diff, i, j, value);
        if t.Err? {
          SystemStops(supplyIn, returnIn, supplyOut, returnOut, i + 1, |supplyOut|);
          return Some(t.error);
        }
        systemOut := systemOut + [t.value.row];
        rows := rows + [t.value.row];
        j := t.value.j;
        value := Some(t.value.value);
        i := i + 1;
      }
      err := None;
    }
  }
}
