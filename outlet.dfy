/** The outlet temperature of one pipe segment: a fixed-point iteration that
    alternates between the heat loss, driven by the logarithmic mean of the
    inlet and outlet temperatures, and the outlet temperature that this loss
    leaves in the fluid. Only partial correctness is stated: what holds when
    the iteration stops, and when it fails. */
module Outlet {
  import opened Common
  import opened Functions

  /** Inputs: inlet and ambient temperature [degrees C], mass flow [kg/s],
      specific heat [J/kgK], total resistance [K/W] and relative tolerance. */
  datatype Problem = Problem(tIn: real, tAmb: real, mdot: real, cp: real, rTot: real, tolerance: real)

  /** Result: outlet temperature [degrees C] and heat loss [W]. */
  datatype Outlet = Outlet(tOut: real, qLoss: real)

  /** The loop variables: the previous outlet estimate, the current one and
      the current heat loss. */
  datatype Iterate = Iterate(tRef: real, tOut: real, qLoss: real)

  /** Neither the seed loss nor the seed outlet temperature divides by zero. */
  predicate Solvable(p: Problem) {
    p.rTot != 0.0 && p.mdot * p.cp != 0.0
  }

  /** Logarithmic mean of two temperatures. When the logarithms are equal the
      division fails and the program falls back to (a - b) / 2 as written. */
  function LogMean(ln: real -> real, a: real, b: real): (m: real)
    ensures ln(a) != ln(b) ==> m * (ln(a) - ln(b)) == a - b
  {
    if ln(a) - ln(b) == 0.0 then (a - b) / 2.0 else (a - b) / (ln(a) - ln(b))
  }

  /** The outlet estimate is consistent with the loss: the loss equals the
      heat given up by the flow between inlet and outlet. */
  predicate Balanced(p: Problem, it: Iterate) {
    it.qLoss == HeatFlow(p.tIn, it.tOut, p.mdot, p.cp)
  }

  /** The first estimate: the loss at the inlet temperature. */
  function Seed(p: Problem): (it: Iterate)
    requires Solvable(p)
    ensures it.tRef == p.tIn && it.qLoss * p.rTot == p.tIn - p.tAmb
    ensures Balanced(p, it)
  {
    var q := HeatFlowLoss(p.rTot, p.tAmb, p.tIn);
    Iterate(p.tIn, CooledTo(p, q), q)
  }

  /** The outlet temperature at which the flow has given up the heat `q`. */
  function CooledTo(p: Problem, q: real): (t: real)
    requires Solvable(p)
    ensures HeatFlow(p.tIn, t, p.mdot, p.cp) == q
  {
    var c := p.mdot * p.cp;
    assert p.tIn - (p.tIn - q / c) == q / c;
    p.tIn - q / c
  }

  predicate Converged(p: Problem, it: Iterate)
    requires it.tRef != 0.0
  {
    Abs((it.tRef - it.tOut) / it.tRef) <= p.tolerance
  }

  /** One pass of the loop body on the path where the fluid is still above the
      ambient temperature. */
  function Refine(ln: real -> real, p: Problem, it: Iterate): (r: Result<Iterate>)
    requires Solvable(p)
    ensures r.Err? <==> p.tIn <= 0.0 || it.tOut <= 0.0
    ensures r.Err? ==> r.error == NonPositiveTemperature(p.tIn, it.tOut) && r.error.Exception() == ValueError
    ensures r.Ok? ==> r.value.tRef == it.tOut && Balanced(p, r.value)
    ensures r.Ok? ==> r.value.qLoss * p.rTot == LogMean(ln, p.tIn, it.tOut) - p.tAmb
  {
    if p.tIn <= 0.0 || it.tOut <= 0.0 then Err(NonPositiveTemperature(p.tIn, it.tOut))
    else
      var q := HeatFlowLoss(p.rTot, p.tAmb, LogMean(ln, p.tIn, it.tOut));
      Ok(Iterate(it.tOut, CooledTo(p, q), q))
  }

  /** The loop from a given iterate, with at most `fuel` passes of its body. */
  function Converge(ln: real -> real, p: Problem, it: Iterate, fuel: nat): Result<Iterate>
    requires Solvable(p) && it.tRef != 0.0
    decreases fuel
  {
    if Converged(p, it) then Ok(it)
    else if it.tOut <= p.tAmb then Ok(it.(tOut := p.tAmb))
    else if fuel == 0 then Err(NoConvergence)
    else
      match Refine(ln, p, it)
      case Err(e) => Err(e)
      case Ok(next) => Converge(ln, p, next, fuel - 1)
  }

  /** calculate_output_temperature */
  function OutputTemperature(ln: real -> real, p: Problem, fuel: nat): Result<Outlet> {
    if !Solvable(p) || p.tIn == 0.0 then Err(DivisionByZero)
    else
      match Converge(ln, p, Seed(p), fuel)
      case Err(e) => Err(e)
      case Ok(it) => Ok(Outlet(it.tOut, it.qLoss))
  }

  method CalculateOutputTemperature(ln: real -> real, p: Problem, fuel: nat) returns (r: Result<Outlet>)
    ensures r == OutputTemperature(ln, p, fuel)
  {
    if p.rTot == 0.0 {
      return Err(DivisionByZero);
    }
    var qLoss := HeatFlowLoss(p.rTot, p.tAmb, p.tIn);
    var tOutRef := p.tIn;
    if p.mdot * p.cp == 0.0 {
      return Err(DivisionByZero);
    }
    var tOut := CooledTo(p, qLoss);
    if tOutRef == 0.0 {
      return Err(DivisionByZero);
    }
    ghost var seed := Iterate(tOutRef, tOut, qLoss);
    assert seed == Seed(p);
    var n := fuel;
    while Abs((tOutRef - tOut) / tOutRef) > p.tolerance
      invariant tOutRef != 0.0
      invariant Converge(ln, p, seed, fuel) == Converge(ln, p, Iterate(tOutRef, tOut, qLoss), n)
      decreases n
    {
      if tOut <= p.tAmb {
        tOut := p.tAmb;
        break;
      }
      if n == 0 {
        return Err(NoConvergence);
      }
      if p.tIn <= 0.0 || tOut <= 0.0 {
        return Err(NonPositiveTemperature(p.tIn, tOut));
      }
      var tAvg := LogMean(ln, p.tIn, tOut);
      qLoss := HeatFlowLoss(p.rTot, p.tAmb, tAvg);
      tOutRef := tOut;
      tOut := CooledTo(p, qLoss);
      n := n - 1;
    }
    r := Ok(Outlet(tOut, qLoss));
  }

  lemma ScaleMonotone(c: real, x: real, y: real)
    requires c > 0.0 && x <= y
    ensures c * x <= c * y
  {
  }

  /** On exit from the loop either the last two estimates agree within the
      tolerance and the loss balances the temperature drop, or the estimate
      reached the ambient temperature: the outlet is clamped to it and the
      loss of the previous pass is kept, which is at least the heat the flow
      gives up in cooling to the ambient. */
  lemma {:induction false} ConvergeExit(ln: real -> real, p: Problem, it: Iterate, fuel: nat)
    requires Solvable(p) && it.tRef != 0.0 && Balanced(p, it)
    requires Converge(ln, p, it, fuel).Ok?
    ensures var f := Converge(ln, p, it, fuel).value;
            (f.tRef != 0.0 && Converged(p, f) && Balanced(p, f)) ||
            (f.tOut == p.tAmb &&
               (p.mdot * p.cp > 0.0 ==> f.qLoss >= HeatFlow(p.tIn, p.tAmb, p.mdot, p.cp)))
    decreases fuel
  {
    if Converged(p, it) {
    } else if it.tOut <= p.tAmb {
      if p.mdot * p.cp > 0.0 {
        ScaleMonotone(p.mdot * p.cp, p.tIn - p.tAmb, p.tIn - it.tOut);
        assert HeatFlow(p.tIn, p.tAmb, p.mdot, p.cp) == p.mdot * p.cp * (p.tIn - p.tAmb);
        assert HeatFlow(p.tIn, it.tOut, p.mdot, p.cp) == p.mdot * p.cp * (p.tIn - it.tOut);
      }
    } else {
      var next := Refine(ln, p, it);
      ConvergeExit(ln, p, next.value, fuel - 1);
    }
  }

  /** The loop fails only by running out of passes or with a temperature at or
      below zero on the path where the fluid is still warmer than the ambient. */
  lemma {:induction false} ConvergeErrors(ln: real -> real, p: Problem, it: Iterate, fuel: nat)
    requires Solvable(p) && it.tRef != 0.0
    requires Converge(ln, p, it, fuel).Err?
    ensures var e := Converge(ln, p, it, fuel).error;
            e == NoConvergence ||
            (e.NonPositiveTemperature? && e.tIn == p.tIn && e.tOut > p.tAmb &&
               (e.tIn <= 0.0 || e.tOut <= 0.0))
    decreases fuel
  {
    if !Converged(p, it) && it.tOut > p.tAmb && fuel > 0 {
      var next := Refine(ln, p, it);
      if next.Ok? {
        ConvergeErrors(ln, p, next.value, fuel - 1);
      }
    }
  }

  /** What calculate_output_temperature returns when it succeeds. */
  lemma OutputTemperatureExit(ln: real -> real, p: Problem, fuel: nat)
    requires OutputTemperature(ln, p, fuel).Ok?
    ensures var o := OutputTemperature(ln, p, fuel).value;
            o.qLoss == HeatFlow(p.tIn, o.tOut, p.mdot, p.cp) ||
            (o.tOut == p.tAmb &&
               (p.mdot * p.cp > 0.0 ==> o.qLoss >= HeatFlow(p.tIn, p.tAmb, p.mdot, p.cp)))
  {
    ConvergeExit(ln, p, Seed(p), fuel);
  }

  /** With a positive inlet temperature and an ambient at or above zero the
      temperature check never fires: the only failures left are a division by
      zero and the iteration bound. */
  lemma PositiveTemperaturesNeverRaise(ln: real -> real, p: Problem, fuel: nat)
    requires p.tIn > 0.0 && p.tAmb >= 0.0
    ensures OutputTemperature(ln, p, fuel).Err? ==>
              OutputTemperature(ln, p, fuel).error in {DivisionByZero, NoConvergence}
  {
    if Solvable(p) && Converge(ln, p, Seed(p), fuel).Err? {
      ConvergeErrors(ln, p, Seed(p), fuel);
    }
  }

  /** When the seed is already within the tolerance the loop body never runs
      and the seed loss and outlet temperature are returned. */
  lemma SeedWithinTolerance(ln: real -> real, p: Problem, fuel: nat)
    requires Solvable(p) && p.tIn != 0.0 && Converged(p, Seed(p))
    ensures OutputTemperature(ln, p, fuel) == Ok(Outlet(Seed(p).tOut, Seed(p).qLoss))
    ensures Seed(p).qLoss * p.rTot == p.tIn - p.tAmb
    ensures Seed(p).tOut == CooledTo(p, Seed(p).qLoss)
  {
  }
}
