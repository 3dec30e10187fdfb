/**
 * A 0/1 integer linear program, built up step by step as the optimizer does
 * with its model object: an objective to maximise and a list of linear
 * constraints over one binary variable per player. The external solver is
 * replaced by an exact exhaustive search over every 0/1 assignment.
 */
module Lp {
  import opened Outcomes

  datatype Sense = AtMost | Exactly

  /** `coeffs . x  <=  rhs` or `coeffs . x  ==  rhs`. */
  datatype Constraint = Constraint(coeffs: seq<int>, sense: Sense, rhs: int)

  /** What the solver reports; the optimizer never looks at it. */
  datatype Status = Optimal | Infeasible

  /** The weighted sum of the variables that are set. */
  function Dot(coeffs: seq<int>, x: seq<bool>): int {
    if coeffs == [] || x == [] then 0
    else (if x[0] then coeffs[0] else 0) + Dot(coeffs[1..], x[1..])
  }

  predicate Satisfies(x: seq<bool>, c: Constraint) {
    match c.sense
    case AtMost => Dot(c.coeffs, x) <= c.rhs
    case Exactly => Dot(c.coeffs, x) == c.rhs
  }

  /** An assignment meeting every constraint. */
  predicate Feasible(cs: seq<Constraint>, x: seq<bool>) {
    forall i :: 0 <= i < |cs| ==> Satisfies(x, cs[i])
  }

  /**
   * The best feasible assignment of length n that extends `prefix`, found by
   * trying both values of each remaining variable; on equal objectives the one
   * with the variable unset wins.
   */
  function Search(objective: seq<int>, cs: seq<Constraint>, n: nat, prefix: seq<bool>): (r: Option<seq<bool>>)
    requires |prefix| <= n
    ensures r.Some? ==> |r.value| == n && prefix <= r.value && Feasible(cs, r.value)
    decreases n - |prefix|
  {
    if |prefix| == n then
      if Feasible(cs, prefix) then Some(prefix) else None
    else
      var off := Search(objective, cs, n, prefix + [false]);
      var on := Search(objective, cs, n, prefix + [true]);
      if off.None? then on
      else if on.None? then off
      else if Dot(objective, on.value) > Dot(objective, off.value) then on
      else off
  }

  /** The search is exact: it finds an assignment whenever one extending the
      prefix is feasible, and no feasible extension scores higher. */
  lemma {:induction false} SearchIsOptimal(objective: seq<int>, cs: seq<Constraint>, n: nat, prefix: seq<bool>, y: seq<bool>)
    requires |prefix| <= n && |y| == n && prefix <= y && Feasible(cs, y)
    ensures Search(objective, cs, n, prefix).Some?
    ensures Dot(objective, y) <= Dot(objective, Search(objective, cs, n, prefix).value)
    decreases n - |prefix|
  {
    if |prefix| < n {
      var off := Search(objective, cs, n, prefix + [false]);
      var on := Search(objective, cs, n, prefix + [true]);
      var next := prefix + [y[|prefix|]];
      assert next <= y;
      SearchIsOptimal(objective, cs, n, next, y);
      assert next == if y[|prefix|] then prefix + [true] else prefix + [false];
    } else {
      assert prefix == y;
    }
  }

  /** The model object: one binary variable per player, an objective and the
      constraints added so far. */
  class Problem {
    const numVars: nat
    var objective: seq<int>
    var constraints: seq<Constraint>

    constructor (numVars: nat)
      ensures this.numVars == numVars
      ensures objective == [] && constraints == []
    {
      this.numVars := numVars;
      objective := [];
      constraints := [];
    }

    /** `model += <linear expression>`: sets the objective. */
    method SetObjective(coeffs: seq<int>)
      modifies this
      ensures objective == coeffs
      ensures constraints == old(constraints)
    {
      objective := coeffs;
    }

    /** `model += <constraint>`: appends one constraint. */
    method AddConstraint(c: Constraint)
      modifies this
      ensures constraints == old(constraints) + [c]
      ensures objective == old(objective)
    {
      constraints := constraints + [c];
    }

    /**
     * Solves the program exactly: reports Optimal exactly when some assignment
     * is feasible, and then returns a feasible assignment whose objective is
     * at least that of every feasible assignment.
     */
    method Solve() returns (status: Status, x: seq<bool>)
      ensures |x| == numVars
      ensures status == Optimal <==> exists y :: |y| == numVars && Feasible(constraints, y)
      ensures status == Optimal ==> Feasible(constraints, x)
      ensures status == Optimal ==>
        forall y :: |y| == numVars && Feasible(constraints, y) ==> Dot(objective, y) <= Dot(objective, x)
    {
      var best := Search(objective, constraints, numVars, []);
      if best.Some? {
        status, x := Optimal, best.value;
        forall y | |y| == numVars && Feasible(constraints, y)
          ensures Dot(objective, y) <= Dot(objective, x)
        {
          SearchIsOptimal(objective, constraints, numVars, [], y);
        }
      } else {
        status, x := Infeasible, seq(numVars, _ => false);
        if exists y :: |y| == numVars && Feasible(constraints, y) {
          var y :| |y| == numVars && Feasible(constraints, y);
          SearchIsOptimal(objective, constraints, numVars, [], y);
          assert false;
        }
      }
    }
  }
}
