/**
 * The part of the CP-SAT interface the scheduler uses, with the model kept as data:
 * integer variables are numbered in creation order and carry a domain, constraints are
 * linear comparisons with optional enforcement literals, and an objective is a direction
 * with a list of summed variables. The search itself is not modelled: a solver answer is
 * a status and one value per variable, and `Satisfies` says when such values obey the model.
 */
module CpSat {

  /** Bounds of an integer variable (`NewIntVar(lo, hi, name)`; a Boolean variable is 0..1). */
  datatype Domain = Domain(lo: int, hi: int)

  datatype Cmp = Eq | Gt | Le

  /** An enforcement literal: Boolean variable `v` (`b`) or its negation (`b.Not()`). */
  datatype Literal = Pos(v: nat) | Neg(v: nat)

  /** `Add(sum(terms) cmp rhs).OnlyEnforceIf(enforcedIf)`; an empty list means always enforced. */
  datatype LinearConstraint = LinearConstraint(terms: seq<nat>, cmp: Cmp, rhs: int, enforcedIf: seq<Literal>)

  datatype Objective = NoObjective | Maximize(terms: seq<nat>) | Minimize(terms: seq<nat>)

  /** Every variable the constraint mentions exists among the first `n`. */
  predicate RefersWithin(c: LinearConstraint, n: nat) {
    VarsWithin(c.terms, n) && forall l :: l in c.enforcedIf ==> l.v < n
  }

  predicate VarsWithin(vars: seq<nat>, n: nat) {
    forall i :: 0 <= i < |vars| ==> vars[i] < n
  }

  /** `sum(values[v] for v in vars)`. */
  function Sum(values: seq<int>, vars: seq<nat>): int
    requires VarsWithin(vars, |values|)
  {
    if vars == [] then 0 else Sum(values, vars[..|vars| - 1]) + values[vars[|vars| - 1]]
  }

  predicate LiteralTrue(values: seq<int>, l: Literal)
    requires l.v < |values|
  {
    match l
    case Pos(v) => values[v] == 1
    case Neg(v) => values[v] == 0
  }

  predicate Compare(lhs: int, cmp: Cmp, rhs: int) {
    match cmp
    case Eq => lhs == rhs
    case Gt => lhs > rhs
    case Le => lhs <= rhs
  }

  /** The constraint holds: when all its literals are true, the comparison holds. */
  predicate Holds(values: seq<int>, c: LinearConstraint)
    requires RefersWithin(c, |values|)
  {
    (forall l :: l in c.enforcedIf ==> LiteralTrue(values, l)) ==> Compare(Sum(values, c.terms), c.cmp, c.rhs)
  }

  /** One value per variable, each within its domain. */
  predicate InDomains(domains: seq<Domain>, values: seq<int>) {
    |values| == |domains| && forall v :: 0 <= v < |values| ==> domains[v].lo <= values[v] <= domains[v].hi
  }

  predicate AllHold(values: seq<int>, cs: seq<LinearConstraint>) {
    forall i :: 0 <= i < |cs| ==> RefersWithin(cs[i], |values|) && Holds(values, cs[i])
  }

  /** `values` is a solution of the model made of `domains` and `cs`. */
  predicate Satisfies(domains: seq<Domain>, cs: seq<LinearConstraint>, values: seq<int>) {
    InDomains(domains, values) && AllHold(values, cs)
  }

  lemma AllHoldAppend(values: seq<int>, a: seq<LinearConstraint>, b: seq<LinearConstraint>)
    ensures AllHold(values, a + b) <==> AllHold(values, a) && AllHold(values, b)
  {
    if AllHold(values, a) && AllHold(values, b) {
      forall i | 0 <= i < |a + b| ensures RefersWithin((a + b)[i], |values|) && Holds(values, (a + b)[i]) {
        if i >= |a| {
          assert (a + b)[i] == b[i - |a|];
        }
      }
    }
    if AllHold(values, a + b) {
      forall i | 0 <= i < |a| ensures RefersWithin(a[i], |values|) && Holds(values, a[i]) {
        assert (a + b)[i] == a[i];
      }
      forall i | 0 <= i < |b| ensures RefersWithin(b[i], |values|) && Holds(values, b[i]) {
        assert (a + b)[|a| + i] == b[i];
      }
    }
  }

  lemma AllHoldSingleton(values: seq<int>, c: LinearConstraint)
    requires RefersWithin(c, |values|)
    ensures AllHold(values, [c]) <==> Holds(values, c)
  {
    assert [c][0] == c;
  }

  /** `cp_model.CpModel`: the variables, constraints and objective added so far. */
  class CpModel {
    var domains: seq<Domain>
    var constraints: seq<LinearConstraint>
    var objective: Objective

    constructor ()
      ensures domains == [] && constraints == [] && objective == NoObjective
    {
      domains, constraints, objective := [], [], NoObjective;
    }

    /** `NewIntVar(lo, hi, name)`: the next variable number. */
    method NewIntVar(lo: int, hi: int) returns (v: nat)
      modifies this`domains
      ensures v == |old(domains)| && domains == old(domains) + [Domain(lo, hi)]
    {
      v := |domains|;
      domains := domains + [Domain(lo, hi)];
    }

    /** `NewBoolVar(name)`: a variable with domain 0..1. */
    method NewBoolVar() returns (v: nat)
      modifies this`domains
      ensures v == |old(domains)| && domains == old(domains) + [Domain(0, 1)]
    {
      v := |domains|;
      domains := domains + [Domain(0, 1)];
    }

    /** `Add(...)`, with `.OnlyEnforceIf(...)` folded into the record. */
    method Add(c: LinearConstraint)
      modifies this`constraints
      ensures constraints == old(constraints) + [c]
    {
      constraints := constraints + [c];
    }

    /** `Maximize(sum(terms))` or `Minimize(sum(terms))`. */
    method SetObjective(o: Objective)
      modifies this`objective
      ensures objective == o
    {
      objective := o;
    }
  }

  /** The solver statuses the scheduler distinguishes. */
  datatype Status = Optimal | Feasible | Infeasible | ModelInvalid | Unknown

  /** `StatusName()`. */
  function StatusName(s: Status): string {
    match s
    case Optimal => "OPTIMAL"
    case Feasible => "FEASIBLE"
    case Infeasible => "INFEASIBLE"
    case ModelInvalid => "MODEL_INVALID"
    case Unknown => "UNKNOWN"
  }

  /** A finished search: its status and, when a solution was found, one value per variable. */
  datatype SolveResponse = SolveResponse(status: Status, values: seq<int>)
}
