/**
 * optimize_team: builds the 0/1 program of the squad rule one `model +=` at a
 * time (objective, budget, size, four positional quotas, then one cap per
 * club), solves it, and returns the feature rows whose id was picked, in
 * input order. The solver's status is not consulted.
 */
module TeamOptimizer {
  import opened Features
  import opened Squad
  import opened Lp

  /** One coefficient per player: the measure of that player's row. */
  function Coeffs(rows: seq<FeatureRow>, m: Measure): (c: seq<int>)
    ensures |c| == |rows|
    ensures forall i :: 0 <= i < |rows| ==> c[i] == Weigh(m, rows[i])
  {
    seq(|rows|, i requires 0 <= i < |rows| => Weigh(m, rows[i]))
  }

  /** A linear sum over the picked variables is the measure summed over the
      picked rows. */
  lemma {:induction false} DotIsTotal(rows: seq<FeatureRow>, pick: seq<bool>, m: Measure)
    requires |pick| == |rows|
    ensures Dot(Coeffs(rows, m), pick) == Total(Select(rows, pick), m)
  {
    if rows != [] {
      DotIsTotal(rows[1..], pick[1..], m);
      assert Coeffs(rows, m)[1..] == Coeffs(rows[1..], m);
      var rest := Select(rows[1..], pick[1..]);
      if pick[0] {
        assert Select(rows, pick) == [rows[0]] + rest;
        assert ([rows[0]] + rest)[1..] == rest;
      } else {
        assert Select(rows, pick) == rest;
      }
    }
  }

  function BudgetCap(rows: seq<FeatureRow>, budget: int): Constraint {
    Constraint(Coeffs(rows, Cost), AtMost, budget)
  }

  function SizeRule(rows: seq<FeatureRow>): Constraint {
    Constraint(Coeffs(rows, Head), Exactly, SquadSize)
  }

  function QuotaRule(rows: seq<FeatureRow>, elementType: int): Constraint {
    Constraint(Coeffs(rows, OfType(elementType)), Exactly, Quota(elementType))
  }

  function ClubCap(rows: seq<FeatureRow>, club: int): Constraint {
    Constraint(Coeffs(rows, OfClub(club)), AtMost, MaxPerClub)
  }

  function ClubCaps(rows: seq<FeatureRow>, clubs: seq<int>): seq<Constraint> {
    seq(|clubs|, k requires 0 <= k < |clubs| => ClubCap(rows, clubs[k]))
  }

  /** The constraints added before the club loop, in the order they are added. */
  function BaseConstraints(rows: seq<FeatureRow>, budget: int): seq<Constraint> {
    [ BudgetCap(rows, budget), SizeRule(rows),
      QuotaRule(rows, Goalkeeper), QuotaRule(rows, Defender),
      QuotaRule(rows, Midfielder), QuotaRule(rows, Forward) ]
  }

  /** Every constraint of the program, one cap for each club of the table. */
  function TeamConstraints(rows: seq<FeatureRow>, budget: int): seq<Constraint> {
    BaseConstraints(rows, budget) + ClubCaps(rows, ClubList(rows))
  }

  lemma FeasibleAppend(a: seq<Constraint>, b: seq<Constraint>, x: seq<bool>)
    ensures Feasible(a + b, x) <==> Feasible(a, x) && Feasible(b, x)
  {
    if Feasible(a + b, x) {
      forall i | 0 <= i < |b| ensures Satisfies(x, b[i]) {
        assert (a + b)[|a| + i] == b[i];
      }
      forall i | 0 <= i < |a| ensures Satisfies(x, a[i]) {
        assert (a + b)[i] == a[i];
      }
    }
  }

  /** The six constraints added before the club loop hold exactly when the
      selected rows are within budget, fifteen in number and meet the quotas. */
  lemma BaseRulesExact(rows: seq<FeatureRow>, budget: int, pick: seq<bool>)
    requires |pick| == |rows|
    ensures var s := Select(rows, pick);
      Feasible(BaseConstraints(rows, budget), pick) <==>
        && Total(s, Cost) <= budget
        && |s| == SquadSize
        && Total(s, OfType(Goalkeeper)) == Quota(Goalkeeper)
        && Total(s, OfType(Defender)) == Quota(Defender)
        && Total(s, OfType(Midfielder)) == Quota(Midfielder)
        && Total(s, OfType(Forward)) == Quota(Forward)
  {
    var cs := BaseConstraints(rows, budget);
    DotIsTotal(rows, pick, Cost);
    DotIsTotal(rows, pick, Head);
    HeadCountIsSize(Select(rows, pick));
    DotIsTotal(rows, pick, OfType(Goalkeeper));
    DotIsTotal(rows, pick, OfType(Defender));
    DotIsTotal(rows, pick, OfType(Midfielder));
    DotIsTotal(rows, pick, OfType(Forward));
    assert Feasible(cs, pick) <==>
      Satisfies(pick, cs[0]) && Satisfies(pick, cs[1]) && Satisfies(pick, cs[2]) &&
      Satisfies(pick, cs[3]) && Satisfies(pick, cs[4]) && Satisfies(pick, cs[5]);
  }

  /** The caps added by the club loop hold exactly when no club has more than
      three selected players, clubs absent from the table included. */
  lemma ClubCapsExact(rows: seq<FeatureRow>, pick: seq<bool>)
    requires |pick| == |rows|
    ensures var s := Select(rows, pick);
      Feasible(ClubCaps(rows, ClubList(rows)), pick) <==> forall c :: Total(s, OfClub(c)) <= MaxPerClub
  {
    var s := Select(rows, pick);
    var clubs := ClubList(rows);
    var cs := ClubCaps(rows, clubs);
    forall c
      ensures Dot(Coeffs(rows, OfClub(c)), pick) == Total(s, OfClub(c))
    {
      DotIsTotal(rows, pick, OfClub(c));
    }
    if Feasible(cs, pick) {
      forall c ensures Total(s, OfClub(c)) <= MaxPerClub {
        if c in ClubsOf(rows) {
          var k :| 0 <= k < |clubs| && clubs[k] == c;
          assert Satisfies(pick, cs[k]);
        } else {
          assert ClubsOf(s) <= ClubsOf(rows);
          AbsentClubCountsZero(s, c);
        }
      }
    }
  }

  /** The program encodes the squad rule exactly: a pick is feasible if and only
      if the rows it selects form a legal squad. */
  lemma FormulationIsSquadRule(rows: seq<FeatureRow>, budget: int, pick: seq<bool>)
    requires |pick| == |rows|
    ensures Feasible(TeamConstraints(rows, budget), pick) <==> ValidSquad(Select(rows, pick), budget)
  {
    FeasibleAppend(BaseConstraints(rows, budget), ClubCaps(rows, ClubList(rows)), pick);
    BaseRulesExact(rows, budget, pick);
    ClubCapsExact(rows, pick);
  }

  /** Ids are unique in the table. */
  predicate UniqueIds(rows: seq<FeatureRow>) {
    forall i, j :: 0 <= i < j < |rows| ==> rows[i].id != rows[j].id
  }

  /** The ids whose variable is set, in table order. */
  function SelectedIds(rows: seq<FeatureRow>, x: seq<bool>): (ids: seq<int>)
    ensures forall id :: id in ids <==> exists j :: 0 <= j < |rows| && j < |x| && x[j] && rows[j].id == id
  {
    if rows == [] || x == [] then []
    else
      var rest := SelectedIds(rows[1..], x[1..]);
      assert forall j :: 1 <= j < |rows| ==> rows[j] == rows[1..][j - 1];
      if x[0] then [rows[0].id] + rest else rest
  }

  /** `df[df['id'].isin(ids)]`: the rows whose id is in `ids`, unchanged and
      in table order. */
  function RowsWithIds(rows: seq<FeatureRow>, ids: seq<int>): (r: seq<FeatureRow>)
    ensures IsSubsequence(r, rows)
    ensures forall row :: row in r <==> row in rows && row.id in ids
  {
    if rows == [] then []
    else
      var rest := RowsWithIds(rows[1..], ids);
      assert rows == [rows[0]] + rows[1..];
      if rows[0].id in ids then
        assert ([rows[0]] + rest)[1..] == rest;
        [rows[0]] + rest
      else rest
  }

  lemma {:induction false} FilterAgreesWithPick(rows: seq<FeatureRow>, ids: seq<int>, pick: seq<bool>)
    requires |pick| == |rows|
    requires forall i :: 0 <= i < |rows| ==> (rows[i].id in ids <==> pick[i])
    ensures RowsWithIds(rows, ids) == Select(rows, pick)
  {
    if rows != [] {
      FilterAgreesWithPick(rows[1..], ids, pick[1..]);
    }
  }

  /** With unique ids, filtering the table by the picked ids returns exactly the
      picked rows. */
  lemma ExtractionMatchesPick(rows: seq<FeatureRow>, pick: seq<bool>)
    requires UniqueIds(rows) && |pick| == |rows|
    ensures RowsWithIds(rows, SelectedIds(rows, pick)) == Select(rows, pick)
  {
    FilterAgreesWithPick(rows, SelectedIds(rows, pick), pick);
  }

  /**
   * optimize_team. Whatever the solver reports, the result is the table with
   * some rows left out. Whenever a legal squad exists, the result is a legal
   * squad whose total points are at least those of every legal squad.
   */
  method OptimizeTeam(rows: seq<FeatureRow>, budget: int := DefaultBudget) returns (squad: seq<FeatureRow>)
    requires UniqueIds(rows)
    ensures exists pick :: |pick| == |rows| && squad == Select(rows, pick)
    ensures (exists pick :: Admissible(rows, pick, budget)) ==> ValidSquad(squad, budget)
    ensures forall pick :: Admissible(rows, pick, budget) ==>
      Total(Select(rows, pick), Points) <= Total(squad, Points)
  {
    var model := new Problem(|rows|);
    model.SetObjective(Coeffs(rows, Points));
    model.AddConstraint(BudgetCap(rows, budget));
    model.AddConstraint(SizeRule(rows));
    model.AddConstraint(QuotaRule(rows, Goalkeeper));
    model.AddConstraint(QuotaRule(rows, Defender));
    model.AddConstraint(QuotaRule(rows, Midfielder));
    model.AddConstraint(QuotaRule(rows, Forward));

    var clubs := ClubList(rows);
    for k := 0 to |clubs|
      invariant model.objective == Coeffs(rows, Points)
      invariant model.constraints == BaseConstraints(rows, budget) + ClubCaps(rows, clubs[..k])
    {
      model.AddConstraint(ClubCap(rows, clubs[k]));
      assert ClubCaps(rows, clubs[..k + 1]) == ClubCaps(rows, clubs[..k]) + [ClubCap(rows, clubs[k])];
    }
    assert clubs[..|clubs|] == clubs;

    var status, x := model.Solve();
    var selectedIds := SelectedIds(rows, x);
    squad := RowsWithIds(rows, selectedIds);

    ExtractionMatchesPick(rows, x);
    DotIsTotal(rows, x, Points);
    forall pick | Admissible(rows, pick, budget)
      ensures Feasible(model.constraints, pick)
      ensures Total(Select(rows, pick), Points) <= Total(squad, Points)
    {
      FormulationIsSquadRule(rows, budget, pick);
      DotIsTotal(rows, pick, Points);
    }
    if status == Optimal {
      FormulationIsSquadRule(rows, budget, x);
    }
  }
}
