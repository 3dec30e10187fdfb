/**
 * The feature step: each raw player row of the roster becomes one feature row
 * carrying nine columns. Both copies of the step are modelled: the one in
 * main.py, which converts `form` with a strict float cast, and the one in
 * fantasy_football_optimizer.py, which coerces missing or non-numeric `form`
 * to 0.
 *
 * Costs are kept as integer tenths of a million (the roster's own unit), so
 * `cost_m = now_cost / 10` is the identity on tenths and needs no floats.
 * Form values are integers (tenths of a point); float parsing is not modelled.
 */
module Features {
  import opened Outcomes

  /** The raw `form` cell of a roster row. */
  datatype RawForm =
    | Numeric(value: int)      // a cell that parses as a number
    | Missing                  // an absent cell (None / NaN)
    | NonNumeric(text: string) // a cell that does not parse as a number

  /** One row of the roster as delivered by the data source; every column the
      feature step does not keep is in `otherColumns`. */
  datatype RawPlayer = RawPlayer(
    id: int,
    firstName: string,
    secondName: string,
    elementType: int,   // 1 = goalkeeper, 2 = defender, 3 = midfielder, 4 = forward
    team: int,
    nowCost: int,       // tenths of a million
    totalPoints: int,
    form: RawForm,
    otherColumns: map<string, string>)

  /** One fixture of the schedule. The feature step receives these but does not use them. */
  datatype Fixture = Fixture(
    event: Option<int>,
    teamH: int,
    teamA: int,
    teamHDifficulty: int,
    teamADifficulty: int)

  /** One row of the feature table: exactly the nine columns the step keeps. */
  datatype FeatureRow = FeatureRow(
    id: int,
    firstName: string,
    secondName: string,
    elementType: int,
    team: int,
    costTenths: int,        // `cost_m`, in tenths of a million
    totalPoints: int,
    form: Option<int>,      // None is NaN
    next5FixtDiff: int)

  /** The error raised by the strict float cast of main.py. */
  datatype FeatureError = FormNotNumeric(text: string)

  /** The fixture-difficulty column is a constant placeholder. */
  const FixtureDifficultyPlaceholder: int := 0

  /** The columns a feature row carries over from its raw row, with the cost
      kept in tenths and the fixture-difficulty placeholder. */
  predicate Carries(p: RawPlayer, row: FeatureRow) {
    && row.id == p.id
    && row.firstName == p.firstName
    && row.secondName == p.secondName
    && row.elementType == p.elementType
    && row.team == p.team
    && row.costTenths == p.nowCost
    && row.totalPoints == p.totalPoints
    && row.next5FixtDiff == FixtureDifficultyPlaceholder
  }

  function RowWithForm(p: RawPlayer, form: Option<int>): FeatureRow {
    FeatureRow(p.id, p.firstName, p.secondName, p.elementType, p.team,
               p.nowCost, p.totalPoints, form, FixtureDifficultyPlaceholder)
  }

  /** The value of `form.astype(float)` for one cell that does not raise. */
  function StrictForm(f: RawForm): Option<int>
    requires !f.NonNumeric?
  {
    if f.Numeric? then Some(f.value) else None
  }

  /** `to_numeric(form, errors='coerce').fillna(0)` for one cell. */
  function CoercedForm(f: RawForm): int {
    if f.Numeric? then f.value else 0
  }

  /**
   * engineer_features of main.py. The float cast of `form` raises on the first
   * non-numeric cell and turns a missing one into NaN; otherwise the result has
   * one row per player, in order, carrying the kept columns.
   */
  function EngineerFeatures(players: seq<RawPlayer>, fixtures: seq<Fixture>): (r: Result<seq<FeatureRow>, FeatureError>)
    ensures r.Failure? <==> exists i :: 0 <= i < |players| && players[i].form.NonNumeric?
    ensures r.Failure? ==>
      exists i :: 0 <= i < |players| && players[i].form.NonNumeric? &&
        r.error == FormNotNumeric(players[i].form.text) &&
        forall j :: 0 <= j < i ==> !players[j].form.NonNumeric?
    ensures r.Success? ==>
      && |r.value| == |players|
      && forall i :: 0 <= i < |players| ==>
           Carries(players[i], r.value[i]) &&
           r.value[i].form == (if players[i].form.Numeric? then Some(players[i].form.value) else None)
  {
    if players == [] then Success([])
    else
      var p := players[0];
      if p.form.NonNumeric? then Failure(FormNotNumeric(p.form.text))
      else
        match EngineerFeatures(players[1..], fixtures)
        case Failure(e) => Failure(e)
        case Success(rest) => Success([RowWithForm(p, StrictForm(p.form))] + rest)
  }

  /**
   * engineer_features of fantasy_football_optimizer.py: never raises; a missing
   * or non-numeric `form` becomes 0.
   */
  function EngineerFeaturesCoerced(players: seq<RawPlayer>, fixtures: seq<Fixture>): (r: seq<FeatureRow>)
    ensures |r| == |players|
    ensures forall i :: 0 <= i < |players| ==>
      Carries(players[i], r[i]) &&
      r[i].form == Some(if players[i].form.Numeric? then players[i].form.value else 0)
  {
    seq(|players|, i requires 0 <= i < |players| => RowWithForm(players[i], Some(CoercedForm(players[i].form))))
  }

  /** The two copies agree on every roster without non-numeric forms, except that
      a missing form is NaN in the first and 0 in the second. */
  lemma CopiesAgreeUpToCoercion(players: seq<RawPlayer>, fixtures: seq<Fixture>)
    requires forall i :: 0 <= i < |players| ==> !players[i].form.NonNumeric?
    ensures EngineerFeatures(players, fixtures).Success?
    ensures var strict, coerced := EngineerFeatures(players, fixtures).value, EngineerFeaturesCoerced(players, fixtures);
      && |strict| == |coerced|
      && forall i :: 0 <= i < |strict| ==>
           strict[i].(form := coerced[i].form) == coerced[i] &&
           coerced[i].form == Some(strict[i].form.GetOr(0))
  {
  }

  /** Without missing forms the two copies give the same table. */
  lemma CopiesAgreeOnNumericForms(players: seq<RawPlayer>, fixtures: seq<Fixture>)
    requires forall i :: 0 <= i < |players| ==> players[i].form.Numeric?
    ensures EngineerFeatures(players, fixtures) == Success(EngineerFeaturesCoerced(players, fixtures))
  {
    var strict, coerced := EngineerFeatures(players, fixtures).value, EngineerFeaturesCoerced(players, fixtures);
    assert forall i :: 0 <= i < |players| ==> strict[i] == coerced[i];
    assert strict == coerced;
  }

  /** The schedule passed in has no effect on either copy. */
  lemma {:induction false} FixturesIgnored(players: seq<RawPlayer>, f1: seq<Fixture>, f2: seq<Fixture>)
    ensures EngineerFeatures(players, f1) == EngineerFeatures(players, f2)
    ensures EngineerFeaturesCoerced(players, f1) == EngineerFeaturesCoerced(players, f2)
  {
    if players != [] {
      FixturesIgnored(players[1..], f1, f2);
    }
  }

  /** Rows that differ only in the columns the projection drops give the same table. */
  lemma {:induction false} DroppedColumnsIgnored(players: seq<RawPlayer>, others: seq<RawPlayer>, fixtures: seq<Fixture>)
    requires |others| == |players|
    requires forall i :: 0 <= i < |players| ==> others[i] == players[i].(otherColumns := others[i].otherColumns)
    ensures EngineerFeatures(others, fixtures) == EngineerFeatures(players, fixtures)
    ensures EngineerFeaturesCoerced(others, fixtures) == EngineerFeaturesCoerced(players, fixtures)
  {
    if players != [] {
      DroppedColumnsIgnored(players[1..], others[1..], fixtures);
    }
  }
}
