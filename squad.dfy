/**
 * The squad rule as direct predicates over a selection of feature rows: the
 * legal squads, the objective, and the positional filter that turns a 0/1
 * pick into the rows it selects.
 */
module Squad {
  import opened Features

  const SquadSize: nat := 15
  const MaxPerClub: nat := 3

  const Goalkeeper: int := 1
  const Defender: int := 2
  const Midfielder: int := 3
  const Forward: int := 4

  /** Default budget: 100.0 million, in tenths. */
  const DefaultBudget: int := 1000

  /** How many players of a position code a squad must hold. */
  function Quota(elementType: int): nat {
    if elementType == Goalkeeper then 2
    else if elementType == Defender then 5
    else if elementType == Midfielder then 5
    else if elementType == Forward then 3
    else 0
  }

  /** The per-player quantities the rule sums: cost, points, a head count,
      and membership of a position or a club. */
  datatype Measure = Cost | Points | Head | OfType(elementType: int) | OfClub(team: int)

  function Weigh(m: Measure, r: FeatureRow): int {
    match m
    case Cost => r.costTenths
    case Points => r.totalPoints
    case Head => 1
    case OfType(t) => if r.elementType == t then 1 else 0
    case OfClub(c) => if r.team == c then 1 else 0
  }

  /** The sum of a measure over the rows of a squad. */
  function Total(s: seq<FeatureRow>, m: Measure): int {
    if s == [] then 0 else Weigh(m, s[0]) + Total(s[1..], m)
  }

  /** The rows whose pick is set, in input order. */
  function Select(rows: seq<FeatureRow>, pick: seq<bool>): (s: seq<FeatureRow>)
    ensures |s| <= |rows|
    ensures forall r :: r in s ==> r in rows
  {
    if rows == [] || pick == [] then []
    else (if pick[0] then [rows[0]] else []) + Select(rows[1..], pick[1..])
  }

  /** The clubs present in a table. */
  function ClubsOf(rows: seq<FeatureRow>): set<int> {
    set r | r in rows :: r.team
  }

  /** A legal squad: within budget, 15 players, the positional quotas, and at
      most three players of any one club. */
  ghost predicate ValidSquad(s: seq<FeatureRow>, budget: int) {
    && Total(s, Cost) <= budget
    && |s| == SquadSize
    && Total(s, OfType(Goalkeeper)) == Quota(Goalkeeper)
    && Total(s, OfType(Defender)) == Quota(Defender)
    && Total(s, OfType(Midfielder)) == Quota(Midfielder)
    && Total(s, OfType(Forward)) == Quota(Forward)
    && forall c :: Total(s, OfClub(c)) <= MaxPerClub
  }

  /** A pick over the table that selects a legal squad. */
  ghost predicate Admissible(rows: seq<FeatureRow>, pick: seq<bool>, budget: int) {
    |pick| == |rows| && ValidSquad(Select(rows, pick), budget)
  }

  /** `a` is `b` with some rows left out and the rest in their order. */
  predicate IsSubsequence(a: seq<FeatureRow>, b: seq<FeatureRow>) {
    if a == [] then true
    else if b == [] then false
    else (a[0] == b[0] && IsSubsequence(a[1..], b[1..])) || IsSubsequence(a, b[1..])
  }

  /** The head count of a squad is its length. */
  lemma {:induction false} HeadCountIsSize(s: seq<FeatureRow>)
    ensures Total(s, Head) == |s|
  {
    if s != [] {
      HeadCountIsSize(s[1..]);
    }
  }

  /** The selection keeps the input's order: it is the table with some rows left out. */
  lemma {:induction false} SelectIsSubsequence(rows: seq<FeatureRow>, pick: seq<bool>)
    requires |pick| == |rows|
    ensures IsSubsequence(Select(rows, pick), rows)
  {
    if rows != [] {
      SelectIsSubsequence(rows[1..], pick[1..]);
      var rest := Select(rows[1..], pick[1..]);
      if pick[0] {
        assert Select(rows, pick) == [rows[0]] + rest;
        assert ([rows[0]] + rest)[1..] == rest;
      } else {
        assert Select(rows, pick) == rest;
      }
    }
  }

  /** No row is selected more often than it occurs, and the selection has one
      row per set pick. */
  lemma {:induction false} SelectCounts(rows: seq<FeatureRow>, pick: seq<bool>)
    requires |pick| == |rows|
    ensures multiset(Select(rows, pick)) <= multiset(rows)
    ensures |Select(rows, pick)| == multiset(pick)[true]
  {
    if rows != [] {
      SelectCounts(rows[1..], pick[1..]);
      var rest := Select(rows[1..], pick[1..]);
      assert rows == [rows[0]] + rows[1..];
      assert pick == [pick[0]] + pick[1..];
      assert multiset(rows) == multiset{rows[0]} + multiset(rows[1..]);
      assert multiset(pick) == multiset{pick[0]} + multiset(pick[1..]);
      if pick[0] {
        assert Select(rows, pick) == [rows[0]] + rest;
      } else {
        assert Select(rows, pick) == rest;
      }
    }
  }

  /** A club with no row in a squad counts zero players there. */
  lemma {:induction false} AbsentClubCountsZero(s: seq<FeatureRow>, c: int)
    requires c !in ClubsOf(s)
    ensures Total(s, OfClub(c)) == 0
  {
    if s != [] {
      assert ClubsOf(s[1..]) <= ClubsOf(s);
      AbsentClubCountsZero(s[1..], c);
    }
  }

  /** The four positional counts never exceed the squad size, and they fill it
      exactly when every player holds one of the four position codes. */
  lemma {:induction false} QuotasCoverSquad(s: seq<FeatureRow>)
    ensures var placed := Total(s, OfType(Goalkeeper)) + Total(s, OfType(Defender))
                        + Total(s, OfType(Midfielder)) + Total(s, OfType(Forward));
      && placed <= |s|
      && (placed == |s| <==> forall i :: 0 <= i < |s| ==> Goalkeeper <= s[i].elementType <= Forward)
  {
    if s != [] {
      QuotasCoverSquad(s[1..]);
      assert forall i :: 1 <= i < |s| ==> s[i] == s[1..][i - 1];
    }
  }

  /** A legal squad has no player outside the four positions, and the quotas
      2 + 5 + 5 + 3 add up to the squad size. */
  lemma ValidSquadPositions(s: seq<FeatureRow>, budget: int)
    requires ValidSquad(s, budget)
    ensures Quota(Goalkeeper) + Quota(Defender) + Quota(Midfielder) + Quota(Forward) == SquadSize
    ensures forall i :: 0 <= i < |s| ==> Goalkeeper <= s[i].elementType <= Forward
  {
    QuotasCoverSquad(s);
  }

  /** No club occurs twice in the list. */
  predicate DistinctClubs(clubs: seq<int>) {
    forall i, j :: 0 <= i < j < |clubs| ==> clubs[i] != clubs[j]
  }

  /** The clubs of a table, each once, in order of last appearance. */
  function ClubList(rows: seq<FeatureRow>): (clubs: seq<int>)
    ensures DistinctClubs(clubs)
    ensures forall c :: c in clubs <==> c in ClubsOf(rows)
  {
    if rows == [] then []
    else
      var rest := ClubList(rows[1..]);
      assert ClubsOf(rows) == {rows[0].team} + ClubsOf(rows[1..]) by {
        assert rows == [rows[0]] + rows[1..];
      }
      if rows[0].team in rest then rest else [rows[0].team] + rest
  }

  lemma {:induction false} DistinctClubsCount(clubs: seq<int>)
    requires DistinctClubs(clubs)
    ensures |set c | c in clubs| == |clubs|
  {
    if clubs != [] {
      DistinctClubsCount(clubs[1..]);
      assert (set c | c in clubs) == {clubs[0]} + (set c | c in clubs[1..]);
      assert clubs[0] !in clubs[1..];
    }
  }

  /** The sum of the per-club counts over a list of clubs. */
  function ClubCountSum(s: seq<FeatureRow>, clubs: seq<int>): int {
    if clubs == [] then 0 else Total(s, OfClub(clubs[0])) + ClubCountSum(s, clubs[1..])
  }

  lemma {:induction false} ClubCountSumOfEmpty(clubs: seq<int>)
    ensures ClubCountSum([], clubs) == 0
  {
    if clubs != [] {
      ClubCountSumOfEmpty(clubs[1..]);
    }
  }

  lemma {:induction false} ClubCountSumCons(s: seq<FeatureRow>, clubs: seq<int>)
    requires s != [] && DistinctClubs(clubs)
    ensures ClubCountSum(s, clubs) == (if s[0].team in clubs then 1 else 0) + ClubCountSum(s[1..], clubs)
  {
    if clubs != [] {
      ClubCountSumCons(s, clubs[1..]);
      assert s[0].team == clubs[0] ==> s[0].team !in clubs[1..];
    }
  }

  /** Counting a squad club by club, over any list of distinct clubs covering
      it, gives the squad size. */
  lemma {:induction false} ClubCountsSumToSize(s: seq<FeatureRow>, clubs: seq<int>)
    requires DistinctClubs(clubs)
    requires forall c :: c in ClubsOf(s) ==> c in clubs
    ensures ClubCountSum(s, clubs) == |s|
  {
    if s == [] {
      ClubCountSumOfEmpty(clubs);
    } else {
      assert s[0] in s;
      assert ClubsOf(s[1..]) <= ClubsOf(s);
      ClubCountSumCons(s, clubs);
      ClubCountsSumToSize(s[1..], clubs);
    }
  }

  lemma {:induction false} ClubCountSumBound(s: seq<FeatureRow>, clubs: seq<int>)
    requires forall c :: Total(s, OfClub(c)) <= MaxPerClub
    ensures ClubCountSum(s, clubs) <= MaxPerClub * |clubs|
  {
    if clubs != [] {
      ClubCountSumBound(s, clubs[1..]);
    }
  }

  /** The club cap forces a legal squad to draw on at least five clubs. */
  lemma AtLeastFiveClubs(s: seq<FeatureRow>, budget: int)
    requires ValidSquad(s, budget)
    ensures |ClubsOf(s)| >= SquadSize / MaxPerClub
  {
    var clubs := ClubList(s);
    ClubCountsSumToSize(s, clubs);
    ClubCountSumBound(s, clubs);
    DistinctClubsCount(clubs);
    assert (set c | c in clubs) == ClubsOf(s);
  }
}
