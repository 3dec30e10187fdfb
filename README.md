# Fantasy squad selection: a Dafny model

This project models the core of a fantasy-football squad picker. The picker has two steps.

- **Feature step** (`engineer_features`). It turns each roster row into a feature row with nine columns: `id`, the two name fields, `element_type`, `team`, `cost_m`, `total_points`, `form` and `next_5_fixt_diff`.
- **Squad optimizer** (`optimize_team`). It builds a 0/1 integer linear program over one variable per player. The program maximises the summed `total_points` subject to five kinds of constraint:
  - the total cost is at most the budget;
  - exactly 15 players are picked;
  - the picks meet the positional quotas of 2 goalkeepers, 5 defenders, 5 midfielders and 3 forwards;
  - no club has more than 3 picked players.

  It then solves the program and returns the feature rows whose id was picked, in input order.

The repository holds two copies of both steps, in `main.py` and `fantasy_football_optimizer.py`. The two `optimize_team` copies are identical, so they are modelled once (`TeamOptimizer.OptimizeTeam`). The two `engineer_features` copies differ only in how they treat `form`, so each is modelled (`Features.EngineerFeatures` and `Features.EngineerFeaturesCoerced`), and lemmas relate them.

Costs and the budget are integer tenths of a million, the unit of the roster's `now_cost`. So `cost_m = now_cost / 10` keeps the raw tenths exactly. The default budget of 100.0 is `Squad.DefaultBudget = 1000`.

Modules:
- `Outcomes`: `Option` and `Result`.
- `Features`: raw rows, feature rows, and both feature steps.
- `Squad`: the squad rule stated directly over the selected rows. It defines `Total` for each measure, `Select`, `ValidSquad` and `Admissible`.
- `Lp`: the integer program.
  - Linear constraints and their satisfaction.
  - The class `Problem`, which the optimizer grows one `model +=` at a time.
  - An exact solver by exhaustive search, `Search`, with `SearchIsOptimal` as its optimality proof.
- `TeamOptimizer`: the optimizer itself.
  - The constraint builders and the club loop.
  - The proof that the program encodes `ValidSquad` exactly.
  - Id extraction and filtering, and `OptimizeTeam`.

The code marks two of its columns as placeholders, and the model keeps them as the code has them:
- The objective is the raw `total_points`, which the code calls a placeholder for predicted points (main.py:61). No fixture-discounted projected value is computed.
- `next_5_fixt_diff` is the constant 0, which the code calls a placeholder for fixture difficulty (main.py:46). The fixtures passed in are ignored.

The model also follows the code on three further points:
- The optimizer never looks at the solver's status, so it has no "infeasible" result.
- Position codes are not checked by the feature step. A row with a code outside 1-4 is simply never part of a legal squad (`Squad.ValidSquadPositions`).
- `main.py` raises on a non-numeric `form` and leaves a missing one as NaN. Only `fantasy_football_optimizer.py` turns both into 0.

## Model

| member | source | states |
|---|---|---|
| `Features.EngineerFeatures` | main.py:37-50 | Fails exactly when some `form` cell is non-numeric, and then reports the first such cell. Otherwise it returns one row per player, in order. Each row carries id, names, position and club unchanged, keeps cost as the raw tenths, and has fixture difficulty 0. Its form is the number, or NaN (None) when the cell is missing. |
| `Features.EngineerFeaturesCoerced` | fantasy_football_optimizer.py:27-35 | Never fails. It returns one row per player, in order, with the same carried columns, cost in raw tenths and fixture difficulty 0. Form is the number, or 0 when the cell is missing or non-numeric. |
| `Features.CopiesAgreeUpToCoercion` | fantasy_football_optimizer.py:30 | When no form is non-numeric, both copies succeed with tables of equal length. The tables agree on every column except form, and the coerced form is the strict form with NaN replaced by 0. |
| `Features.CopiesAgreeOnNumericForms` | main.py:44 | When every form is numeric, the two copies return the same table. |
| `Features.FixturesIgnored` | main.py:47 | The fixtures passed in have no effect on either copy's output. |
| `Features.DroppedColumnsIgnored` | main.py:49-50 | Rows that differ only in the columns the projection drops give the same feature table. |
| `Squad.SelectIsSubsequence` | main.py:91-92 | The selected rows are the table with some rows left out, each row unchanged and in input order. |
| `Squad.SelectCounts` | fantasy_football_optimizer.py:61-62 | No row is selected more often than it occurs in the table, and the selection has exactly one row per set pick. |
| `Squad.HeadCountIsSize` | main.py:77 | The summed head count of a selection is its number of players. |
| `Squad.QuotasCoverSquad` | main.py:80-83 | The four positional counts never exceed the squad size. They fill it exactly when every player has a position code from 1 to 4. |
| `Squad.ValidSquadPositions` | fantasy_football_optimizer.py:49-54 | The quotas 2 + 5 + 5 + 3 add up to 15, and every player of a legal squad is a goalkeeper, defender, midfielder or forward. |
| `Squad.AbsentClubCountsZero` | fantasy_football_optimizer.py:56 | A club with no row in a selection counts zero players there. So capping only the clubs present in the table caps every club. |
| `Squad.ClubList` | main.py:86 | The clubs the cap loop visits: each club of the table exactly once, and nothing else. |
| `Squad.ClubCountsSumToSize` | main.py:85-87 | Over any duplicate-free list of clubs that covers a squad, the per-club counts add up to the squad size. |
| `Squad.ClubCountSumBound` | fantasy_football_optimizer.py:57 | Under the cap of three per club, the per-club counts over a list of clubs add up to at most three times its length. |
| `Squad.AtLeastFiveClubs` | main.py:87 | A legal squad draws on at least five distinct clubs. |
| `Lp.Search` | fantasy_football_optimizer.py:59 | Any assignment the search returns has one value per variable, extends the given prefix and satisfies every constraint. |
| `Lp.SearchIsOptimal` | main.py:89 | The search is exact. If some full assignment extending the prefix is feasible, it returns one, and no feasible extension has a higher objective. |
| `Lp.Problem.constructor` | main.py:67-68 | A new program has one variable per player, no objective and no constraints. |
| `Lp.Problem.SetObjective` | main.py:71 | `model += expression` sets the objective and leaves the constraints unchanged. |
| `Lp.Problem.AddConstraint` | main.py:74 | `model += constraint` appends exactly that constraint and leaves the objective unchanged. |
| `Lp.Problem.Solve` | fantasy_football_optimizer.py:59 | Returns one value per variable. The status is Optimal exactly when a feasible assignment exists. In that case the returned assignment is feasible, and its objective is at least that of every feasible assignment. |
| `TeamOptimizer.DotIsTotal` | main.py:71 | A linear sum of per-player coefficients over the picked variables equals the measure summed over the picked rows. So the objective is the selected players' total points, with no other weighting. |
| `TeamOptimizer.FeasibleAppend` | main.py:86-87 | Adding the club caps after the first six constraints gives a program whose feasible picks are exactly those feasible for both parts. |
| `TeamOptimizer.BaseRulesExact` | main.py:73-83 | The budget, size and four quota constraints (`BudgetCap`, `SizeRule`, `QuotaRule`) hold exactly when the selected rows cost at most the budget, number 15, and hold 2, 5, 5 and 3 players of positions 1 to 4. |
| `TeamOptimizer.ClubCapsExact` | fantasy_football_optimizer.py:56-57 | The per-club caps (`ClubCap` for each club of `Squad.ClubList`) hold exactly when no club, including clubs absent from the table, has more than three selected players. |
| `TeamOptimizer.FormulationIsSquadRule` | fantasy_football_optimizer.py:47-57 | A pick satisfies every constraint of the program exactly when the rows it selects form a legal squad. |
| `TeamOptimizer.SelectedIds` | main.py:91 | An id is among the selected ids exactly when some player with that id has its variable set. |
| `TeamOptimizer.RowsWithIds` | main.py:92 | The id filter returns the table with some rows left out, each row unchanged and in input order. A row is kept exactly when it is in the table and its id is in the id list. |
| `TeamOptimizer.FilterAgreesWithPick` | main.py:92 | Filtering the table by an id list that holds exactly the picked rows' ids returns the picked rows, in order. |
| `TeamOptimizer.ExtractionMatchesPick` | fantasy_football_optimizer.py:61-62 | With unique ids, filtering the table by the selected ids returns exactly the picked rows, in input order and unchanged. |
| `TeamOptimizer.OptimizeTeam` | main.py:55-92 | The result is always the table with some rows left out. When some legal squad exists, the result is a legal squad, and its total points are at least those of every legal squad. |

## Left out

- Fetching the roster and the fixtures over HTTP and decoding the JSON are not modelled, nor is the script's entry point that prints the squad. They are I/O.
- The external branch-and-cut solver is replaced by `Lp.Search`, an exact exhaustive search. The model captures what it returns for a feasible program, not how it gets there.
- On an infeasible program, the values the external solver leaves in the variables are not modelled. The source passes them on unchecked. `TeamOptimizer.OptimizeTeam` then promises only that its result is some subset of the table, in input order. The stand-in search returns no picks in that case.
- On equal objectives, `Lp.Search` keeps the pick with the variable unset. The external solver's tie-break is implementation-defined.
- Floating point is not modelled. Cost, budget and form are integers (tenths). So rounding in the float cost sum `cost_m`, and in a fractional `budget`, is not captured.
- Parsing a `form` string into a number is not modelled. A raw cell is already classified as numeric, missing or non-numeric, and both copies of the feature step share that one classification. In the source the two copies parse with different routines: main.py:44 uses a float cast, and fantasy_football_optimizer.py:30 uses `pd.to_numeric`. These can disagree on unusual strings such as "1_0". `Features.CopiesAgreeOnNumericForms` and `Features.CopiesAgreeUpToCoercion` therefore hold only for cells both routines classify alike.
- Duplicate player ids are not modelled. `TeamOptimizer.OptimizeTeam` requires unique ids, as the roster's ids are. With duplicates, the source's id-keyed dictionaries would merge players.
- The order in which the club loop visits the clubs is fixed to `Squad.ClubList`. The source iterates a set in an unspecified order, and the order of constraints does not affect feasibility.
- Fixture-difficulty averaging and the fixture-discounted projected value are not implemented in the code, so they are not modelled.
- The Streamlit dashboard, its budget slider, the position-name display and the CSV download are presentation code, so they are not modelled.
