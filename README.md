# Shadow-variable recovery of self-censoring missingness — a Dafny model

The Python script `self_censoring_recovery_small_example.py` estimates missingness
mechanisms that depend on the missing value itself ("self-censoring"). A fully observed
shadow variable `W1` makes these mechanisms identifiable. The script has two parts. It
derives a partially observed dataset from a fully observed one: each unobserved `A` or
`Y` becomes the sentinel `-1`. It also defines shadow-IPW estimating equations whose root
gives the missingness parameters, plus a prediction step that turns parameters into fitted
probabilities of being observed.

This project models:

- **Masking** (`data_generator.dfy`, module `DataGenerator`). The random draws are inputs.
  `GenerateData` builds the full dataset from them unchanged. For the partial dataset it
  copies the `A` and `Y` columns into fresh arrays and overwrites, in place
  (`MaskInPlace`), every entry whose indicator is 0 with the sentinel.
- **The odds-ratio propensity** (`odds_ratio.dfy`, module `OddsRatio`). At level `a` the
  propensity is `b / (b + odds**a * (1 - b))`, where `b` is the baseline probability of
  being observed at level 0. The integer power is written out, including the negative power
  that a sentinel `-1` produces. `expit` is a parameter of type `real -> real`, and the
  only thing assumed of it is `IsProbabilityValued`: every value lies in (0, 1).
- **The shadow-IPW moment** (`shadow_moment.dfy`, module `ShadowMoment`). Each row
  contributes `h * R / p - h`; the moment is the average of the contributions
  (`averages.dfy` models `np.average` as sum divided by length).
- **Both estimating-equation systems and both predictors**. `exposure_model.dfy` holds
  `shadowIpwFunctional_A` and `rootsPrediction_A`, with parameters `(alpha0, gamma)` and
  instruments `W1` and `W1**2`. `outcome_model.dfy` holds `shadowIpwFunctional_Y` and
  `rootsPrediction_Y`, with parameters `(alpha0, alpha1, gamma0, gamma1)` and instruments
  `W1*W2`, `W1*W2+1`, `W1*W2**2` and `W1*W2**2+1`. Both systems share one residual
  function, `ShadowMoment.Residuals`, applied to their own instrument columns and
  propensities.

Numbers are exact reals. Wherever numpy would produce a non-finite value (a negative power
of zero, a division by zero, the mean of an empty column) the model answers `None`.
Because of this, each residual vector is a fixed-length sequence of `Option<real>`, as the
Python list may hold `nan`. The source writes the propensity formula twice: once inside
each functional and once in the matching predictor. The model defines it once, in
`ExposurePropensity` / `OutcomePropensity`. Each functional takes its propensity column
from the predictor, so "the predictor computes the functional's `pRA_1` / `pRY_1`" holds
by construction. The balance lemmas state the residuals in terms of the predictor's output.

## Model

| member | source | states |
|---|---|---|
| `DataGenerator.MaskInPlace` | self_censoring_recovery_small_example.py:47-50 | after the loop the copied column equals `Masked(old column, R)`: the sentinel on every row whose indicator is 0, the old value elsewhere |
| `DataGenerator.GenerateData` | self_censoring_recovery_small_example.py:44-53 | the full dataset is the draws unchanged; the partial dataset has the same row count and the same `W1`, `W2`, `R_A` and `R_Y`; its `A` and `Y` are the masked copies; a full dataset (binary `A`, `Y`, `R_A`, `R_Y`) yields a dataset satisfying `IsPartial` |
| `DataGenerator.MaskedLevels` | self_censoring_recovery_small_example.py:25-50 | masking a binary column by binary indicators yields codes in {-1, 0, 1}; a row holds a binary code iff its indicator is 1 and the sentinel iff it is 0; a masked entry equals the full entry iff the indicator is 1 |
| `OddsRatio.Pow` | self_censoring_recovery_small_example.py:96 | a natural power of a positive base is positive, and a natural power of a nonzero base is nonzero |
| `OddsRatio.OddsPower` | self_censoring_recovery_small_example.py:96 | `odds ** level` is defined iff the level is non-negative or the odds are nonzero; it is 1 at level 0, the odds at level 1, their reciprocal at level -1, and positive whenever the odds are positive |
| `OddsRatio.Quotient` | self_censoring_recovery_small_example.py:96 | at power 1 the quotient `b / (b + t * (1 - b))` is the baseline itself; with a baseline in (0, 1) and a positive power it is defined and lies strictly in (0, 1) |
| `OddsRatio.Propensity` | self_censoring_recovery_small_example.py:96 | at the reference level 0 the propensity is the baseline; with a baseline in (0, 1) and positive odds it is defined and lies strictly in (0, 1) |
| `OddsRatio.OddsRatioMeaning` | self_censoring_recovery_small_example.py:96 | with a baseline in (0, 1) and positive odds, at every level the baseline odds equal `odds**level` times the odds of that level's propensity |
| `OddsRatio.QuotientOdds` | self_censoring_recovery_small_example.py:96 | for a baseline `b` in (0, 1) and a positive power `t`, the quotient `p` is below 1 and the odds of `b` are `t` times the odds of `p` |
| `OddsRatio.OddsRatioBetweenLevels` | self_censoring_recovery_small_example.py:94-96 | the odds parameter is the odds ratio of being observed between level 0 and level 1 |
| `Averages.Average` | self_censoring_recovery_small_example.py:98 | `np.average` is defined iff the column is non-empty, and then the mean times the length is the sum |
| `Averages.AverageZeroIff` | self_censoring_recovery_small_example.py:98 | the average of a non-empty column is zero iff its sum is zero |
| `ShadowMoment.Contribution` | self_censoring_recovery_small_example.py:98 | a row's contribution is defined iff its propensity is defined and nonzero; a row with indicator 0 contributes exactly `-h`, whatever its propensity |
| `ShadowMoment.Contributions` | self_censoring_recovery_small_example.py:98-99 | the contribution column is defined iff every propensity is usable; then it has one entry per row and each entry is that row's contribution |
| `ShadowMoment.Moment` | self_censoring_recovery_small_example.py:98-99 | a moment is defined iff the sample is non-empty and every propensity is usable |
| `ShadowMoment.ContributionsSum` | self_censoring_recovery_small_example.py:98-99 | with 0/1 indicators the contributions sum to the sum of `h / p` over observed rows minus the sum of `h` over all rows |
| `ShadowMoment.MomentIsIpwBalance` | self_censoring_recovery_small_example.py:98-99 | with 0/1 indicators and usable propensities the moment is the instrument's `Imbalance`, (weighted observed total − total) / n |
| `ShadowMoment.MomentAllMasked` | self_censoring_recovery_small_example.py:98-99 | nothing requires an observed row: with every indicator 0 and usable propensities the moment is defined and equals minus the instrument's mean, whatever those usable propensities are |
| `ShadowMoment.MomentVanishesIff` | self_censoring_recovery_small_example.py:98-99 | the moment is zero iff the weighted observed total of the instrument equals its total over all rows |
| `ShadowMoment.MomentIgnoresMaskedPropensities` | self_censoring_recovery_small_example.py:68-71 | propensity columns that agree on every row with `R != 0`, and are usable everywhere, give the same moment |
| `ShadowMoment.Residuals` | self_censoring_recovery_small_example.py:68-73 | one residual per instrument column; each is defined iff the sample is non-empty and every propensity is usable |
| `ShadowMoment.ResidualsAreIpwBalance` | self_censoring_recovery_small_example.py:68-73 | with 0/1 indicators and usable propensities, residual k is the `Imbalance` of instrument k: (weighted observed total − total) / n |
| `ShadowMoment.ResidualsVanishIff` | self_censoring_recovery_small_example.py:68-73 | every residual is zero iff the instruments are `Balanced`: each weighted observed total equals the instrument's total over all rows (both directions) |
| `ExposureModel.RootsPredictionA` | self_censoring_recovery_small_example.py:103-111 | one prediction per row, each the `ExposurePropensity` that also gives `ShadowIpwA` its `pRA_1` (line 96); rows with `A = 0` get `expit(alpha0)`; if expit is probability-valued and `gamma > 0`, every prediction, sentinel rows included, is defined and lies strictly in (0, 1) |
| `ExposureModel.ExposureOddsRatio` | self_censoring_recovery_small_example.py:94-96 | `gamma` is the odds ratio of observing `A` between `A = 0` and `A = 1` |
| `ExposureModel.ExposureInstruments` | self_censoring_recovery_small_example.py:98-99 | there are two instrument columns, each with one entry per row; which columns they are (`W1` and `W1**2`) is the definition, not the contract |
| `ExposureModel.ShadowIpwA` | self_censoring_recovery_small_example.py:85-101 | exactly two residuals, as many as parameters; each is defined iff the sample is non-empty and every prediction of `rootsPrediction_A` is usable |
| `ExposureModel.ExposureResidualsAreIpwBalance` | self_censoring_recovery_small_example.py:95-101 | the residuals are, for `W1` and `W1**2`, (IPW-weighted observed total − total) / n, weighted by exactly the propensities `rootsPrediction_A` returns |
| `ExposureModel.ExposureRootBalances` | self_censoring_recovery_small_example.py:118 | at a root (both residuals zero) the fitted propensities are usable and `Balanced`: they reweight the observed rows to reproduce the sample totals of `W1` and `W1**2` |
| `ExposureModel.ExposureResidualsIgnoreUnobserved` | self_censoring_recovery_small_example.py:96-99 | `A` columns that agree on the rows with `R_A != 0` give the same residuals, when expit is probability-valued and `gamma > 0` |
| `ExposureModel.MaskingPreservesExposureResiduals` | self_censoring_recovery_small_example.py:118 | when expit is probability-valued and `gamma > 0`, the exposure residuals on the masked `A` column equal those on the full `A` column |
| `OutcomeModel.RootsPredictionY` | self_censoring_recovery_small_example.py:75-83 | one prediction per row, each the `OutcomePropensity` that also gives `ShadowIpwY` its `pRY_1` (line 66), built on the baseline `OutcomeBaseline` (`pRY_Y_0`, lines 65 and 80); rows with `Y = 0` get `expit(alpha0 + alpha1 * W2)`; with expit probability-valued and `gamma0 + gamma1 * W2 > 0` on every row, every prediction is defined and lies strictly in (0, 1) |
| `OutcomeModel.OutcomeOddsRatio` | self_censoring_recovery_small_example.py:64-66 | at every `W2`, `gamma0 + gamma1 * W2` is the odds ratio of observing `Y` between `Y = 0` and `Y = 1` |
| `OutcomeModel.Instruments` | self_censoring_recovery_small_example.py:68-71 | there are four instrument columns, each with one entry per row; which columns they are (`W1*W2`, `W1*W2+1`, `W1*W2**2`, `W1*W2**2+1`) is the definition, not the contract |
| `OutcomeModel.ShadowIpwY` | self_censoring_recovery_small_example.py:55-73 | exactly four residuals, as many as parameters; each is defined iff the sample is non-empty and every prediction of `rootsPrediction_Y` is usable |
| `OutcomeModel.OutcomeResidualsAreIpwBalance` | self_censoring_recovery_small_example.py:65-73 | residual k is (IPW-weighted observed total − total) / n of instrument k, weighted by exactly the propensities `rootsPrediction_Y` returns |
| `OutcomeModel.OutcomeRootBalances` | self_censoring_recovery_small_example.py:137 | at a root (all four residuals zero) the fitted propensities are usable and `Balanced`: they reweight the observed rows to reproduce the sample total of every instrument |
| `OutcomeModel.OutcomeResidualsIgnoreUnobserved` | self_censoring_recovery_small_example.py:66-71 | `Y` columns that agree on the rows with `R_Y != 0` give the same residuals, when expit is probability-valued and the odds-ratio term is positive on every row |
| `OutcomeModel.MaskingPreservesOutcomeResiduals` | self_censoring_recovery_small_example.py:137 | when expit is probability-valued and the odds term `gamma0 + gamma1 * W2` is positive on every row, the outcome residuals on the masked `Y` column equal those on the full `Y` column |

## Left out

- Random sampling (`np.random.normal`, `np.random.binomial`, the seed; lines 21-41 and 114). The drawn columns are inputs of `GenerateData`.
- The root finder `scipy.optimize.root` (lines 118 and 137). It is an external solver. The root lemmas take "every residual is zero" as their hypothesis. Convergence tolerances and failure reporting are not modelled.
- The statsmodels logistic-regression benchmark (line 140), and the printing and row filtering of the driver (lines 18-41 and 113-147).
- The `exp` inside `expit`. `expit` is a parameter, and the only thing assumed of it is that its values lie in (0, 1).
- IEEE floating point: rounding, overflow, `inf` and `nan` are not modelled. Numbers are exact reals, and a non-finite value becomes `None`. In two cases numpy stays finite where the model does not. First, when the propensity denominator `b + odds**a * (1 - b)` is zero, numpy gives `pRA_1 = inf` and a finite contribution `-h`; the model treats that row as undefined. The second case is listed under `OddsPower` below.
- Column selection by name and pandas index alignment. The functionals take the selected columns directly. Parameters are records of 2 or 4 reals, not Python lists, so a list of the wrong length (an `IndexError` or ignored extra entries) is not modelled.
- `OddsPower`: a negative power of a zero odds term is `None`. This happens with `gamma = 0`, or `gamma0 + gamma1 * W2 = 0`, on a sentinel row (`A` or `Y` = -1). numpy gives `0.0 ** -1 = inf` there, and then `b / (b + inf * (1 - b)) = 0.0`, so `rootsPrediction_A` / `rootsPrediction_Y` (lines 109 and 81) return a defined 0.0 where `RootsPredictionA` / `RootsPredictionY` return `None`. The functionals are unaffected: on that masked row numpy computes `0 / 0.0 = nan`, and the model gives `None`.
- `RootsPredictionA`, `RootsPredictionY`: the open-interval guarantee is proved only under a positive odds-ratio term, which is also the only case where it is meant to hold. With a non-positive term the predictions may leave (0, 1), as in the source. The model may also leave a prediction undefined where the source gives 0.0 (see `OddsPower` above).

## Notes on the source

- In `shadowIpwFunctional_A`, the docstring says the parameter list has four entries, and the comment at line 94 names `R_Y` and `Y`. The code uses two parameters and the columns `R_A` and `A`. The model follows the code.
- Nothing checks that any row is observed. With every row masked, each residual is minus the instrument's mean whatever the parameters, provided every propensity is usable (`MomentAllMasked`). With `gamma = 0`, or a zero odds term on a masked row, a propensity is not usable and the residuals are `nan` (`None` in the model). With no rows at all the residuals are `nan` (`None` in the model).
