# SIR derivative models

This project models the right-hand sides of the SIR epidemic models in the
SIR_model repository, and proves properties about them. Each model is a pure
function. It takes the state (S, I, R) of susceptible, infectious and
recovered individuals and some rate parameters, and returns the derivative
triple (dS/dt, dI/dt, dR/dt) that an ODE solver integrates. The arithmetic
is exact, over Dafny's `real`.

- `Compartments` (compartments.dfy) holds the shared vocabulary: `State`,
  `Derivative`, the totals `Total` and `Sum`, and `Move(src, dst, amount)`.
  `Move` is the derivative of a flow of `amount` per unit time from one
  compartment into another. Most contracts say that a model is a sum of such
  flows.
- `UtilsModels` (utils_models.dfy) models utils/models.py. It covers the
  mass-action `SIR` and `SIRWithVaccination`. The second has three branches:
  drain S into R, suspend vaccination, or move the vaccination flow
  `v = vac_rate * eff * h1 * (1 - h2)`.
- `SirModel` (sir_model.dfy) models sir_model/model.py. It is the same
  formula as `UtilsModels.SIR`, with parameters `(y, t, a, r)`.
- `NormalizedModel` (normalized_model.dfy) models `SIR` in the top-level
  model.py. That version divides the contact term by N = S + I + R.
- `RealArith` and `Wrappers` are helpers: facts about real multiplication,
  and an `Option` type.

Modelling decisions:

- The logistic ramp `heaviside_analytical` (utils/mathematics.py:4-5)
  computes an exponential. The model does not evaluate it. `SIRWithVaccination`
  takes its two values `h1 = hev(t, t_1)` and `h2 = hev(t, t_2)` as inputs
  instead. The lemmas that need bounds assume `0 <= h1, h2 <= 1`. Because of
  this, `t_1` is not a parameter. `t_2` stays, since the drain guard also
  tests `t < t_2`.
- model.py:46-47 divides by N without a guard. At N = 0 the floats give no
  meaningful value. The model returns `None` in that case, and `Some`
  derivative otherwise.
- Vaccination is meant to move mass from S to R, which would leave the total
  population S + I + R unchanged. The code does this in only two of its three
  branches. The drain branch
  (`S - v <= 0` while `t < t_2`, utils/models.py:40-41) sets dS = -S but
  keeps dI = βSI - γI. Its components therefore sum to βSI, not 0. The model
  follows the code. `DrainCase` and `VaccinationConservation` state the exact
  sum in every branch. `DrainBranchIsNotConserving` gives a concrete input whose sum is 1.
- When too few susceptibles are left, the code drops the vaccination term
  (utils/models.py:42-50). It does not cap the term at the available S. The
  model follows the code, and `SuspendedCase` proves that the result in that
  branch equals the base `SIR`.

## Model

| member | source | states |
|---|---|---|
| UtilsModels.SIR | utils/models.py:1-16 | for every input the three components sum to exactly 0 |
| UtilsModels.SIRIsMassAction | utils/models.py:14-15 | the derivative is exactly an S→I flow of βSI plus an I→R flow of γI, so dR = γI |
| UtilsModels.SIRSigns | utils/models.py:14-15 | with nonnegative β, γ, S, I: dS ≤ 0 and dR ≥ 0 |
| UtilsModels.SIREquilibrium | utils/models.py:14-15 | at I = 0 the derivative is zero |
| UtilsModels.SIRIsAutonomous | utils/models.py:1-16 | the result does not depend on t |
| UtilsModels.VaccinationFlowOff | utils/models.py:40-55 | the vaccination term vac_rate·eff·hev(t,t_1)·(1−hev(t,t_2)) is 0 when the start ramp is 0, the end ramp is 1, or vac_rate·eff = 0 |
| UtilsModels.VaccinationFlowBounds | utils/models.py:40-55 | with vac_rate, eff ≥ 0 and ramp values in [0,1], the vaccination term lies in [0, vac_rate·eff] |
| UtilsModels.SIRWithVaccination | utils/models.py:19-57 | in every branch dI equals the base model's dI = βSI − γI |
| UtilsModels.DrainCase | utils/models.py:40-41 | when S − v ≤ 0 and t < t_2: dS = −S, dR = S + γI, and the components sum to βSI, so this branch does not conserve the population |
| UtilsModels.SuspendedCase | utils/models.py:42-50 | when the first guard fails and S − βSI − v ≤ 0, the result equals the base SIR exactly: the vaccination term is dropped, not capped at S |
| UtilsModels.VaccinatingCase | utils/models.py:51-56 | otherwise the result is the base SIR plus an S→R flow of v (dS = −βSI − v, dR = γI + v), the components sum to 0, and S + dS > 0 |
| UtilsModels.VaccinationConservation | utils/models.py:40-56 | the components sum to βSI in the drain branch and to 0 in the other two |
| UtilsModels.ConservedAfterWindow | utils/models.py:40-56 | when t ≥ t_2 the drain branch is never selected and the components sum to 0 |
| UtilsModels.DrainBranchIsNotConserving | utils/models.py:40-41 | with S = I = 1, R = 0, β = 1, γ = 0, vac_rate = 2, eff = 1, t = 0, t_2 = 100 and ramp values h1 = 1, h2 = 0, the components sum to 1 |
| UtilsModels.NoVaccinationIsBaseModel | utils/models.py:40-56 | when the vaccination term is 0 and S > 0, the model equals the base SIR |
| UtilsModels.VaccinationSigns | utils/models.py:40-56 | with nonnegative rates, state and ramp values: dS ≤ 0 and dR ≥ 0 in every branch, and S + dS ≥ 0 in the drain and vaccinating branches |
| SirModel.SIR | sir_model/model.py:5-18 | the derivative is exactly an S→I flow of rSI plus an I→R flow of aI, and its components sum to 0 for every input |
| SirModel.SIRSigns | sir_model/model.py:16-17 | with nonnegative a, r, S, I: dS ≤ 0 and dR ≥ 0 |
| SirModel.SIREquilibrium | sir_model/model.py:16-17 | at I = 0 the derivative is zero |
| SirModel.SIRIsAutonomous | sir_model/model.py:5-18 | the result does not depend on t |
| SirModel.AgreesWithUtilsSIR | sir_model/model.py:16-17 | SIR(y, t, a, r) equals utils/models' SIR(t, y, β = r, γ = a), so r is the infection rate and a the recovery rate, as the docstring at sir_model/model.py:30-31 says |
| NormalizedModel.SIR | model.py:34-48 | there is no value exactly when N = S + I + R is 0; otherwise the components sum to 0 |
| NormalizedModel.NormalizedIsMassAction | model.py:45-47 | for N ≠ 0 the derivative is an S→I flow of βSI/N plus an I→R flow of γI |
| NormalizedModel.MassActionWithScaledRate | model.py:45-47 | for N ≠ 0 the model equals utils/models' mass-action SIR with infection rate β/N |
| NormalizedModel.NormalizedSigns | model.py:45-47 | with N > 0 and nonnegative β, γ, S, I: dS ≤ 0 and dR = γI ≥ 0 |
| NormalizedModel.NormalizedEquilibrium | model.py:45-47 | with N ≠ 0 and I = 0 the derivative is zero |
| NormalizedModel.Homogeneous | model.py:45-47 | scaling S, I, R by any c ≠ 0 keeps N ≠ 0 exactly when it was, and scales every component of the derivative by c |
| NormalizedModel.AgreesWithSirModelOnFractions | model.py:45-47 | on the fractions (S/N, I/N, R/N) the normalised model equals sir_model's SIR with a = γ and r = β |
| NormalizedModel.RescaledFractions | __main__.py:146-155 | the derivative on counts equals N times sir_model's derivative on the fractions, pointwise. This is the identity the normalise, integrate, multiply-by-N scheme of __main__.py:16-30 and sir_model/model.py:38 relies on; integration itself is not modelled |

## Left out

- The ODE solvers: scipy's `odeint` (model.py:108, model.py:260, __main__.py:27, __main__.py:152) is a foreign adaptive solver. `solve_SIR` and `solve_SIR_with_vaccination` (imported at utils/drawing.py:6 and project_plots.py:25) and `find_max_and_argmax` (imported at project_plots.py:6) are not defined in any file that is part of this model. The fixed-step integrator, the delayed immunity-loss lookback and the post-step clamps are therefore not modelled.
- `heaviside_analytical` (utils/mathematics.py:4-5) computes an exponential with steepness 40. Its values enter as the inputs `h1`, `h2`, so the model never derives that the ramp lies in (0, 1). The lemmas assume [0, 1] instead.
- Input validation (utils/validation.py, model.py:270-287, __main__.py:162-179) wraps Python's `int()`/`float()` parsing, which is not visible here. Note that it accepts 0.
- The GUI windows and event loops (utils/gui.py, model.py:115-327, __main__.py:35-222), the plotting and figure export (utils/drawing.py, utils/plots.py, project_plots.py, both `plot_SIR` functions), and the packaging in setup.py contain no model logic.
- Floating-point rounding: the model computes in exact real arithmetic. Conservation and the scaling identities hold exactly here, but only approximately for the Python floats.
