# QENSmodels in Dafny

A model of the QENSmodels library: the analytic line shapes and the
dynamic structure factors S(q, ω) used to fit quasi-elastic neutron
scattering spectra. A shape (`delta`, `lorentzian`, `gaussian`,
`background_polynomials`) maps an energy grid `w` to a profile. A
physical model has two parts:

- A width provider (`hwhm…`) validates its parameters and returns, for
  each momentum transfer `q`, the half widths of its Lorentzians, the
  elastic incoherent structure factor (EISF) and the quasi-elastic
  weights (QISF).
- A synthesiser (`sqw…`) fills a `(q.size, w.size)` buffer row by row:
  the EISF times `delta`, plus each weight times a `lorentzian`. When
  there is a single `q` the synthesiser flattens the buffer to one row.

Each Python module becomes one Dafny module.

| Dafny file | module | Python module |
|---|---|---|
| `outcome.dfy` | `Outcome` | the exceptions raised (`ValueError`, `TypeError`, `IndexError`, `ZeroDivisionError`) as a `Result` |
| `special.dfy` | `Special` | numpy and scipy functions as the fields of a `Libm` value; the identities the proofs use are gathered in `Sound` |
| `grids.dfy` | `Grids` | arrays, per-q parameters that are a number or a list, the reshaped spectrum |
| `spectra.dfy` | `Spectra` | the row built by every synthesiser: elastic delta plus weighted Lorentzians |
| `delta.dfy` | `DeltaShape` | `delta.py` |
| `lorentzian.dfy` | `LorentzianShape` | `lorentzian.py` |
| `gaussian.dfy` | `GaussianShape` | `gaussian.py` |
| `background.dfy` | `Background` | `background_polynomials.py` |
| `brownian.dfy` | `BrownianDiffusion` | `brownian_translational_diffusion.py` |
| `jump.dfy` | `JumpDiffusion` | `jump_translational_diffusion.py` |
| `chudley.dfy` | `ChudleyElliott` | `chudley_elliott_diffusion.py` |
| `gaussian3d.dfy` | `GaussianModel3D` | `gaussian_model_3d.py` |
| `rotational.dfy` | `RotationalDiffusion` | `isotropic_rotational_diffusion.py` |
| `equivalent_sites.dfy` | `EquivalentSites` | `equivalent_sites_circle.py` |
| `log_norm.dfy` | `LogNormSites` | `jump_sites_log_norm_dist.py` |
| `delta_lorentz.dfy` | `DeltaLorentz` | `delta_lorentz.py` |
| `delta_two_lorentz.dfy` | `DeltaTwoLorentz` | `delta_two_lorentz.py` |
| `water.dfy` | `WaterTeixeira` | `water_teixeira.py` |

Modelling conventions:

- **Numbers.** Numbers are `real`. The transcendental functions (`np.exp`,
  `np.sin`, `np.sinc`, `spherical_jn`, …) are not computed: every model
  takes a `Libm` value holding them. A lemma that needs an identity of
  these functions (`exp(0) = 1`, `log(exp x) = x`, `sin(π − x) = sin x`,
  `sinc(0) = 1`, the discrete cosine sum over a full period) requires
  `Sound(m)`.
- **Loops and buffers.** Code that fills arrays in loops is a `method`
  over Dafny arrays, proved equal to a specification function:
  - the `sqw` buffers are arrays of rows, because the source writes whole
    rows;
  - the provider tables (`al`, `jl`, `isf`, `qisf`) are `array2` and
    `array3`, because the source writes them column by column.

  The shapes and the per-q formulas are functions, and the properties are
  lemmas about those functions.
- **Errors.** Every `raise` is an `Err` result, and the contracts state
  which check fails first.
- **Per-q parameters.** A per-q parameter that the source subscripts
  (`A0[i]`, `hwhm1[i]`) is an `ArrayLike`: a bare number or a list.
  Subscripting a number raises `TypeError`. Subscripting past the end
  raises `IndexError`.

## Model

| member | source | states |
|---|---|---|
| DeltaShape.NearestIndex | QENSmodels/delta.py:77 | the index chosen is a nearest point to `center`, and no earlier point is as near (argmin keeps the first of equal distances) |
| DeltaShape.FirstNearestUnique | QENSmodels/delta.py:77 | there is only one first nearest index, so the peak cell is well defined |
| DeltaShape.SpacingSign | QENSmodels/delta.py:78-81 | the spacing dx is never negative, and it is zero exactly on a grid of several identical points |
| DeltaShape.SpacingFormula | QENSmodels/delta.py:78-81 | dx is 1 for a one-point grid; otherwise dx·(len − 1) = max − min |
| DeltaShape.Delta | QENSmodels/delta.py:66-85 | the zero buffer with scale/dx written at the first nearest index (when `center` is in range) is the delta profile of `x`; a bare number is read as a one-point grid |
| DeltaShape.DeltaPlacement | QENSmodels/delta.py:73-82 | with `center` in [min x, max x] the first nearest cell holds scale/dx and every other cell is 0; outside that range the profile is all zeros |
| DeltaShape.DeltaOutOfRange | QENSmodels/delta.py:73-85 | an empty grid, or a centre outside the grid, gives only zeros |
| DeltaShape.PeakArea | QENSmodels/delta.py:79-82 | peak value times spacing is `scale`: the integrated intensity of the impulse is `scale` |
| DeltaShape.DeltaSum | QENSmodels/delta.py:71-82 | the profile sums to the peak value when `center` is in range, and to 0 otherwise |
| DeltaShape.DeltaOfScalar | QENSmodels/delta.py:66-67 | for a bare number x the result is [scale] when center = x, and [0] otherwise |
| DeltaShape.DeltaKnownValues | QENSmodels/delta.py:32-36 | the two documented examples: [1, 0, 0] and [0, 0, 5, 0, 0] |
| DeltaShape.DeltaScaleLinear | QENSmodels/delta.py:82 | the profile is linear in `scale` on any grid whose spacing is not zero |
| DeltaShape.DeltaProfile | QENSmodels/delta.py:71-82 | the value `delta` returns for a list x: all zeros, except that when `center` lies in [min x, max x] the first nearest cell holds scale/dx; one value per point of x |
| DeltaShape.DeltaOfArray | QENSmodels/delta.py:66-85 | the value `delta` returns for an argument as written: a list gives its profile, and a bare number gives [0] of length 1, because the 0-d array makes the scan fail inside the try and the finally clause returns the zero buffer |
| LorentzianShape.LorentzianZeroWidth | QENSmodels/lorentzian.py:82-83 | a zero hwhm gives the delta profile |
| LorentzianShape.LorentzianEquation | QENSmodels/lorentzian.py:85 | every value v satisfies v·((x − center)² + hwhm²)·π = scale·hwhm |
| LorentzianShape.LorentzValueEquation | QENSmodels/lorentzian.py:85 | the same equation for a single point |
| LorentzianShape.LorentzianSymmetric | QENSmodels/lorentzian.py:85 | the line is symmetric about `center` |
| LorentzianShape.LorentzianPeak | QENSmodels/lorentzian.py:85 | the value at the centre is scale/(π·hwhm) |
| LorentzianShape.LorentzianAtCenter | QENSmodels/lorentzian.py:80-85 | on the grid [center] the result is [scale/(π·hwhm)] |
| LorentzianShape.LorentzianPositive | QENSmodels/lorentzian.py:85 | with scale > 0 and hwhm > 0 every value is positive |
| LorentzianShape.LorentzianScaleLinear | QENSmodels/lorentzian.py:82-85 | both branches are linear in `scale`, on any grid whose spacing is not zero |
| LorentzianShape.LineScaleLinear | QENSmodels/lorentzian.py:85 | the non-zero-width branch is linear in `scale` on every grid |
| LorentzianShape.ScalarZeroWidthLost | QENSmodels/lorentzian.py:80-85 | as written, a bare x equal to `center` with hwhm = 0 gives [0], while delta of that x gives [scale] |
| LorentzianShape.LorentzianOfZeroWidth | QENSmodels/lorentzian.py:80-85 | corrected: with hwhm = 0 a bare number or a list gives what delta gives for it |
| LorentzianShape.Lorentzian | QENSmodels/lorentzian.py:80-85 | lorentzian on a list: the delta profile when hwhm = 0, otherwise scale·hwhm/(π·((x − center)² + hwhm²)) at every point; one value per point |
| LorentzianShape.LorentzianAsWritten | QENSmodels/lorentzian.py:80-85 | the function as written, where a bare x with hwhm = 0 reaches delta as a 0-d array; one value per point, and it agrees with the corrected LorentzianOf on every list and for every non-zero hwhm |
| LorentzianShape.LorentzianOf | QENSmodels/lorentzian.py:80-85 | corrected: a bare x is read as the one-point grid [x] on both branches; one value per point |
| GaussianShape.GaussianZeroWidth | QENSmodels/gaussian.py:83-84 | a zero sigma gives the delta profile |
| GaussianShape.GaussValueEquation | QENSmodels/gaussian.py:86 | value·sigma·√(2π) = scale·exp(−(x − center)²/(2σ²)) |
| GaussianShape.GaussianSymmetric | QENSmodels/gaussian.py:86 | the line is symmetric about `center` |
| GaussianShape.GaussianOddInSigma | QENSmodels/gaussian.py:86 | a negative sigma flips the sign of every value, because the formula divides by sigma and not by its absolute value |
| GaussianShape.GaussianPeak | QENSmodels/gaussian.py:72 | the height at the centre is scale/sigma/√(2π) |
| GaussianShape.GaussianAtCenter | QENSmodels/gaussian.py:81-86 | on the grid [center] the result is [scale/(sigma·√(2π))] |
| GaussianShape.GaussianPositive | QENSmodels/gaussian.py:86 | with scale > 0 and sigma > 0 every value is positive |
| GaussianShape.GaussianScaleLinear | QENSmodels/gaussian.py:83-86 | both branches are linear in `scale`, on any grid whose spacing is not zero |
| GaussianShape.LineScaleLinear | QENSmodels/gaussian.py:86 | the non-zero-width branch is linear in `scale` on every grid |
| GaussianShape.ScalarZeroWidthLost | QENSmodels/gaussian.py:81-86 | as written, a bare x equal to `center` with sigma = 0 gives [0], while delta of that x gives [scale] |
| GaussianShape.GaussianOfZeroWidth | QENSmodels/gaussian.py:81-86 | corrected: with sigma = 0 a bare number or a list gives what delta gives for it |
| GaussianShape.Gaussian | QENSmodels/gaussian.py:81-86 | gaussian on a list: the delta profile when sigma = 0, otherwise scale·exp(−(x − center)²/(2σ²))/(σ·√(2π)) at every point; one value per point |
| GaussianShape.GaussianAsWritten | QENSmodels/gaussian.py:81-86 | the function as written, where a bare x with sigma = 0 reaches delta as a 0-d array; one value per point, and it agrees with the corrected GaussianOf on every list and for every non-zero sigma |
| GaussianShape.GaussianOf | QENSmodels/gaussian.py:81-86 | corrected: a bare x is read as the one-point grid [x] on both branches; one value per point |
| Background.HornerIsPowerSum | QENSmodels/background_polynomials.py:49 | Horner evaluation of the ascending coefficients equals Σ c_k·x^k |
| Background.BackgroundSpec | QENSmodels/background_polynomials.py:43-56 | the argument is accepted iff it is a number or a non-empty list of numbers; then each point x gives Σ c_k·x^k; otherwise `ValueError` |
| Background.BackgroundConstant | QENSmodels/background_polynomials.py:51-53 | a bare number c gives c at every point, and the default 0 gives zeros |
| Background.BackgroundRejectsNonNumbers | QENSmodels/background_polynomials.py:46-56 | a list holding anything that is not a number raises `ValueError` |
| Background.BackgroundKnownValues | QENSmodels/background_polynomials.py:29-36 | the three documented examples: 1, 11 and [6, 17, 34] |
| Background.BackgroundPolynomials | QENSmodels/background_polynomials.py:43-56 | a non-empty list of numbers or a bare number c is evaluated as the polynomial Σ c_k·x^k at each point, one value per point; an empty list, a list holding a non-number, or any other argument gives `ValueError` |
| BrownianDiffusion.Hwhm | QENSmodels/brownian_translational_diffusion.py:64-82 | Ok iff D > 0, otherwise `ValueError`; hwhm = D·q², EISF 0 and QISF 1 at every q |
| BrownianDiffusion.WidthSign | QENSmodels/brownian_translational_diffusion.py:70 | with D > 0 the width is non-negative, and zero exactly at q = 0 |
| BrownianDiffusion.HwhmKnownValues | QENSmodels/brownian_translational_diffusion.py:49-60 | the documented example at q = [1, 2], D = 1 |
| BrownianDiffusion.Sqw | QENSmodels/brownian_translational_diffusion.py:175-195 | Ok iff D > 0; the spectrum has q.size rows of w.size values, flat iff there is one q; row i is the Lorentzian of width D·q[i]² |
| JumpDiffusion.Hwhm | QENSmodels/jump_translational_diffusion.py:64-78 | D is checked before resTime; hwhm = D·q²/(1 + resTime·D·q²), EISF 0 and QISF 1 |
| JumpDiffusion.ZeroResidenceIsBrownian | QENSmodels/jump_translational_diffusion.py:74 | with resTime = 0 the provider returns the Brownian components |
| JumpDiffusion.WidthBounds | QENSmodels/jump_translational_diffusion.py:74 | 0 ≤ width ≤ D·q², and the width stays below 1/resTime when resTime > 0 |
| JumpDiffusion.HwhmKnownValues | QENSmodels/jump_translational_diffusion.py:47-52 | the documented example at q = [1, 2], D = 0.5, resTime = 1.5 |
| JumpDiffusion.Sqw | QENSmodels/jump_translational_diffusion.py:173-193 | errors as in the provider; shaped spectrum; row i is the Lorentzian of the jump width at q[i] |
| ChudleyElliott.Hwhm | QENSmodels/chudley_elliott_diffusion.py:53-69 | D is checked before L; hwhm = 6D(1 − sinc(qL/π))/L², EISF 0 and QISF 1 |
| ChudleyElliott.WidthAtZero | QENSmodels/chudley_elliott_diffusion.py:63 | the width is 0 at q = 0 |
| ChudleyElliott.WidthEquation | QENSmodels/chudley_elliott_diffusion.py:63 | width·L² = 6D(1 − sinc(qL/π)), and the width is positive iff sinc(qL/π) < 1 |
| ChudleyElliott.Sqw | QENSmodels/chudley_elliott_diffusion.py:159-179 | errors as in the provider; shaped spectrum; row i is the Lorentzian of the Chudley-Elliott width at q[i] |
| GaussianModel3D.PathsAgree | QENSmodels/gaussian_model_3d.py:76-90 | the single-q branch and the list branch compute the same weight for every order and argument |
| GaussianModel3D.PoissonNonNegative | QENSmodels/gaussian_model_3d.py:79-90 | every weight exp(−a)·aⁱ/i! is non-negative, and positive when a > 0 |
| GaussianModel3D.PoissonRecurrence | QENSmodels/gaussian_model_3d.py:89 | weight i + 1 is weight i times a/(i + 1) |
| GaussianModel3D.EisfLog | QENSmodels/gaussian_model_3d.py:86-92 | for q²·σ² > 0 the EISF is positive and its logarithm is −q²·σ² |
| GaussianModel3D.AtZeroArgument | QENSmodels/gaussian_model_3d.py:78-90 | where q²·σ² ≤ 0 the EISF is 1 and every QISF is 0 |
| GaussianModel3D.WidthsEquallySpaced | QENSmodels/gaussian_model_3d.py:94-95 | width i is i times width 1, and is positive for i > 0 |
| GaussianModel3D.RowAtZeroMomentum | QENSmodels/gaussian_model_3d.py:207-213 | at q = 0 the row is the delta profile |
| GaussianModel3D.PoissonTable | QENSmodels/gaussian_model_3d.py:70-90 | the filled `al` table holds weight l of arg[k] in cell (k, l) |
| GaussianModel3D.Hwhm | QENSmodels/gaussian_model_3d.py:60-98 | D is checked before variance_ux; the components are the 100 widths, the EISF and the QISF of the specification functions |
| GaussianModel3D.Sqw | QENSmodels/gaussian_model_3d.py:193-220 | errors as in the provider; shaped spectrum; row i is EISF·delta + Σ_j QISF_j·lorentzian(width_j) |
| GaussianModel3D.Row | QENSmodels/gaussian_model_3d.py:207-213 | row k: eisf[k]·delta + Σ_{i≥1} qisf[k, i]·lorentzian(hwhm[k, i]); one value per energy point |
| RotationalDiffusion.WidthsTable | QENSmodels/isotropic_rotational_diffusion.py:94 | every row of widths is [0, 2DR, 6DR, 12DR, 20DR, 30DR], i.e. l(l + 1)·DR |
| RotationalDiffusion.AtZeroArgument | QENSmodels/isotropic_rotational_diffusion.py:88-103 | where q·radius = 0 the EISF is 1 and every QISF is 0 |
| RotationalDiffusion.QisfNonNegative | QENSmodels/isotropic_rotational_diffusion.py:101-103 | the EISF is non-negative, QISF_0 is 0, and every QISF is non-negative |
| RotationalDiffusion.RowAtZeroArgument | QENSmodels/isotropic_rotational_diffusion.py:209-213 | where q·radius = 0 the row is the delta profile |
| RotationalDiffusion.Hwhm | QENSmodels/isotropic_rotational_diffusion.py:73-104 | radius is checked before DR; the filled tables equal the widths, EISF and QISF functions |
| RotationalDiffusion.RowFromComponents | QENSmodels/isotropic_rotational_diffusion.py:210-213 | the inner loop over the provider's components builds the row of the specification |
| RotationalDiffusion.Sqw | QENSmodels/isotropic_rotational_diffusion.py:195-220 | errors as in the provider; shaped spectrum; row i is EISF·delta + Σ_{l≥1} QISF_l·lorentzian(l(l + 1)·DR) |
| RotationalDiffusion.Row | QENSmodels/isotropic_rotational_diffusion.py:209-213 | row k: eisf[k]·delta + Σ_{l=1..5} qisf[k, l]·lorentzian(l(l+1)·DR); one value per energy point |
| EquivalentSites.Sites | QENSmodels/equivalent_sites_circle.py:63-79 | validation order radius, resTime, Nsites; resTime = 0 then fails with `ZeroDivisionError`; otherwise the site count is the integer part of Nsites, at least 2 |
| EquivalentSites.WidthAtFirstSite | QENSmodels/equivalent_sites_circle.py:79 | site 0 has width 0 |
| EquivalentSites.WidthsNonNegative | QENSmodels/equivalent_sites_circle.py:79 | with resTime > 0 every width is non-negative |
| EquivalentSites.WidthsSymmetric | QENSmodels/equivalent_sites_circle.py:79 | width i equals width N − i |
| EquivalentSites.BesselAtFirstSite | QENSmodels/equivalent_sites_circle.py:83-89 | the jump to site 0 has length 0, so its sinc is 1 |
| EquivalentSites.IsfRowSum | QENSmodels/equivalent_sites_circle.py:91-95 | when the first sinc is 1, the N structure factors of a q sum to 1 |
| EquivalentSites.Normalised | QENSmodels/equivalent_sites_circle.py:91-98 | EISF + Σ QISF = 1 at every q |
| EquivalentSites.AtZeroMomentum | QENSmodels/equivalent_sites_circle.py:86-98 | at q = 0 the EISF is 1 and the QISF sum to 0 |
| EquivalentSites.SphBesselTable | QENSmodels/equivalent_sites_circle.py:86-89 | the table holds sin(QR)/QR where QR ≠ 0 and 1 where QR = 0 |
| EquivalentSites.AddWeightedColumn | QENSmodels/equivalent_sites_circle.py:94 | one step of the inner loop adds sphBessel[:, j]·cos(2ijπ/N) to column i and changes nothing else |
| EquivalentSites.FillIsfColumn | QENSmodels/equivalent_sites_circle.py:93-95 | the inner loop and the division by N leave column i equal to the specification's structure factor i |
| EquivalentSites.Hwhm | QENSmodels/equivalent_sites_circle.py:61-100 | errors as in `Sites`; the components are the width rows, the EISF and the QISF of the specification functions |
| EquivalentSites.Sqw | QENSmodels/equivalent_sites_circle.py:205-233 | errors as in `Sites`; shaped spectrum; row i is EISF·delta + Σ_j QISF_j·lorentzian(hwhm_{j+1}) |
| EquivalentSites.Row | QENSmodels/equivalent_sites_circle.py:220-226 | row k: eisf[k]·delta + Σ_{j<N−1} qisf[k, j]·lorentzian(hwhm[j + 1]); one value per energy point |
| LogNormSites.Checked | QENSmodels/jump_sites_log_norm_dist.py:65-83 | validation order radius, resTime, Nsites, sigma; then the equivalent-sites provider (and its `ZeroDivisionError`) decides |
| LogNormSites.RatioAtMiddle | QENSmodels/jump_sites_log_norm_dist.py:92-96 | the middle sample has log ratio 0, i.e. ratio 1 |
| LogNormSites.LogRatioSymmetric | QENSmodels/jump_sites_log_norm_dist.py:92-96 | the log ratios are antisymmetric about the middle sample |
| LogNormSites.WeightsSymmetric | QENSmodels/jump_sites_log_norm_dist.py:100-101 | the normalised weights are symmetric about the middle sample |
| LogNormSites.NormaliseSumsToOne | QENSmodels/jump_sites_log_norm_dist.py:101 | dividing positive values by their sum gives positive values that sum to 1 |
| LogNormSites.WeightsNormalised | QENSmodels/jump_sites_log_norm_dist.py:100-101 | the weights gi are positive and sum to 1 |
| LogNormSites.MiddleSample | QENSmodels/jump_sites_log_norm_dist.py:104-108 | the middle sample of every spread width is the width of the equivalent-sites model |
| LogNormSites.SpreadWeightKept | QENSmodels/jump_sites_log_norm_dist.py:111-115 | the samples of each spread QISF sum to that site's QISF |
| LogNormSites.Normalised | QENSmodels/jump_sites_log_norm_dist.py:82-117 | EISF + Σ of every spread QISF = 1 at every q |
| LogNormSites.QisfTable | QENSmodels/jump_sites_log_norm_dist.py:111-115 | the triple loop fills qisf[q, site, l] = qisf_equiv[q, site]·gi[l] |
| LogNormSites.HwhmTable | QENSmodels/jump_sites_log_norm_dist.py:104-108 | the double loop fills hwhm[q, site, :] = hwhm_equiv[q, site]·ratio |
| LogNormSites.Hwhm | QENSmodels/jump_sites_log_norm_dist.py:65-117 | errors as in `Checked`; the components are the spread widths, the equivalent-sites EISF and the spread QISF |
| LogNormSites.DistributedRow | QENSmodels/jump_sites_log_norm_dist.py:252-261 | the two inner loops add every sample of every site in turn, giving the row over the flattened weights and widths |
| LogNormSites.RowForQ | QENSmodels/jump_sites_log_norm_dist.py:250-261 | row i uses the widths of sites 1..N − 1 only |
| LogNormSites.Rows | QENSmodels/jump_sites_log_norm_dist.py:250-261 | the per-q loop fills every row of `sqw` |
| LogNormSites.Sqw | QENSmodels/jump_sites_log_norm_dist.py:232-268 | errors as in `Checked`; shaped spectrum; row i is EISF·delta + Σ_j Σ_k QISF_jk·lorentzian(hwhm_{j+1,k}) |
| LogNormSites.Row | QENSmodels/jump_sites_log_norm_dist.py:250-261 | row k: eisf[k]·delta + Σ_j Σ_s qisf[k, j, s]·lorentzian(hwhm[k, j + 1, s]) over the sites and the log-normal samples; one value per energy point |
| DeltaLorentz.RowMixture | QENSmodels/delta_lorentz.py:84-89 | the row is A0·delta + (1 − A0)·lorentzian(hwhm) |
| DeltaLorentz.RowImmobile | QENSmodels/delta_lorentz.py:84-89 | with A0 = 1 the row is the delta profile |
| DeltaLorentz.RowMobile | QENSmodels/delta_lorentz.py:84-89 | with A0 = 0 the row is the Lorentzian |
| DeltaLorentz.AllFractions | QENSmodels/delta_lorentz.py:78 | true iff every item of A0 lies in [0, 1] |
| DeltaLorentz.RowsPerQ | QENSmodels/delta_lorentz.py:82-96 | the loop succeeds iff A0 and hwhm are lists of at least q.size items; otherwise the first failed read gives `TypeError` or `IndexError`; row i uses A0[i] and hwhm[i] |
| DeltaLorentz.SeveralQ | QENSmodels/delta_lorentz.py:75-96 | a bare A0 is `TypeError`; an A0 item outside [0, 1] is `ValueError`; otherwise the loop decides |
| DeltaLorentz.SingleQ | QENSmodels/delta_lorentz.py:97-103 | a list A0 is `TypeError` (it cannot be compared with 1); an A0 outside [0, 1] is `ValueError`; no q is `IndexError`; a list hwhm is `TypeError`; otherwise one row |
| DeltaLorentz.Sqw | QENSmodels/delta_lorentz.py:66-110 | the union of both paths; shaped spectrum whose row i mixes A0[i] and hwhm[i] |
| DeltaLorentz.Row | QENSmodels/delta_lorentz.py:84-89 | row of one q: A0·delta + (1 − A0)·lorentzian(hwhm); one value per energy point |
| DeltaTwoLorentz.RowMixture | QENSmodels/delta_two_lorentz.py:106-110 | the row is A0·delta + A1·lorentzian(hwhm1) + (1 − A0 − A1)·lorentzian(hwhm2) |
| DeltaTwoLorentz.RowEqualWidths | QENSmodels/delta_two_lorentz.py:106-110 | with hwhm1 = hwhm2 the row is the `sqwDeltaLorentz` row |
| DeltaTwoLorentz.RowSecondLineVanishes | QENSmodels/delta_two_lorentz.py:106-110 | with A1 = 1 − A0 the row is the `sqwDeltaLorentz` row with hwhm1 |
| DeltaTwoLorentz.RowKnownValues | QENSmodels/delta_two_lorentz.py:54-66 | the documented first example: each row is [1, 0, 0] |
| DeltaTwoLorentz.BuildTwoLineRow | QENSmodels/delta_two_lorentz.py:118-128 | the three assignments build the row of the specification |
| DeltaTwoLorentz.RowAt | QENSmodels/delta_two_lorentz.py:105-110 | reading A0[i], A1[i], hwhm1[i] and hwhm2[i] succeeds iff all four are lists longer than i; otherwise the first failing parameter decides the error |
| DeltaTwoLorentz.RowsPerQ | QENSmodels/delta_two_lorentz.py:103-116 | the loop succeeds iff all four parameters are lists of at least q.size items; otherwise the first failed read's error |
| DeltaTwoLorentz.SeveralQ | QENSmodels/delta_two_lorentz.py:103-116 | the same in terms of the parameters' values |
| DeltaTwoLorentz.SingleQ | QENSmodels/delta_two_lorentz.py:117-128 | no q is `IndexError`; a list parameter is `TypeError`; otherwise one row |
| DeltaTwoLorentz.Sqw | QENSmodels/delta_two_lorentz.py:95-135 | the union of both paths; shaped spectrum whose row i uses the four parameters at i |
| DeltaTwoLorentz.Row | QENSmodels/delta_two_lorentz.py:106-110 | row of one q: A0·delta + A1·lorentzian(hwhm1) + (1 − A0 − A1)·lorentzian(hwhm2); one value per energy point |
| WaterTeixeira.RowAtZeroArgument | QENSmodels/water_teixeira.py:98-103 | where q·radius = 0 the row is the jump-diffusion Lorentzian alone |
| WaterTeixeira.RowWithoutTranslation | QENSmodels/water_teixeira.py:98-103 | where the jump width is 0 the row is the rotational-diffusion row |
| WaterTeixeira.RowScaleLinear | QENSmodels/water_teixeira.py:98-103 | the row is linear in `scale` on any grid whose spacing is not zero |
| WaterTeixeira.ConvolvedScaleLinear | QENSmodels/water_teixeira.py:99-103 | the convolved line is linear in `scale` |
| WaterTeixeira.BuildRow | QENSmodels/water_teixeira.py:99-103 | the inner loop builds EISF·lorentzian(h) + Σ_j QISF_j·lorentzian(h + DR_j) |
| WaterTeixeira.Sqw | QENSmodels/water_teixeira.py:81-110 | Ok iff D > 0, resTime ≥ 0, radius > 0 and DR > 0, checked in that order (translation first); shaped spectrum; rows as the convolved row |
| WaterTeixeira.Row | QENSmodels/water_teixeira.py:98-103 | row k: eisf[k]·lorentzian(jump width of q[k]) + Σ_{l=1..5} qisf[k, l]·lorentzian(jump width + l(l+1)·DR); one value per energy point |
| Spectra.AccumulateRow | QENSmodels/equivalent_sites_circle.py:222-226 | the `+=` loop over the Lorentzians computes the accumulated row |
| Spectra.AccumulateConcat | QENSmodels/jump_sites_log_norm_dist.py:253-261 | adding two groups of lines in turn equals adding their concatenation |
| Spectra.AccumulateZeroWeights | QENSmodels/isotropic_rotational_diffusion.py:211-213 | lines with weight 0 leave the row unchanged |
| Spectra.AccumulateScaled | QENSmodels/isotropic_rotational_diffusion.py:209-213 | scaling the start and every line scales the row |
| Spectra.LorentzianRows | QENSmodels/brownian_translational_diffusion.py:187-188 | the loop gives row i = lorentzian(w, scale, center, hwhm[i]) |
| Spectra.QensRowElasticOnly | QENSmodels/isotropic_rotational_diffusion.py:209-213 | with EISF 1 and all QISF 0 the row is the delta profile |
| Spectra.QensRowScaleLinear | QENSmodels/isotropic_rotational_diffusion.py:209-213 | the row is linear in `scale` on any grid whose spacing is not zero |
| Spectra.BuildRow | QENSmodels/isotropic_rotational_diffusion.py:210-213 | EISF·delta, then each weighted Lorentzian added in turn, gives the specification row |
| Spectra.QensRow | QENSmodels/isotropic_rotational_diffusion.py:209-213 | the row shared by the composite models: elastic·delta, then + weights[j]·lorentzian(widths[j]) for each j in turn; one value per energy point |
| Grids.Lookup | QENSmodels/delta_lorentz.py:84-96 | p[i] succeeds iff p is a list longer than i; a bare number is `TypeError`, a short list `IndexError` |
| Grids.FirstLookupErrorLate | QENSmodels/delta_lorentz.py:91-96 | once every parameter has an item 0, a failed read can only be an `IndexError` |
| Grids.RowsOfReshape | QENSmodels/brownian_translational_diffusion.py:192-193 | flattening a single-q buffer loses nothing; the spectrum is flat iff there is one q |
| Grids.SetColumn | QENSmodels/isotropic_rotational_diffusion.py:92-94 | a[:, j] = col writes column j and nothing else |
| Grids.SetColumnWhereZero | QENSmodels/isotropic_rotational_diffusion.py:96-100 | jl[idx, i] = v writes the cells of column i where q·radius = 0, and nothing else |

## Left out

- Single precision: the `float32` conversions of `q` (and of `w` in `sqwWaterTeixeira`) and of the width arrays are not modelled. All numbers are exact reals.
- IEEE arithmetic:
  - NaN and infinity are not modelled, and `exp` is taken to be positive (no underflow to 0).
  - A division by the zero spacing of a grid with several identical points is the unspecified `Libm.divZero` value.
  - The scale-linearity lemmas exclude such a grid.
- Transcendental functions are parameters (`Libm`), not computed. The documented numeric examples that need them (for instance 0.486 for `sqwWaterTeixeira`, or the rounded Lorentzian values) are not stated. The known-value lemmas cover only the examples that need no transcendental value.
- Infinite series: the truncations to 100 Poisson terms (Gaussian model 3D), 6 Legendre orders (rotational diffusion) and 21 log-normal samples are modelled as written. How close they come to the untruncated sums is not stated.
- `LogNormSites.Hwhm`, `LogNormSites.Sqw`: require `Sound(m)`, because the sampling range √(−2 ln 0.1) exists only once ln 0.1 < 0 is known.
- `EquivalentSites.Sites`, `LogNormSites.Checked`: resTime = 0 passes the `resTime < 0` check and then fails at `2.0 / resTime`. This is modelled as `ZeroDivisionError`, which Python raises for a float division by zero.
- `DeltaTwoLorentz.SingleQ`, `DeltaTwoLorentz.Sqw`: with one q, a list `A0` or `A1` is multiplied into a numpy row before `1. - A0 - A1` raises `TypeError`. A list whose length is neither 1 nor w.size makes numpy's broadcasting raise `ValueError` first. The model reports `TypeError` for every list, or `IndexError` when there is no q.
- Per-q parameters are bare numbers or Python lists. numpy arrays, which broadcast in arithmetic and compare elementwise, are not modelled. Tuples, strings and other Python types are not modelled either, except as the `Unsupported` argument of `background_polynomials`.
- The energy grid `w` of the synthesisers is always a sequence. A bare-number `w` is modelled as the one-point grid. In the source it becomes a 0-d array, which `delta` turns into zeros, the same loss as in the findings below.
- Printing, the `__main__` doctest runners and the `QENSmodels` import fallback are I/O and are not modelled.
- `QENSmodels/__init__.py` (re-exports only) is not part of this model.

## Findings

| source | as written | input that shows it | evidently intended | confidence | as-written member | corrected member |
|---|---|---|---|---|---|---|
| QENSmodels/lorentzian.py:80-85 | `x` is made a 0-d array before `delta(x, …)` is called for hwhm = 0; `delta` then fails at `min(x)` on the 0-d array, and its `finally: return model` returns the zero buffer | `lorentzian(2.0, 1.0, 2.0, 0)` gives [0.] where `delta(2.0, 1.0, 2.0)` gives [1.] | a zero width gives the delta line for a bare x as for a list | not executed | LorentzianShape.ScalarZeroWidthLost | LorentzianShape.LorentzianOfZeroWidth |
| QENSmodels/gaussian.py:81-86 | the same 0-d array reaches `delta` for sigma = 0 | `gaussian(2.0, 1.0, 2.0, 0)` gives [0.] where `delta(2.0, 1.0, 2.0)` gives [1.] | a zero width gives the delta line for a bare x as for a list | not executed | GaussianShape.ScalarZeroWidthLost | GaussianShape.GaussianOfZeroWidth |
