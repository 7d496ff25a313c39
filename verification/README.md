# Function analysis engine of the differential-calculus calculator

A Dafny model of the decision logic behind the calculator's two
critical-point requests (`app.py`):

- **local analysis** ("Puntos críticos y extremos locales"): find the
  critical points of f, by symbolic solving or, when the symbolic solver
  raises, by a multi-start numeric solve over 20 seeds followed by a greedy
  proximity deduplication with tolerance 1e-3; then classify each point by
  the second-derivative test, tolerant of a negligible imaginary part
  (below 1e-8);
- **global analysis** ("Extremos globales en un intervalo"): keep the
  symbolic critical points whose real part lies in [a, b], add both
  endpoints, deduplicate after rounding, evaluate f at every candidate,
  drop the failures, and pick the minimum and maximum by the key
  (re f(p), |im f(p)|), with Python's first-occurrence `min` and `max`.

Complex numbers are pairs of reals (`Complexes.Complex`). The symbolic
engine (sympy) and the numeric solver are parameters: a symbolic solve is an
`Option<seq<…>>` (`None` when it raised), `nsolve` from a seed is a
`real -> Option<Complex>`, and the evaluations `f(p)`, `f''(p)` and
`complex(pc.evalf())` are `… -> Option<Complex>`, and the rendering
`mostrar_valor_comp` of a critical point, which may raise, is a
`Complex -> Option<Display.Shown>`. The modulus test
`abs(r - u) < 1e-3` is decided on squares (`|r - u|^2 < 1e-6`), which is
equivalent because both sides are non-negative.

Modules, leaf first: `Options`, `Complexes`, `Seqs` (helpers), `Display`
(the real-versus-complex rendering branch), `Proximity` (greedy
deduplication), `RootFinder` (symbolic roots or numeric fallback),
`Classifier` (second-derivative test), `Interval` (candidate assembly and
evaluation), `Selection` (key-based min/max), `Analysis` (both requests end
to end), `Examples` (worked instances for x^2 and x^3).

## Model

| member | source | states |
|---|---|---|
| Display.Show | app.py:52-56 | the value is rendered as a bare real exactly when abs(imag) < 1e-8; the real part is always shown, the imaginary part otherwise |
| Proximity.Dedup | app.py:139-144 | the kept roots are input roots, no more of them than inputs, each outside the 1e-3 tolerance of every root kept before it, and the first input root is always kept first |
| Proximity.DedupScan | app.py:139-144 | the nested loop (outer scan over roots, inner `any` over kept roots) computes exactly the kept roots of the one-root-at-a-time definition `Proximity.Dedup` |
| Proximity.DedupIsSubsequence | app.py:141-143 | the kept roots are a subsequence of the input: discovery order is preserved |
| Proximity.DedupPairwiseApart | app.py:139-143 | any two distinct kept roots are at complex distance at least 1e-3, whichever is subtracted from which |
| Proximity.DedupCovers | app.py:141-143 | every input root lies within 1e-3 of some kept root, so nothing is lost beyond the tolerance |
| Proximity.DedupOfSeparated | app.py:141-143 | a list whose roots are already pairwise apart is kept whole and in order |
| Proximity.DedupIdempotent | app.py:139-144 | deduplicating the kept roots again changes nothing |
| RootFinder.NumericRoots | app.py:130-137 | at most one root per seed; every root comes from a seed whose solve succeeded, every successful seed contributes its root, and the list is empty exactly when every seed fails |
| RootFinder.NumericRootsInSeedOrder | app.py:132-135 | roots from earlier seeds precede roots from later seeds |
| RootFinder.NumericRootsAllConverge | app.py:132-135 | when every seed converges, the i-th root is the one found from the i-th seed |
| RootFinder.CriticalPoints | app.py:126-144 | a symbolic result, even an empty one, is used as it is; only a raise triggers the fallback, which yields at most 20 pairwise-separated roots, each found from some seed, covering every seed's root within 1e-3 |
| Classifier.Classify | app.py:158-165 | exactly one kind: Indeterminate iff abs(im f'') >= 1e-8; otherwise Minimum iff re > 0, Maximum iff re < 0, Inflection iff re = 0 |
| Classifier.ClassifyNegated | app.py:159-165 | negating the second derivative swaps Minimum and Maximum and keeps Inflection and Indeterminate |
| Classifier.DecidedIffShownReal | app.py:159 | the test is decided exactly when the value of f'' would be rendered as a bare real (same 1e-8 threshold as app.py:53) |
| Classifier.NegligibleImaginaryIgnored | app.py:159-165 | an imaginary part below 1e-8 does not change the kind: only the sign of the real part matters |
| Classifier.ClassifyAt | app.py:242-253 | global path: a failed evaluation of f'' leaves the kind Indeterminate instead of raising; a successful one is classified by the sign test |
| Classifier.ClassifyLocal | app.py:155-168 | local path: the line is an error for that point exactly when f(c) or f''(c) fails or rendering c with `mostrar_valor_comp` raises, all three being inside one `try`; otherwise it carries f(c) and the sign-test kind of f''(c) |
| Interval.RootsInInterval | app.py:207-214 | the kept values are exactly the converted roots whose real part lies in [a, b]; a root whose conversion raises is skipped; the imaginary part is not filtered |
| Interval.RoundedSet | app.py:218 | the rounded image of a list: every rounded point is in it, every element is the rounding of a point of the list, and it has no more elements than the list |
| Interval.CandidatesSpec | app.py:207-218 | the rounded endpoints are always candidates; every other candidate is the rounding of a root with a <= re <= b, and every such root contributes; at most two more candidates than roots; under an idempotent rounding every candidate is its own rounding |
| Interval.SinglePointInterval | app.py:211-218 | when a = b and every root with that real part has an imaginary part that rounds like 0, the rounded point is the only candidate |
| Interval.SinglePointWithComplexRoot | app.py:211-218 | when a = b and the one root with real part a has an imaginary part that does not round like 0, there are exactly two distinct candidates: the rounded point and the rounded root |
| Interval.Evaluate | app.py:220-226 | each evaluation pairs a candidate with the value f returned for it, every evaluable candidate appears, the list is empty exactly when every evaluation fails, and there is at most one pair per candidate |
| Interval.EvaluateInOrder | app.py:221-226 | the evaluated points are a subsequence of the candidates: the loop keeps iteration order |
| Selection.MinIndex | app.py:233 | the selected key is minimal among all keys, and every earlier element has a strictly larger key (first occurrence) |
| Selection.MaxIndex | app.py:234 | the selected key is maximal among all keys, and every earlier element has a strictly smaller key (first occurrence) |
| Selection.TieBreakByImaginaryMagnitude | app.py:233-234 | among equal real parts the minimum never takes the larger abs(imag) and the maximum never takes the smaller one |
| Analysis.LocalAnalysis | app.py:121-168 | the points are the critical points of the symbolic-or-fallback rule; one line per point, in order; a failed evaluation or rendering yields an error line for that point only |
| Analysis.LocalErrorsIsolated | app.py:154-168 | an evaluation failure at one critical point leaves the lines of all other points unchanged |
| Analysis.RaisedSolveLeavesEndpoints | app.py:201-216 | when the symbolic solve raises, the global path has only the two rounded endpoints as candidates: it has no numeric fallback |
| Analysis.Select | app.py:233-254 | the minimum and maximum are evaluations with minimal and maximal key, each the first such in evaluation order, and each evaluation gets the global-path kind |
| Analysis.Search | app.py:220-254 | no evaluable candidate gives the "no evaluable extrema" report; otherwise the evaluations are exactly the successful ones, the minimum and maximum are evaluations with minimal and maximal key, each the first such in evaluation order, and each evaluation gets the global-path kind |
| Analysis.GlobalRoots | app.py:201-205 | the global path uses the symbolic roots as they are, and a raising solve leaves no roots |
| Examples.SecondDerivativeExamples | app.py:158-165 | f'' = 2 (x^2 at 0) is a minimum and f'' = 0 (x^3 at 0) an inflection point |
| Examples.SquareSelection | app.py:233-234 | for the values 9, 4, 0 of x^2 at 3, -2, 0 the minimum is taken at 0 and the maximum at 3 |
| Analysis.GlobalAnalysis | app.py:197-228 | "no evaluable extrema" exactly when every candidate fails to evaluate; otherwise the evaluations are exactly the candidates whose evaluation succeeded, one pair per candidate |

## Behaviour of app.py worth noting

The model follows `app.py` on these points, some of which a reader might
expect otherwise:

- The global path does not use the numeric fallback: a raising symbolic
  solve leaves no critical points (app.py:202-205).
- Only a raise triggers the local fallback; an empty list of symbolic roots
  does not (app.py:126-129).
- Interval candidates are filtered on the real part only; the imaginary part
  is not required to vanish (app.py:211).
- `min` and `max` use the same key (app.py:233-234), so among equal real
  parts the maximum prefers the larger abs(imag), not the smaller one.
- On a one-point interval a root with real part a whose imaginary part
  rounds differently from 0 is a second candidate next to the point itself
  (`Interval.SinglePointWithComplexRoot`); when every such root has an
  imaginary part that rounds like 0, the point is the only candidate
  (`Interval.SinglePointInterval`).

## Left out

- Streamlit widgets, `st.*` output and the request flow (app.py:8-44, 58-60, 300-301): user interface and ambient state.
- The limit, n-th derivative, continuity and default-plot requests (app.py:62-119, 282-298): they consist of symbolic-engine calls and plotting only.
- sympy (`sympify`, `diff`, `solve`, `nsolve`, `subs(...).evalf()`, `lambdify`): foreign library calls, modelled as partial functions passed in as parameters.
- matplotlib plotting and `plot_complex_parts` (app.py:46-50, 170-195, 256-277): rendering and NaN masking.
- The `%.6g` digits of `mostrar_valor_comp` (app.py:54-56): only the choice between the two shapes is modelled.
- Python's `round(x, 8)` on binary floats (app.py:218): modelled as an arbitrary function on reals; idempotence is assumed only where a contract says so.
- The seed values of `np.linspace(-10, 10, 20)` (app.py:130): the seeds are a parameter of length 20.
- The iteration order of `list(set)` (app.py:218): a parameter that must list every candidate exactly once.
- Floating-point arithmetic: all quantities are reals.
- Analysis.Search: covers finite values only. Where f is undefined sympy returns `nan` or `zoo` instead of raising, and `complex(...)` (app.py:223) turns that into a NaN-valued complex, so the source keeps such a candidate as a successful evaluation (kind Indeterminate at app.py:245). A NaN key compares neither smaller nor larger than any other key, so `min` and `max` (app.py:233-234) then depend on iteration order; for example, with a NaN value first, both return it. An evaluator `Complex -> Option<Complex>` over reals cannot yield such a value, so the minimal- and maximal-key clauses hold only when every value is finite.
- The listing of critical points (app.py:146-151): display only.
- The symbolic form of a root: a root is represented by its numeric value. The local path never converts a root itself; whether `f(c)` and `f''(c)` can be computed is the evaluators `f` and `f2`, and whether `mostrar_valor_comp(c)` raises is the parameter `show`.
- Analysis.GlobalAnalysis: states the facts about candidates and evaluations; the minimum, maximum and kinds of the report it returns are stated by `Analysis.Search`.
