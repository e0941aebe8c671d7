# Secure password generator: verified model of the generation core

This project models the deterministic core of a Streamlit password generator
(`app.py`). When the generate button is pressed, the script:

1. builds a character pool. It appends lowercase letters, uppercase letters,
   digits and symbols, each only if its option is on. Custom symbols replace
   the default `!@#$%^&*`.
2. removes the look-alike characters `0 O l 1 I |` from the pool if the
   "exclude ambiguous" option is on.
3. shows an error and generates nothing if the pool is empty.
4. otherwise draws `quantity` passwords of `length` characters from the pool.
   It shows each one with a strength label and indicator for the estimator's
   score 0..4.
5. shows a detailed analysis for the first password: the number of distinct
   pool characters, an entropy figure of six bits per character, and the
   combination count `len(chars) ** len(password)` over the raw pool.

Modules:

- `CharPool` (`pool.dfy`): the configuration, the character classes, the
  filter `Without`, and the pool. The pool has a specification function
  `Pool` and an imperative builder `BuildPool` that appends one class at a
  time and then runs the six `replace` calls.
- `Analysis` (`analysis.dfy`): the label and indicator tables, `Pow`
  (Python's `**`), the distinct-character count, and the detailed analysis.
- `Generator` (`generator.dfy`): spelling one password from random indices,
  the generation loop, and one full button press with its empty-pool error.

Two outside services become parameters:

- The secure random source (`secrets.choice`) is a sequence of index rows,
  `draws`. `draws[i][k]` is the pool position chosen for character `k` of
  password `i`, and the model requires it to be a valid position.
- The strength estimator (`zxcvbn`) is a function `estimate: string -> Score`,
  where `Score` is 0..4.

The checkbox caption (app.py:39) names only `0, O, l, 1`. The code at
app.py:61-62 also removes `I` and the vertical bar, and the model follows the code.

The form's widget ranges (length 8–50, quantity 1–10) are a precondition of
`Generate` only. The pool builder and the loop do not depend on them.

## Model

| member | source | states |
|---|---|---|
| `CharPool.Without` | app.py:61-62 | `s.replace(c, '')` as a filter: a character is in the result exactly when it is in the input and not dropped, and every kept character keeps its multiplicity |
| `CharPool.ReplaceAmbiguous` | app.py:60-62 | the source's six successive `replace` calls together remove exactly the six look-alike characters (`0 O l 1 I` and the vertical bar) |
| `CharPool.BuildPool` | app.py:47-62 | appending the selected classes in order and then running the removal chain when exclusion is on gives exactly `Pool(cfg)` |
| `CharPool.WithoutTwice` | app.py:61-62 | removing one set of characters and then another is the same as removing their union |
| `CharPool.WithoutNothingToDrop` | app.py:61-62 | a `replace` chain leaves a string with none of the removed characters unchanged |
| `CharPool.WithoutConcat` | app.py:61-62 | removal distributes over concatenation, so the surviving characters keep their order |
| `CharPool.WithoutIdempotent` | app.py:61-62 | filtering twice is the same as filtering once |
| `CharPool.ReplaceAmbiguousIdempotent` | app.py:61-62 | running the removal chain a second time leaves the pool unchanged |
| `CharPool.WithoutKeepsDistinct` | app.py:61-62 | removal never introduces a repeated character |
| `CharPool.AssembledMembership` | app.py:47-58 | a character is in the unfiltered pool exactly when one of the selected classes holds it |
| `CharPool.Assembled` | app.py:47-58 | the unfiltered pool length is 26, 26, 10 and the symbol-class length, summed over the selected classes |
| `CharPool.Pool` | app.py:47-62 | a character is in the pool exactly when it is in the unfiltered pool and is not a look-alike removed by exclusion |
| `CharPool.SymbolPartChoice` | app.py:54-58 | with symbols on, the unfiltered pool ends with the custom string verbatim when one is given and with `!@#$%^&*` otherwise; with custom symbols, a default symbol is in the unfiltered pool only if the custom string holds it |
| `CharPool.PoolFiltered` | app.py:60-62 | without exclusion the pool is the assembled string unchanged; with it, no ambiguous character remains and every other character keeps its count |
| `CharPool.PoolFiltersEachPart` | app.py:47-62 | filtering the joined classes equals joining the filtered classes |
| `CharPool.PoolEmptyIff` | app.py:47-64 | the pool is empty exactly when no letter or digit class is on and symbols are off, or symbols are a non-empty custom string of ambiguous characters that exclusion removes |
| `CharPool.AlphanumericSurvives` | app.py:47-62 | any selected letter or digit class leaves at least one character after filtering |
| `CharPool.SymbolsOnly` | app.py:54-64 | with symbols as the only class, the pool is empty exactly when exclusion is on and the custom string is non-empty and all ambiguous |
| `CharPool.EmptyPoolExamples` | app.py:102-103 | all classes off gives the empty pool; only the custom symbols zero, capital O and vertical bar, with exclusion, gives the empty pool; without exclusion the same symbols are kept |
| `CharPool.DefaultPoolIsDistinct` | app.py:47-62 | with the default symbols, no character occurs twice in the pool |
| `CharPool.ClassesSpelledOut` | app.py:49-53 | the class strings are Python's `ascii_lowercase`, `ascii_uppercase` and `digits` |
| `Analysis.StrengthLabel` | app.py:80-82 | the label shown for a score reads back to that same score |
| `Analysis.StrengthIndicator` | app.py:81-82 | the indicator for a score is a single character that no other score uses |
| `Analysis.Pow` | app.py:97 | `len(chars) ** len(password)` is at least 1 for a non-empty pool, and at least the pool length once the password is non-empty |
| `Analysis.ScoreOfLabel` | app.py:80 | only the five table labels read back to a score |
| `Analysis.LabelRoundTrip` | app.py:79-82 | a label reads back to a score exactly when the table maps that score to it, so the mapping is a bijection between 0..4 and the five labels |
| `Analysis.TablesInjective` | app.py:80-81 | distinct scores get distinct labels and distinct indicators |
| `Analysis.CharsetSize` | app.py:94 | `len(set(chars))` is at most `len(chars)` and is zero only for an empty pool |
| `Analysis.Analyze` | app.py:94-97 | the character-set size is `len(set(chars))`, entropy is `6 * len(password)` and combinations are `len(chars) ** len(password)` over the raw pool. The character-set size is at most the pool length and at least 1 for a non-empty pool (derived from `CharsetSize`). Combinations are at least `size ** length`, with equality when the pool has no repeats |
| `Analysis.PowMonotone` | app.py:97 | `a ** e <= b ** e` whenever `a <= b` |
| `Analysis.SetOfSeqBound` | app.py:94 | a string of n characters has at most n distinct characters |
| `Analysis.DistinctIffFullSize` | app.py:94 | the distinct count equals the length exactly when no character repeats |
| `Analysis.DefaultPoolSizesAgree` | app.py:94-97 | with the default symbols, the reported character-set size equals the raw pool length used for combinations |
| `Analysis.RepeatedCustomSymbolsDiverge` | app.py:94-97 | custom symbols `##` give a pool of length 2 but a character-set size of 1, so the two metrics disagree (8 against 1 at length 3) |
| `Analysis.MetricExamples` | app.py:96-97 | length 16 gives 96 bits; 26 lowercase letters at length 16 give 26^16 combinations; the ten digits at length 3 give 1000 |
| `Generator.Spell` | app.py:69 | the joined password has one character per draw, character k is `chars[draw k]`, and every character is in the pool |
| `Generator.GenerateBatch` | app.py:67-97 | the loop yields exactly `quantity` passwords. Password i is spelled from draw row i and has length `length` over pool characters. Its label and indicator are those of the estimator's score. Only the first password gets the detailed analysis |
| `Generator.Generate` | app.py:45-103 | the outcome is the error exactly when the pool is empty. Otherwise it has `quantity` passwords of `length` pool characters, each spelled from its draw row and shown with the estimator's score, its label and its indicator. The detail is the analysis of the first password with its score: `6 * length` bits, `len(pool) ** length` combinations and `len(set(pool))` |
| `Generator.LowercaseOnlyExample` | app.py:47-97 | lowercase only at length 16: the pool is a..z, every generated character is a lowercase letter, the entropy is 96 and the combination count is 26^16 |
| `Generator.CustomSymbolsExample` | app.py:54-69 | custom symbols `#%` alone give the pool `#%`, and every generated character is `#` or `%` |

## Left out

- Everything Streamlit renders: page setup, sidebar, columns, widgets, `st.code`, `st.metric`, `st.write`, `st.success`, `st.info`, and the wording of the error message. The error is the `EmptyPool` outcome.
- `secrets.choice` is not modelled as random. Its answers are the `draws` parameter, and the model makes no claim about uniformity or unpredictability.
- The internals of `zxcvbn` and its crack-time strings (app.py:91, 132) are not modelled. The score is the `estimate` parameter, assumed to be in 0..4.
- The `:e` and `:.0f` formatting of the combination count and the entropy (app.py:96-97) is left out. The model keeps the exact integers.
- The comparison catalogue and its buttons (app.py:105-133) are static data and display. They use the same label and indicator table as the generator, which `StrengthLabel` and `StrengthIndicator` model. The educational text (app.py:135-162) is left out too.
- Generate: does not model the source stopping on an exception. An exception from `secrets.choice` or `zxcvbn` (app.py:69, 72) propagates and stops the script, and the passwords from earlier iterations stay on screen. The `:e` formatting at app.py:97 converts the combination count to a float, which raises OverflowError once the count passes about 1.8e308. For example, length 50 with a custom symbol string of about 1.5 million characters stops the script after the first password. In both cases the model still returns all `quantity` passwords, and it reports the exact integer count.
