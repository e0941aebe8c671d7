/** What the generator reports about a password: the strength label and
    indicator for the estimator's score, and the metrics derived from the pool
    and the password length. */
module Analysis {
  import opened CharPool

  datatype Option<T> = None | Some(value: T)

  /** The strength estimator's score. */
  type Score = s: int | 0 <= s <= 4

  /** Labels and indicators, indexed by score. */
  const Labels: seq<string> := ["Very Weak", "Weak", "Fair", "Good", "Strong"]
  const Indicators: seq<string> := ["\U{1F534}", "\U{1F7E0}", "\U{1F7E1}", "\U{1F535}", "\U{1F7E2}"]

  /** The label shown for a score; it reads back to that score. */
  function StrengthLabel(score: Score): (text: string)
    ensures ScoreOfLabel(text) == Some(score)
  {
    Labels[score]
  }

  /** The indicator shown for a score: one character, used by no other score. */
  function StrengthIndicator(score: Score): (mark: string)
    ensures |mark| == 1
    ensures mark in Indicators
    ensures forall other: Score :: Indicators[other] == mark ==> other == score
  {
    Indicators[score]
  }

  /** Reads a label back to the score it stands for; `None` for any other text. */
  function ScoreOfLabel(text: string): (score: Option<Score>)
    ensures score.Some? ==> text in Labels
  {
    if text == "Very Weak" then Some(0)
    else if text == "Weak" then Some(1)
    else if text == "Fair" then Some(2)
    else if text == "Good" then Some(3)
    else if text == "Strong" then Some(4)
    else None
  }

  /** Labels and scores determine each other: the table is a bijection between
      0..4 and the five labels, so no other label is ever shown. */
  lemma LabelRoundTrip(score: Score, text: string)
    ensures ScoreOfLabel(text) == Some(score) <==> StrengthLabel(score) == text
  {
  }

  /** Different scores are shown with different labels and different indicators. */
  lemma TablesInjective(a: Score, b: Score)
    ensures StrengthLabel(a) == StrengthLabel(b) ==> a == b
    ensures StrengthIndicator(a) == StrengthIndicator(b) ==> a == b
  {
  }

  /** Python's `base ** exp` on non-negative integers. */
  function Pow(base: nat, exp: nat): (r: nat)
    ensures base >= 1 ==> r >= 1
    ensures base >= 1 && exp >= 1 ==> r >= base
  {
    if exp == 0 then 1 else base * Pow(base, exp - 1)
  }

  /** The number of distinct characters in the pool, `len(set(chars))`. */
  function CharsetSize(chars: string): (n: nat)
    ensures n <= |chars|
    ensures n == 0 <==> chars == []
  {
    SetOfSeqBound(chars);
    var distinct := set c | c in chars;
    assert chars != [] ==> chars[0] in distinct && |distinct| > 0;
    assert chars == [] ==> distinct == {};
    |distinct|
  }

  /** The metrics shown in the detailed analysis of the first password. */
  datatype Detail = Detail(score: Score, charsetSize: nat, entropyBits: nat, combinations: nat)

  /** The detailed analysis: entropy is six bits per character whatever the
      pool; combinations count raw pool positions, duplicates included, while
      the character-set size counts distinct characters. The two bounds on
      the character-set size are derived from `CharsetSize`'s contract and are
      repeated here for the reader. */
  function Analyze(chars: string, password: string, score: Score): (d: Detail)
    ensures d.score == score
    ensures d.charsetSize == CharsetSize(chars)
    ensures d.entropyBits == 6 * |password|
    ensures d.combinations == Pow(|chars|, |password|)
    ensures d.charsetSize <= |chars|
    ensures chars != [] ==> d.charsetSize >= 1
    ensures Pow(d.charsetSize, |password|) <= d.combinations
    ensures d.combinations == Pow(d.charsetSize, |password|) <== Distinct(chars)
  {
    var size := CharsetSize(chars);
    PowMonotone(size, |chars|, |password|);
    DistinctIffFullSize(chars);
    Detail(score, size, |password| * 6, Pow(|chars|, |password|))
  }

  // ---------------------------------------------------------------------------
  // Lemmas

  lemma {:induction false} PowMonotone(a: nat, b: nat, e: nat)
    requires a <= b
    ensures Pow(a, e) <= Pow(b, e)
  {
    if e > 0 {
      PowMonotone(a, b, e - 1);
      MulMonotone(a, Pow(a, e - 1), b, Pow(b, e - 1));
    }
  }

  lemma MulMonotone(a: nat, x: nat, b: nat, y: nat)
    requires a <= b && x <= y
    ensures a * x <= b * y
  {
    assert a * x <= b * x;
    assert b * x <= b * y;
  }

  /** A string of n characters holds at most n distinct ones. */
  lemma {:induction false} SetOfSeqBound(s: string)
    ensures |set c | c in s| <= |s|
    decreases |s|
  {
    if s != [] {
      var rest := s[1..];
      SetOfSeqBound(rest);
      assert (set c | c in s) == {s[0]} + (set c | c in rest);
    }
  }

  /** The distinct-character count equals the length exactly when no
      character repeats. */
  lemma {:induction false} DistinctIffFullSize(s: string)
    ensures Distinct(s) <==> |set c | c in s| == |s|
    decreases |s|
  {
    if s != [] {
      var rest := s[1..];
      DistinctIffFullSize(rest);
      SetOfSeqBound(rest);
      assert (set c | c in s) == {s[0]} + (set c | c in rest);
      if s[0] in rest {
        assert (set c | c in s) == (set c | c in rest);
        var j :| 0 <= j < |rest| && rest[j] == s[0];
        assert s[j + 1] == s[0];
      } else {
        assert Distinct(s) <==> Distinct(rest) by {
          if Distinct(s) {
            forall i, j | 0 <= i < j < |rest| ensures rest[i] != rest[j] {
              assert rest[i] == s[i + 1] && rest[j] == s[j + 1];
            }
          }
          if Distinct(rest) {
            DistinctCons(s[0], rest);
            assert s == [s[0]] + rest;
          }
        }
      }
    }
  }

  /** With the default symbols the two size metrics agree. */
  lemma DefaultPoolSizesAgree(cfg: Config)
    requires cfg.customSymbols == []
    ensures CharsetSize(Pool(cfg)) == |Pool(cfg)|
  {
    DefaultPoolIsDistinct(cfg);
    DistinctIffFullSize(Pool(cfg));
  }

  /** A custom symbol string with a repeated character makes the
      character-set size smaller than the pool length that the combination
      count uses. */
  lemma RepeatedCustomSymbolsDiverge(length: nat, quantity: nat)
    ensures var chars := Pool(Config(length, false, false, false, true, false, "##", quantity));
      chars == "##" && CharsetSize(chars) == 1 && Pow(|chars|, 3) == 8 && Pow(CharsetSize(chars), 3) == 1
  {
    var chars := Pool(Config(length, false, false, false, true, false, "##", quantity));
    assert chars == "##";
    assert (set c | c in chars) == {'#'};
    assert Pow(2, 3) == 8 && Pow(1, 3) == 1;
  }

  /** Worked examples: 16 characters give 96 bits; the ten digits and length 3
      give 1000 combinations; the 26 lowercase letters and length 16 give 26^16. */
  lemma MetricExamples(password: string, score: Score)
    requires |password| == 16
    ensures Analyze(Lowercase, password, score).entropyBits == 96
    ensures Analyze(Lowercase, password, score).combinations == Pow(26, 16)
    ensures Analyze(Digits, "012", score).combinations == 1000
  {
    assert Pow(10, 3) == 1000;
  }
}
