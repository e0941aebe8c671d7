/** Password generation: the pool is built, and unless it is empty, `quantity`
    passwords of `length` characters are drawn from it and shown with their
    strength; the first one also gets the detailed analysis.

    The secure random source is a parameter: `draws[i][k]` is the index the
    source returns for character k of password i. The strength estimator is the
    parameter `estimate`. */
module Generator {
  import opened CharPool
  import opened Analysis

  /** One generated password as it is shown: the text, the estimator's score,
      and the label and indicator for that score. */
  datatype Shown = Shown(password: string, score: Score, strength: string, indicator: string)

  /** The passwords of one request, and the detailed analysis of the first one. */
  datatype Batch = Batch(shown: seq<Shown>, detail: Option<Detail>)

  /** Either a batch, or the empty-pool error, in which case nothing is generated. */
  datatype Outcome = Generated(batch: Batch) | EmptyPool

  /** The random source's answers fit the request: one row per password, one
      index per character, each index a position of the pool. */
  predicate DrawsFit(draws: seq<seq<nat>>, quantity: nat, length: nat, poolSize: nat) {
    |draws| == quantity
    && forall i :: 0 <= i < |draws| ==>
         |draws[i]| == length && forall k :: 0 <= k < |draws[i]| ==> draws[i][k] < poolSize
  }

  /** The password spelled by the indices `picks`: character k is `chars[picks[k]]`. */
  function Spell(chars: string, picks: seq<nat>): (password: string)
    requires forall k :: 0 <= k < |picks| ==> picks[k] < |chars|
    ensures |password| == |picks|
    ensures forall k :: 0 <= k < |picks| ==> password[k] == chars[picks[k]]
    ensures forall c :: c in password ==> c in chars
  {
    if picks == [] then []
    else [chars[picks[0]]] + Spell(chars, picks[1..])
  }

  /** The generation loop: password i is spelled from row i of the draws,
      scored, and labelled; the first one is analysed in detail. */
  method GenerateBatch(chars: string, length: nat, quantity: nat, draws: seq<seq<nat>>, estimate: string -> Score)
    returns (batch: Batch)
    requires DrawsFit(draws, quantity, length, |chars|)
    ensures |batch.shown| == quantity
    ensures forall i :: 0 <= i < quantity ==>
      batch.shown[i].password == Spell(chars, draws[i])
      && batch.shown[i].score == estimate(batch.shown[i].password)
      && batch.shown[i].strength == StrengthLabel(batch.shown[i].score)
      && batch.shown[i].indicator == StrengthIndicator(batch.shown[i].score)
    ensures forall i :: 0 <= i < quantity ==>
      |batch.shown[i].password| == length
      && forall c :: c in batch.shown[i].password ==> c in chars
    ensures quantity == 0 ==> batch.detail == None
    ensures quantity > 0 ==> batch.detail == Some(Analyze(chars, batch.shown[0].password, batch.shown[0].score))
  {
    var shown: seq<Shown> := [];
    var detail: Option<Detail> := None;
    for i := 0 to quantity
      invariant |shown| == i
      invariant forall j :: 0 <= j < i ==>
        shown[j].password == Spell(chars, draws[j])
        && shown[j].score == estimate(shown[j].password)
        && shown[j].strength == StrengthLabel(shown[j].score)
        && shown[j].indicator == StrengthIndicator(shown[j].score)
      invariant i == 0 ==> detail == None
      invariant i > 0 ==> detail == Some(Analyze(chars, shown[0].password, shown[0].score))
    {
      var password := Spell(chars, draws[i]);
      var score := estimate(password);
      shown := shown + [Shown(password, score, StrengthLabel(score), StrengthIndicator(score))];
      if i == 0 {
        detail := Some(Analyze(chars, password, score));
      }
    }
    batch := Batch(shown, detail);
  }

  /** One press of the generate button: build the pool; report the error and
      generate nothing when it is empty; otherwise run the generation loop. */
  method Generate(cfg: Config, draws: seq<seq<nat>>, estimate: string -> Score) returns (outcome: Outcome)
    requires InFormRanges(cfg)
    requires Pool(cfg) != [] ==> DrawsFit(draws, cfg.quantity, cfg.length, |Pool(cfg)|)
    ensures outcome.EmptyPool? <==> Pool(cfg) == []
    ensures outcome.Generated? ==> |outcome.batch.shown| == cfg.quantity
    ensures outcome.Generated? ==> forall i :: 0 <= i < cfg.quantity ==>
      outcome.batch.shown[i].password == Spell(Pool(cfg), draws[i])
      && |outcome.batch.shown[i].password| == cfg.length
      && (forall c :: c in outcome.batch.shown[i].password ==> c in Pool(cfg))
      && outcome.batch.shown[i].score == estimate(outcome.batch.shown[i].password)
      && outcome.batch.shown[i].strength == StrengthLabel(outcome.batch.shown[i].score)
      && outcome.batch.shown[i].indicator == StrengthIndicator(outcome.batch.shown[i].score)
    ensures outcome.Generated? ==>
      outcome.batch.detail == Some(Analyze(Pool(cfg), outcome.batch.shown[0].password, outcome.batch.shown[0].score))
    ensures outcome.Generated? ==>
      (outcome.batch.detail.Some?
       && outcome.batch.detail.value.entropyBits == 6 * cfg.length
       && outcome.batch.detail.value.combinations == Pow(|Pool(cfg)|, cfg.length)
       && outcome.batch.detail.value.charsetSize == CharsetSize(Pool(cfg)))
  {
    var chars := BuildPool(cfg);
    if chars != "" {
      var batch := GenerateBatch(chars, cfg.length, cfg.quantity, draws, estimate);
      outcome := Generated(batch);
    } else {
      outcome := EmptyPool;
    }
  }

  /** Worked example: lowercase only draws only a..z, with 96 bits of entropy
      and 26^16 combinations at length 16. */
  lemma LowercaseOnlyExample(picks: seq<nat>, score: Score)
    requires |picks| == 16
    requires forall k :: 0 <= k < |picks| ==> picks[k] < 26
    ensures var chars := Pool(Config(16, false, true, false, false, false, "", 1));
      chars == Lowercase
      && (forall c :: c in Spell(chars, picks) ==> 'a' <= c <= 'z')
      && Analyze(chars, Spell(chars, picks), score).entropyBits == 96
      && Analyze(chars, Spell(chars, picks), score).combinations == Pow(26, 16)
  {
    var chars := Pool(Config(16, false, true, false, false, false, "", 1));
    assert chars == Lowercase;
    forall c | c in Spell(chars, picks) ensures 'a' <= c <= 'z' {
      var k :| 0 <= k < |chars| && chars[k] == c;
    }
  }

  /** Worked example: the custom symbols "#%" as the only class make the pool
      exactly "#%", so only '#' and '%' are drawn. */
  lemma CustomSymbolsExample(picks: seq<nat>)
    requires forall k :: 0 <= k < |picks| ==> picks[k] < 2
    ensures var chars := Pool(Config(16, false, false, false, true, false, "#%", 1));
      chars == "#%" && forall c :: c in Spell(chars, picks) ==> c == '#' || c == '%'
  {
    var chars := Pool(Config(16, false, false, false, true, false, "#%", 1));
    assert chars == "#%";
  }
}
