/** The character pool that passwords are drawn from: the selected character
    classes concatenated in a fixed order, optionally stripped of characters
    that are easy to confuse with one another. */
module CharPool {

  /** Python's `string.ascii_lowercase`, `string.ascii_uppercase` and
      `string.digits`: runs of consecutive character codes (spelled out in
      `ClassesSpelledOut`). */
  const Lowercase: string := CodeRun('a', 26)
  const Uppercase: string := CodeRun('A', 26)
  const Digits: string := CodeRun('0', 10)

  /** The `count` characters whose codes follow on from `first`. */
  function CodeRun(first: char, count: nat): (r: string)
    requires first as int + count <= 0xD800
    ensures |r| == count
    ensures forall i :: 0 <= i < count ==> r[i] as int == first as int + i
  {
    seq(count, i requires 0 <= i < count => (first as int + i) as char)
  }

  /** The symbol class used when no custom symbols are entered. */
  const DefaultSymbols: string := "!@#$%^&*"

  /** The look-alike characters that the "exclude ambiguous" option removes. */
  const Ambiguous: set<char> := {'0', 'O', 'l', '1', 'I', '|'}

  /** The generator's settings as the form collects them; an empty
      `customSymbols` is the text box left blank. */
  datatype Config = Config(
    length: nat,
    includeUppercase: bool,
    includeLowercase: bool,
    includeNumbers: bool,
    includeSymbols: bool,
    excludeAmbiguous: bool,
    customSymbols: string,
    quantity: nat)

  /** The values the form's length slider and quantity input can produce. */
  predicate InFormRanges(cfg: Config) {
    8 <= cfg.length <= 50 && 1 <= cfg.quantity <= 10
  }

  /** No character occurs twice. */
  predicate Distinct(s: string) {
    forall i, j :: 0 <= i < j < |s| ==> s[i] != s[j]
  }

  /** A class contributes its characters only when its option is on. */
  function Part(selected: bool, cls: string): string {
    if selected then cls else []
  }

  /** Custom symbols replace the default symbol class; they are never merged with it. */
  function SymbolClass(custom: string): (sym: string)
    ensures sym != []
    ensures custom != [] ==> sym == custom
    ensures custom == [] ==> sym == DefaultSymbols
  {
    if custom != [] then custom else DefaultSymbols
  }

  /** The pool before ambiguous characters are removed: lowercase, uppercase,
      digits, symbols, in this order. */
  function Assembled(cfg: Config): (chars: string)
    ensures |chars| ==
      (if cfg.includeLowercase then 26 else 0)
      + (if cfg.includeUppercase then 26 else 0)
      + (if cfg.includeNumbers then 10 else 0)
      + (if cfg.includeSymbols then |SymbolClass(cfg.customSymbols)| else 0)
  {
    Part(cfg.includeLowercase, Lowercase)
    + Part(cfg.includeUppercase, Uppercase)
    + Part(cfg.includeNumbers, Digits)
    + Part(cfg.includeSymbols, SymbolClass(cfg.customSymbols))
  }

  /** `s` with every occurrence of every character of `drop` removed, the
      remaining characters kept in their order. `s.replace(c, '')` is
      `Without(s, {c})`. */
  function Without(s: string, drop: set<char>): (r: string)
    ensures forall c :: c in r <==> c in s && c !in drop
    ensures forall c :: multiset(r)[c] == if c in drop then 0 else multiset(s)[c]
    decreases |s|
  {
    if s == [] then []
    else
      assert s == [s[0]] + s[1..];
      if s[0] in drop then Without(s[1..], drop)
      else [s[0]] + Without(s[1..], drop)
  }

  /** The specification of the pool: the assembled classes, filtered when
      ambiguous characters are excluded. */
  function Pool(cfg: Config): (chars: string)
    ensures forall c :: c in chars <==> c in Assembled(cfg) && !(cfg.excludeAmbiguous && c in Ambiguous)
  {
    if cfg.excludeAmbiguous then Without(Assembled(cfg), Ambiguous) else Assembled(cfg)
  }

  /** The six `replace` calls that strip ambiguous characters, in the order
      the source applies them; together they are one filter by `Ambiguous`. */
  function ReplaceAmbiguous(s: string): (r: string)
    ensures r == Without(s, Ambiguous)
  {
    ghost var after0 := {'0'};
    ghost var afterO := after0 + {'O'};
    ghost var afterL := afterO + {'l'};
    ghost var after1 := afterL + {'1'};
    ghost var afterI := after1 + {'I'};
    var a := Without(s, {'0'});
    var b := Without(a, {'O'});
    WithoutTwice(s, after0, {'O'});
    var c := Without(b, {'l'});
    WithoutTwice(s, afterO, {'l'});
    var d := Without(c, {'1'});
    WithoutTwice(s, afterL, {'1'});
    var e := Without(d, {'I'});
    WithoutTwice(s, after1, {'I'});
    WithoutTwice(s, afterI, {'|'});
    assert afterI + {'|'} == Ambiguous;
    Without(e, {'|'})
  }

  /** Builds the pool the way the source does: one class at a time appended
      to `chars`, then the removal chain. */
  method BuildPool(cfg: Config) returns (chars: string)
    ensures chars == Pool(cfg)
  {
    chars := "";
    if cfg.includeLowercase {
      chars := chars + Lowercase;
    }
    if cfg.includeUppercase {
      chars := chars + Uppercase;
    }
    if cfg.includeNumbers {
      chars := chars + Digits;
    }
    if cfg.includeSymbols {
      if cfg.customSymbols != "" {
        chars := chars + cfg.customSymbols;
      } else {
        chars := chars + DefaultSymbols;
      }
    }
    assert chars == Assembled(cfg);
    if cfg.excludeAmbiguous {
      chars := ReplaceAmbiguous(chars);
    }
  }

  // ---------------------------------------------------------------------------
  // Properties of the filter

  /** Removing one set of characters and then another removes their union. */
  lemma {:induction false} WithoutTwice(s: string, a: set<char>, b: set<char>)
    ensures Without(Without(s, a), b) == Without(s, a + b)
    decreases |s|
  {
    if s != [] {
      WithoutTwice(s[1..], a, b);
    }
  }

  /** A string that holds none of the dropped characters is left as it is. */
  lemma {:induction false} WithoutNothingToDrop(s: string, drop: set<char>)
    requires forall c :: c in s ==> c !in drop
    ensures Without(s, drop) == s
    decreases |s|
  {
    if s != [] {
      assert s[0] in s;
      forall c | c in s[1..] ensures c !in drop {
        assert c in s;
      }
      WithoutNothingToDrop(s[1..], drop);
      assert s == [s[0]] + s[1..];
    }
  }

  /** Removal works position by position: it distributes over concatenation,
      so the characters that remain keep their relative order. */
  lemma {:induction false} WithoutConcat(a: string, b: string, drop: set<char>)
    ensures Without(a + b, drop) == Without(a, drop) + Without(b, drop)
    decreases |a|
  {
    if a != [] {
      assert (a + b)[1..] == a[1..] + b;
      WithoutConcat(a[1..], b, drop);
    } else {
      assert a + b == b;
    }
  }

  /** Filtering is idempotent. */
  lemma WithoutIdempotent(s: string, drop: set<char>)
    ensures Without(Without(s, drop), drop) == Without(s, drop)
  {
    WithoutNothingToDrop(Without(s, drop), drop);
  }

  /** Running the source's removal chain a second time changes nothing. */
  lemma ReplaceAmbiguousIdempotent(s: string)
    ensures ReplaceAmbiguous(ReplaceAmbiguous(s)) == ReplaceAmbiguous(s)
  {
    WithoutIdempotent(s, Ambiguous);
  }

  /** Removing characters never creates a duplicate. */
  lemma {:induction false} WithoutKeepsDistinct(s: string, drop: set<char>)
    requires Distinct(s)
    ensures Distinct(Without(s, drop))
    decreases |s|
  {
    if s != [] {
      assert Distinct(s[1..]) by {
        forall i, j | 0 <= i < j < |s[1..]| ensures s[1..][i] != s[1..][j] {
          assert s[1..][i] == s[i + 1] && s[1..][j] == s[j + 1];
        }
      }
      WithoutKeepsDistinct(s[1..], drop);
      if s[0] !in drop {
        var rest := Without(s[1..], drop);
        assert s[0] !in s[1..];
        assert s[0] !in rest;
        DistinctCons(s[0], rest);
      }
    }
  }

  /** Putting a new character in front of a duplicate-free string keeps it duplicate-free. */
  lemma DistinctCons(c: char, s: string)
    requires Distinct(s) && c !in s
    ensures Distinct([c] + s)
  {
    var t := [c] + s;
    forall i, j | 0 <= i < j < |t| ensures t[i] != t[j] {
      if i == 0 {
        assert t[j] == s[j - 1];
      } else {
        assert t[i] == s[i - 1] && t[j] == s[j - 1];
      }
    }
  }

  /** Joining two duplicate-free strings without a common character gives a
      duplicate-free string. */
  lemma DistinctAppend(a: string, b: string)
    requires Distinct(a) && Distinct(b)
    requires forall c :: c in a ==> c !in b
    ensures Distinct(a + b)
  {
    var t := a + b;
    forall i, j | 0 <= i < j < |t| ensures t[i] != t[j] {
      if j < |a| {
        assert t[i] == a[i] && t[j] == a[j];
      } else if i < |a| {
        assert t[i] == a[i] && t[j] == b[j - |a|];
        assert t[i] in a && t[j] in b;
      } else {
        assert t[i] == b[i - |a|] && t[j] == b[j - |a|];
      }
    }
  }

  // ---------------------------------------------------------------------------
  // Properties of the pool

  /** Exactly which characters the assembled classes hold. */
  lemma AssembledMembership(cfg: Config, c: char)
    ensures c in Assembled(cfg) <==>
      (cfg.includeLowercase && c in Lowercase)
      || (cfg.includeUppercase && c in Uppercase)
      || (cfg.includeNumbers && c in Digits)
      || (cfg.includeSymbols && c in SymbolClass(cfg.customSymbols))
  {
    var lo := Part(cfg.includeLowercase, Lowercase);
    var up := Part(cfg.includeUppercase, Uppercase);
    var di := Part(cfg.includeNumbers, Digits);
    var sy := Part(cfg.includeSymbols, SymbolClass(cfg.customSymbols));
    assert Assembled(cfg) == lo + up + di + sy;
    assert c in lo + up + di + sy <==> c in lo || c in up || c in di || c in sy;
  }

  /** With symbols on, the symbol part of the unfiltered pool is the custom
      string verbatim when one is given, and the default symbols only when none
      is; with custom symbols, a default symbol is in the unfiltered pool only
      when the custom string holds it. */
  lemma SymbolPartChoice(cfg: Config)
    requires cfg.includeSymbols
    ensures cfg.customSymbols != [] ==>
      Assembled(cfg) == Assembled(cfg.(includeSymbols := false)) + cfg.customSymbols
    ensures cfg.customSymbols == [] ==>
      Assembled(cfg) == Assembled(cfg.(includeSymbols := false)) + DefaultSymbols
    ensures cfg.customSymbols != [] ==>
      forall c :: c in DefaultSymbols ==> (c in Assembled(cfg) <==> c in cfg.customSymbols)
  {
    var rest := cfg.(includeSymbols := false);
    assert Assembled(rest) == Assembled(cfg)[..|Assembled(rest)|];
    if cfg.customSymbols != [] {
      forall c | c in DefaultSymbols
        ensures c in Assembled(cfg) <==> c in cfg.customSymbols
      {
        DefaultSymbolsAreNotAlphanumeric(c);
        AssembledMembership(cfg, c);
      }
    }
  }

  /** The default symbols share no character with the letters and digits. */
  lemma DefaultSymbolsAreNotAlphanumeric(c: char)
    requires c in DefaultSymbols
    ensures c !in Lowercase && c !in Uppercase && c !in Digits
  {
    ClassRanges();
  }

  /** Each class lies in its own range of character codes. */
  lemma ClassRanges()
    ensures forall c :: c in Lowercase ==> 'a' <= c <= 'z'
    ensures forall c :: c in Uppercase ==> 'A' <= c <= 'Z'
    ensures forall c :: c in Digits ==> '0' <= c <= '9'
    ensures forall c :: c in DefaultSymbols ==> c < '0' || ('9' < c < 'A') || ('Z' < c < 'a')
  {
  }

  /** The pool holds exactly the assembled characters that survive the
      ambiguity filter, each as often as before; without the filter it is the
      assembled string unchanged. */
  lemma PoolFiltered(cfg: Config)
    ensures !cfg.excludeAmbiguous ==> Pool(cfg) == Assembled(cfg)
    ensures cfg.excludeAmbiguous ==> forall c :: c in Ambiguous ==> c !in Pool(cfg)
    ensures forall c ::
      multiset(Pool(cfg))[c] == if cfg.excludeAmbiguous && c in Ambiguous then 0 else multiset(Assembled(cfg))[c]
  {
  }

  /** Removing look-alikes from the joined classes is the same as removing
      them from each class before joining: the filter keeps every other
      character in its class and in its place. */
  lemma PoolFiltersEachPart(cfg: Config)
    requires cfg.excludeAmbiguous
    ensures Pool(cfg) ==
      Without(Part(cfg.includeLowercase, Lowercase), Ambiguous)
      + Without(Part(cfg.includeUppercase, Uppercase), Ambiguous)
      + Without(Part(cfg.includeNumbers, Digits), Ambiguous)
      + Without(Part(cfg.includeSymbols, SymbolClass(cfg.customSymbols)), Ambiguous)
  {
    var lo := Part(cfg.includeLowercase, Lowercase);
    var up := Part(cfg.includeUppercase, Uppercase);
    var di := Part(cfg.includeNumbers, Digits);
    var sy := Part(cfg.includeSymbols, SymbolClass(cfg.customSymbols));
    WithoutConcat(lo + up + di, sy, Ambiguous);
    WithoutConcat(lo + up, di, Ambiguous);
    WithoutConcat(lo, up, Ambiguous);
  }

  /** The pool is empty exactly when no letter or digit class is selected and
      the symbols are either off or a custom string made only of ambiguous
      characters that the filter removes. */
  lemma PoolEmptyIff(cfg: Config)
    ensures Pool(cfg) == [] <==>
      !cfg.includeLowercase && !cfg.includeUppercase && !cfg.includeNumbers
      && (!cfg.includeSymbols
          || (cfg.excludeAmbiguous && cfg.customSymbols != []
              && forall c :: c in cfg.customSymbols ==> c in Ambiguous))
  {
    if cfg.includeLowercase || cfg.includeUppercase || cfg.includeNumbers {
      AlphanumericSurvives(cfg);
    } else {
      assert Assembled(cfg) == Part(cfg.includeSymbols, SymbolClass(cfg.customSymbols));
      if cfg.includeSymbols {
        SymbolsOnly(cfg);
      }
    }
  }

  /** A selected letter or digit class always leaves a character in the pool. */
  lemma AlphanumericSurvives(cfg: Config)
    requires cfg.includeLowercase || cfg.includeUppercase || cfg.includeNumbers
    ensures Pool(cfg) != []
  {
    var survivor: char;
    if cfg.includeLowercase {
      survivor := Lowercase[0];
      assert survivor == 'a';
    } else if cfg.includeUppercase {
      survivor := Uppercase[0];
      assert survivor == 'A';
    } else {
      survivor := Digits[2];
      assert survivor == '2';
    }
    AssembledMembership(cfg, survivor);
    assert survivor in Assembled(cfg);
    if cfg.excludeAmbiguous {
      assert survivor !in Ambiguous;
      assert survivor in Without(Assembled(cfg), Ambiguous);
    }
    assert survivor in Pool(cfg);
  }

  /** With symbols as the only class, the pool is empty exactly when the custom
      string is all look-alikes and those are excluded. */
  lemma SymbolsOnly(cfg: Config)
    requires !cfg.includeLowercase && !cfg.includeUppercase && !cfg.includeNumbers
    requires cfg.includeSymbols
    ensures Pool(cfg) == [] <==>
      cfg.excludeAmbiguous && cfg.customSymbols != []
      && forall c :: c in cfg.customSymbols ==> c in Ambiguous
  {
    var sym := SymbolClass(cfg.customSymbols);
    assert Assembled(cfg) == sym;
    if cfg.customSymbols == [] {
      assert DefaultSymbols[0] == '!' && '!' !in Ambiguous;
      assert '!' in Pool(cfg);
    } else if !cfg.excludeAmbiguous {
      assert cfg.customSymbols[0] in Pool(cfg);
    } else if forall c :: c in cfg.customSymbols ==> c in Ambiguous {
      if Pool(cfg) != [] {
        assert Pool(cfg)[0] in Pool(cfg);
      }
    } else {
      var c :| c in cfg.customSymbols && c !in Ambiguous;
      assert c in Pool(cfg);
    }
  }

  /** Both ways the pool can end up empty: every class off, and only
      symbols on with a custom string of look-alikes while they are excluded. */
  lemma EmptyPoolExamples(length: nat, quantity: nat)
    ensures Pool(Config(length, false, false, false, false, false, "", quantity)) == []
    ensures Pool(Config(length, false, false, false, true, true, "0O|", quantity)) == []
    ensures Pool(Config(length, false, false, false, true, false, "0O|", quantity)) == "0O|"
  {
    PoolEmptyIff(Config(length, false, false, false, true, true, "0O|", quantity));
  }

  /** With the default symbols, no character occurs twice in the pool: the
      raw pool size and its number of distinct characters coincide. */
  lemma DefaultPoolIsDistinct(cfg: Config)
    requires cfg.customSymbols == []
    ensures Distinct(Pool(cfg))
  {
    ClassRanges();
    ClassesDistinct();
    var lo := Part(cfg.includeLowercase, Lowercase);
    var up := Part(cfg.includeUppercase, Uppercase);
    var di := Part(cfg.includeNumbers, Digits);
    var sy := Part(cfg.includeSymbols, DefaultSymbols);
    DistinctAppend(lo, up);
    DistinctAppend(lo + up, di);
    DistinctAppend(lo + up + di, sy);
    assert Assembled(cfg) == lo + up + di + sy;
    if cfg.excludeAmbiguous {
      WithoutKeepsDistinct(Assembled(cfg), Ambiguous);
    }
  }

  /** No class, the default symbols included, repeats a character. */
  lemma ClassesDistinct()
    ensures Distinct(Lowercase) && Distinct(Uppercase) && Distinct(Digits) && Distinct(DefaultSymbols)
  {
  }

  /** The code runs are the strings Python's `string` module defines. */
  lemma ClassesSpelledOut()
    ensures Lowercase == "abcdefghijklmnopqrstuvwxyz"
    ensures Uppercase == "ABCDEFGHIJKLMNOPQRSTUVWXYZ"
    ensures Digits == "0123456789"
  {
  }
}
