/** Properties of `convert` (engine/composer.py:270-323) and of the table it
    reads: which lengths are tried, which rule wins at each cursor position,
    how the input is cut into pieces, how the harmony state evolves, and what
    happens to characters no pattern mentions. */
module ConversionLemmas {
  import opened Transliteration
  import opened CaseVariantLemmas

  // ---------------------------------------------------------------------------
  // Pattern lengths (engine/composer.py:194-202)

  lemma PatternLengthsConcat(a: seq<Rule>, b: seq<Rule>)
    ensures PatternLengths(a + b) == PatternLengths(a) + PatternLengths(b)
  {
    var ab := a + b;
    forall n | n in PatternLengths(ab) ensures n in PatternLengths(a) + PatternLengths(b) {
      var k :| 0 <= k < |ab| && |ab[k].from| == n;
      if k < |a| { assert ab[k] == a[k]; } else { assert ab[k] == b[k - |a|]; }
    }
    forall n | n in PatternLengths(a) + PatternLengths(b) ensures n in PatternLengths(ab) {
      if n in PatternLengths(a) {
        var k :| 0 <= k < |a| && |a[k].from| == n;
        assert ab[k] == a[k];
      } else {
        var k :| 0 <= k < |b| && |b[k].from| == n;
        assert ab[|a| + k] == b[k];
      }
    }
  }

  /** Expanding case variants never adds a pattern length: the table has the
      same lengths as the rules it was built from. */
  lemma {:induction false} BuildTableLengths(entries: seq<Rule>)
    ensures PatternLengths(BuildTable(entries)) == PatternLengths(entries)
  {
    if entries != [] {
      var init, last := entries[..|entries| - 1], entries[|entries| - 1];
      BuildTableLengths(init);
      PatternLengthsConcat(BuildTable(init), Expand(last));
      var es := Expand(last);
      assert PatternLengths(es) == {|last.from|} by {
        assert es[0] in es;
        forall n | n in PatternLengths(es) ensures n == |last.from| {
          var k :| 0 <= k < |es| && |es[k].from| == n;
          assert es[k] in es;
        }
      }
      assert entries == init + [last];
      PatternLengthsConcat(init, [last]);
      assert PatternLengths([last]) == {|last.from|};
    }
  }

  predicate StrictlyDescending(ls: seq<nat>) {
    forall p, q :: 0 <= p < q < |ls| ==> ls[p] > ls[q]
  }

  /** Two strictly descending sequences with the same elements are equal: the
      length list is determined by the set of lengths. */
  lemma {:induction false} DescendingUnique(a: seq<nat>, b: seq<nat>)
    requires StrictlyDescending(a) && StrictlyDescending(b)
    requires forall x :: x in a <==> x in b
    ensures a == b
    decreases |a|
  {
    HeadIsMax(a);
    HeadIsMax(b);
    if a != [] && b != [] {
      assert a[0] == b[0];
      forall x ensures x in a[1..] <==> x in b[1..] {
        if x in a[1..] {
          var p :| 1 <= p < |a| && a[p] == x;
          assert x < a[0] && x in b;
          var q :| 0 <= q < |b| && b[q] == x;
          assert q != 0;
          assert b[1..][q - 1] == x;
        }
        if x in b[1..] {
          var q :| 1 <= q < |b| && b[q] == x;
          assert x < b[0] && x in a;
          var p :| 0 <= p < |a| && a[p] == x;
          assert p != 0;
          assert a[1..][p - 1] == x;
        }
      }
      DescendingUnique(a[1..], b[1..]);
      assert a == [a[0]] + a[1..] && b == [b[0]] + b[1..];
    }
  }

  /** The head of a strictly descending sequence is its largest element. */
  lemma HeadIsMax(a: seq<nat>)
    requires StrictlyDescending(a)
    ensures a != [] ==> a[0] in a && forall x :: x in a ==> x <= a[0]
  {
    forall x | x in a ensures x <= a[0] {
      var p :| 0 <= p < |a| && a[p] == x;
      assert p == 0 || a[0] > a[p];
    }
  }

  predicate ShortPatterns(rules: seq<Rule>) {
    forall k :: 0 <= k < |rules| ==> 1 <= |rules[k].from| <= 3
  }

  lemma ShortConcat(a: seq<Rule>, b: seq<Rule>)
    requires ShortPatterns(a) && ShortPatterns(b)
    ensures ShortPatterns(a + b)
  {
    forall k | 0 <= k < |a + b| ensures 1 <= |(a + b)[k].from| <= 3 {
      if k < |a| { assert (a + b)[k] == a[k]; } else { assert (a + b)[k] == b[k - |a|]; }
    }
  }

  /** Every group of the table has patterns of one to three characters. */
  lemma GroupsShort()
    ensures ShortPatterns(CyrillicKeyRules)
    ensures ShortPatterns(LettersAToN)
    ensures ShortPatterns(MasculineORules)
    ensures ShortPatterns(FeminineORules)
    ensures ShortPatterns(LettersPToT)
    ensures ShortPatterns(MasculineURules)
    ensures ShortPatterns(FeminineURules)
    ensures ShortPatterns(LettersVToZ)
    ensures ShortPatterns(SignRules)
  {
  }

  lemma CanonicalShort()
    ensures ShortPatterns(CanonicalRules)
  {
    var g1, g2, g3, g4, g5, g6, g7, g8, g9 := CyrillicKeyRules, LettersAToN, MasculineORules,
      FeminineORules, LettersPToT, MasculineURules, FeminineURules, LettersVToZ, SignRules;
    GroupsShort();
    ShortConcat(g1, g2);
    ShortConcat(g1 + g2, g3);
    ShortConcat(g1 + g2 + g3, g4);
    ShortConcat(g1 + g2 + g3 + g4, g5);
    ShortConcat(g1 + g2 + g3 + g4 + g5, g6);
    ShortConcat(g1 + g2 + g3 + g4 + g5 + g6, g7);
    ShortConcat(g1 + g2 + g3 + g4 + g5 + g6 + g7, g8);
    ShortConcat(g1 + g2 + g3 + g4 + g5 + g6 + g7 + g8, g9);
  }

  lemma LengthsGrow(a: seq<Rule>, b: seq<Rule>)
    ensures PatternLengths(a) <= PatternLengths(a + b)
    ensures PatternLengths(b) <= PatternLengths(a + b)
  {
    PatternLengthsConcat(a, b);
  }

  lemma ShortLengths(rules: seq<Rule>)
    requires ShortPatterns(rules)
    ensures PatternLengths(rules) <= {1, 2, 3}
  {
  }

  /** Patterns of length one and two open the table, and "III" is the first of
      length three (engine/composer.py:54-55, :82). */
  lemma LengthWitnesses()
    ensures {1, 2} <= PatternLengths(CyrillicKeyRules) && 3 in PatternLengths(LettersAToN)
  {
    assert |CyrillicKeyRules[0].from| == 1 && |CyrillicKeyRules[1].from| == 2;
    assert |LettersAToN[13].from| == 3;
  }

  /** The canonical patterns are one to three characters long, and every such
      length occurs. */
  lemma CanonicalPatternLengths()
    ensures PatternLengths(CanonicalRules) == {1, 2, 3}
  {
    CanonicalShort();
    ShortLengths(CanonicalRules);
    LengthWitnesses();
    var g1, g2, g3, g4, g5, g6, g7, g8, g9 := CyrillicKeyRules, LettersAToN, MasculineORules,
      FeminineORules, LettersPToT, MasculineURules, FeminineURules, LettersVToZ, SignRules;
    LengthsGrow(g1, g2);
    LengthsGrow(g1 + g2, g3);
    LengthsGrow(g1 + g2 + g3, g4);
    LengthsGrow(g1 + g2 + g3 + g4, g5);
    LengthsGrow(g1 + g2 + g3 + g4 + g5, g6);
    LengthsGrow(g1 + g2 + g3 + g4 + g5 + g6, g7);
    LengthsGrow(g1 + g2 + g3 + g4 + g5 + g6 + g7, g8);
    LengthsGrow(g1 + g2 + g3 + g4 + g5 + g6 + g7 + g8, g9);
  }

  /** `_compute_rule_lengths` on the canonical table leaves [3, 2, 1]: every
      conversion step tries three characters, then two, then one. */
  lemma TableLengthsAreThreeTwoOne()
    ensures TableLengths() == [3, 2, 1]
  {
    BuildTableLengths(CanonicalRules);
    CanonicalPatternLengths();
    SortedOneTwoThree(PatternLengths(Table()));
  }

  lemma SortedOneTwoThree(s: set<nat>)
    requires s == {1, 2, 3}
    ensures SortedDescending(s) == [3, 2, 1]
  {
    var ls := SortedDescending(s);
    assert forall x :: x in ls <==> x in [3, 2, 1];
    DescendingUnique(ls, [3, 2, 1]);
  }

  // ---------------------------------------------------------------------------
  // Longest match, first rule (engine/composer.py:287-305)

  /** Some rule of the table fires on the n characters at cursor i. */
  ghost predicate Applicable(rules: seq<Rule>, text: string, i: nat, n: nat, g: Gender) {
    i + n <= |text| && exists k :: 0 <= k < |rules| && Fires(rules[k], text[i..i + n], g)
  }

  /** Over a strictly descending length list, the length loop finds the
      longest listed length at which some rule fires, and the first such rule
      in table order; when it finds none, no listed length applies. */
  lemma {:induction false} MatchAtLongest(rules: seq<Rule>, lengths: seq<nat>, text: string,
                                         i: nat, g: Gender, j: nat)
    requires i <= |text| && j <= |lengths| && StrictlyDescending(lengths)
    ensures var r := MatchAt(rules, lengths, text, i, g, j);
      r.Some? ==>
        (forall k' :: 0 <= k' < r.value.index ==> !Fires(rules[k'], text[i..i + r.value.len], g))
        && (forall q :: j <= q < |lengths| && lengths[q] > r.value.len ==>
              !Applicable(rules, text, i, lengths[q], g))
    ensures MatchAt(rules, lengths, text, i, g, j).None? ==>
              forall q :: j <= q < |lengths| ==> !Applicable(rules, text, i, lengths[q], g)
    decreases |lengths| - j
  {
    if j < |lengths| {
      var n0 := lengths[j];
      if i + n0 > |text| || FirstFiring(rules, text[i..i + n0], g, 0).None? {
        MatchAtLongest(rules, lengths, text, i, g, j + 1);
        NotApplicableHere(rules, text, i, n0, g);
      }
    }
  }

  lemma NotApplicableHere(rules: seq<Rule>, text: string, i: nat, n: nat, g: Gender)
    requires i + n > |text| || FirstFiring(rules, text[i..i + n], g, 0).None?
    ensures !Applicable(rules, text, i, n, g)
  {
  }

  /** The step at cursor i is the longest match of the conversion, starting
      in harmony state g: the rule that fired is the first in table order to
      fire on the longest piece at which any rule fires; when none fires at
      any length, the cursor's character is copied and the state kept. */
  ghost predicate IsLongestMatchStep(rules: seq<Rule>, text: string, i: nat, g: Gender, s: Step) {
    i < |text| && s.before == g &&
    match s.rule
    case Some(k) =>
      var n := |s.consumed|;
      0 <= k < |rules| && i + n <= |text| && s.consumed == text[i..i + n]
      && Fires(rules[k], s.consumed, g)
      && (forall k' :: 0 <= k' < k ==> !Fires(rules[k'], s.consumed, g))
      && (forall n' :: n < n' <= |text| - i ==> !Applicable(rules, text, i, n', g))
      && s.produced == rules[k].to && s.after == NextGender(g, rules[k].flags)
    case None =>
      s.consumed == [text[i]] && s.produced == [text[i]] && s.after == g
      && (forall n' :: 0 <= n' <= |text| - i ==> !Applicable(rules, text, i, n', g))
  }

  /** A length at which some rule fires is one of the table's pattern lengths. */
  lemma ApplicableIsListed(rules: seq<Rule>, text: string, i: nat, n: nat, g: Gender)
    requires Applicable(rules, text, i, n, g)
    ensures n in SortedDescending(PatternLengths(rules))
  {
    var k :| 0 <= k < |rules| && Fires(rules[k], text[i..i + n], g);
    assert |rules[k].from| == n;
  }

  /** No length beyond the listed ones can apply, so what the length loop
      rules out for listed lengths holds for every length. */
  lemma LongerNotApplicable(rules: seq<Rule>, text: string, i: nat, g: Gender, n: nat)
    requires i <= |text|
    requires var ls := SortedDescending(PatternLengths(rules));
      forall q :: 0 <= q < |ls| && ls[q] > n ==> !Applicable(rules, text, i, ls[q], g)
    ensures forall n' :: n < n' <= |text| - i ==> !Applicable(rules, text, i, n', g)
  {
    var ls := SortedDescending(PatternLengths(rules));
    forall n': nat | n < n' <= |text| - i ensures !Applicable(rules, text, i, n', g) {
      if Applicable(rules, text, i, n', g) {
        ApplicableIsListed(rules, text, i, n', g);
      }
    }
  }

  lemma NoneNotApplicable(rules: seq<Rule>, text: string, i: nat, g: Gender)
    requires i <= |text|
    requires var ls := SortedDescending(PatternLengths(rules));
      forall q :: 0 <= q < |ls| ==> !Applicable(rules, text, i, ls[q], g)
    ensures forall n' :: 0 <= n' <= |text| - i ==> !Applicable(rules, text, i, n', g)
  {
    var ls := SortedDescending(PatternLengths(rules));
    forall n': nat | n' <= |text| - i ensures !Applicable(rules, text, i, n', g) {
      if Applicable(rules, text, i, n', g) {
        ApplicableIsListed(rules, text, i, n', g);
      }
    }
  }

  /** With the length list `_compute_rule_lengths` builds, each conversion
      step is the longest match. */
  lemma StepIsLongestMatch(rules: seq<Rule>, text: string, i: nat, g: Gender)
    requires NonEmptyPatterns(rules) && i < |text|
    ensures IsLongestMatchStep(rules, text, i, g,
                               StepAt(rules, SortedDescending(PatternLengths(rules)), text, i, g))
  {
    var ls := SortedDescending(PatternLengths(rules));
    MatchAtLongest(rules, ls, text, i, g, 0);
    var r := MatchAt(rules, ls, text, i, g, 0);
    if r.Some? {
      LongerNotApplicable(rules, text, i, g, r.value.len);
      FiredStepIsLongest(rules, ls, text, i, g);
    } else {
      NoneNotApplicable(rules, text, i, g);
      CopiedStepIsLongest(rules, ls, text, i, g);
    }
  }

  lemma FiredStepIsLongest(rules: seq<Rule>, lengths: seq<nat>, text: string, i: nat, g: Gender)
    requires NonEmptyPatterns(rules) && i < |text|
    requires var r := MatchAt(rules, lengths, text, i, g, 0);
      r.Some?
      && (forall k' :: 0 <= k' < r.value.index ==> !Fires(rules[k'], text[i..i + r.value.len], g))
      && (forall n' :: r.value.len < n' <= |text| - i ==> !Applicable(rules, text, i, n', g))
    ensures IsLongestMatchStep(rules, text, i, g, StepAt(rules, lengths, text, i, g))
  {
  }

  lemma CopiedStepIsLongest(rules: seq<Rule>, lengths: seq<nat>, text: string, i: nat, g: Gender)
    requires NonEmptyPatterns(rules) && i < |text|
    requires MatchAt(rules, lengths, text, i, g, 0).None?
    requires forall n' :: 0 <= n' <= |text| - i ==> !Applicable(rules, text, i, n', g)
    ensures IsLongestMatchStep(rules, text, i, g, StepAt(rules, lengths, text, i, g))
  {
  }

  /** A step that fired a rule shows that its length applies. */
  lemma FiredIsApplicable(rules: seq<Rule>, text: string, i: nat, g: Gender, s: Step)
    requires IsLongestMatchStep(rules, text, i, g, s)
    ensures s.rule.Some? ==> Applicable(rules, text, i, |s.consumed|, g)
  {
  }

  /** The longest-match description leaves no choice: at most one step meets it. */
  lemma LongestMatchStepUnique(rules: seq<Rule>, text: string, i: nat, g: Gender, s1: Step, s2: Step)
    requires IsLongestMatchStep(rules, text, i, g, s1) && IsLongestMatchStep(rules, text, i, g, s2)
    ensures s1 == s2
  {
    FiredIsApplicable(rules, text, i, g, s1);
    FiredIsApplicable(rules, text, i, g, s2);
    if s1.rule.Some? && s2.rule.Some? {
      var n1, n2 := |s1.consumed|, |s2.consumed|;
      assert n1 == n2;
      var k1, k2 := s1.rule.value, s2.rule.value;
      assert !(k1 < k2) && !(k2 < k1);
    }
  }

  // ---------------------------------------------------------------------------
  // The whole scan (engine/composer.py:281-323)

  /** The harmony state after a step: the fired rule's flags decide it. */
  function StateAfter(rules: seq<Rule>, s: Step): Gender {
    if s.rule.Some? && s.rule.value < |rules| then NextGender(s.before, rules[s.rule.value].flags)
    else s.before
  }

  /** The steps ss read text from cursor i on, starting in state g: each
      consumes a non-empty piece of text where the previous one stopped, starts
      in the state the previous one left, and leaves the state its rule sets;
      together they reach the end of the text. */
  ghost predicate Chained(rules: seq<Rule>, text: string, i: nat, g: Gender, ss: seq<Step>)
    decreases |ss|
  {
    if ss == [] then i == |text|
    else
      var n := |ss[0].consumed|;
      1 <= n && i + n <= |text| && ss[0].consumed == text[i..i + n]
      && ss[0].before == g && ss[0].after == StateAfter(rules, ss[0])
      && Chained(rules, text, i + n, ss[0].after, ss[1..])
  }

  lemma {:induction false} ScanIsChained(rules: seq<Rule>, lengths: seq<nat>, text: string, i: nat, g: Gender)
    requires NonEmptyPatterns(rules) && i <= |text|
    ensures Chained(rules, text, i, g, Scan(rules, lengths, text, i, g))
    decreases |text| - i
  {
    if i < |text| {
      var s, rest := ScanHead(rules, lengths, text, i, g);
      ScanIsChained(rules, lengths, text, i + |s.consumed|, s.after);
      ChainedCons(rules, text, i, g, s, rest);
    } else {
      ScanAtEnd(rules, lengths, text, i, g);
    }
  }

  lemma ScanAtEnd(rules: seq<Rule>, lengths: seq<nat>, text: string, i: nat, g: Gender)
    requires NonEmptyPatterns(rules) && i == |text|
    ensures Scan(rules, lengths, text, i, g) == []
  {
  }

  /** The first iteration of a scan that has not reached the end, and the scan after it. */
  lemma ScanHead(rules: seq<Rule>, lengths: seq<nat>, text: string, i: nat, g: Gender)
    returns (s: Step, rest: seq<Step>)
    requires NonEmptyPatterns(rules) && i < |text|
    ensures 1 <= |s.consumed| && i + |s.consumed| <= |text| && s.consumed == text[i..i + |s.consumed|]
    ensures s.before == g && s.after == StateAfter(rules, s)
    ensures Scan(rules, lengths, text, i, g) == [s] + rest
    ensures rest == Scan(rules, lengths, text, i + |s.consumed|, s.after)
  {
    s := StepAt(rules, lengths, text, i, g);
    rest := Scan(rules, lengths, text, i + |s.consumed|, s.after);
  }

  /** Prefixing a step that reads text where the chain starts keeps it chained. */
  lemma ChainedCons(rules: seq<Rule>, text: string, i: nat, g: Gender, s: Step, rest: seq<Step>)
    requires 1 <= |s.consumed| && i + |s.consumed| <= |text| && s.consumed == text[i..i + |s.consumed|]
    requires s.before == g && s.after == StateAfter(rules, s)
    requires Chained(rules, text, i + |s.consumed|, s.after, rest)
    ensures Chained(rules, text, i, g, [s] + rest)
  {
    assert ([s] + rest)[0] == s && ([s] + rest)[1..] == rest;
  }

  lemma {:induction false} ChainedConsumed(rules: seq<Rule>, text: string, i: nat, g: Gender, ss: seq<Step>)
    requires Chained(rules, text, i, g, ss)
    ensures i <= |text| && Consumed(ss) == text[i..]
    decreases |ss|
  {
    if ss == [] {
      assert text[i..] == [];
    } else {
      var n := |ss[0].consumed|;
      ChainedConsumed(rules, text, i + n, ss[0].after, ss[1..]);
      SliceSplit(text, i, i + n);
    }
  }

  lemma {:induction false} ChainedSteps(rules: seq<Rule>, text: string, i: nat, g: Gender, ss: seq<Step>)
    requires Chained(rules, text, i, g, ss)
    ensures ss != [] ==> ss[0].before == g
    ensures forall t :: 0 <= t < |ss| ==> |ss[t].consumed| >= 1 && ss[t].after == StateAfter(rules, ss[t])
    ensures forall t :: 0 < t < |ss| ==> ss[t].before == ss[t - 1].after
    decreases |ss|
  {
    if ss != [] {
      var rest := ss[1..];
      ChainedSteps(rules, text, i + |ss[0].consumed|, ss[0].after, rest);
      forall t | 0 < t < |ss| ensures ss[t] == rest[t - 1] {
      }
    }
  }

  lemma SliceSplit(text: string, i: nat, j: nat)
    requires i <= j <= |text|
    ensures text[i..] == text[i..j] + text[j..]
  {
  }

  /** The pieces the loop consumes are non-empty and add up to the input, and
      each step starts in the state the previous one left. */
  lemma ScanFacts(rules: seq<Rule>, lengths: seq<nat>, text: string, i: nat, g: Gender)
    requires NonEmptyPatterns(rules) && i <= |text|
    ensures var ss := Scan(rules, lengths, text, i, g);
      Consumed(ss) == text[i..]
      && (ss != [] ==> ss[0].before == g)
      && (forall t :: 0 <= t < |ss| ==> |ss[t].consumed| >= 1 && ss[t].after == StateAfter(rules, ss[t]))
      && (forall t :: 0 < t < |ss| ==> ss[t].before == ss[t - 1].after)
  {
    var ss := Scan(rules, lengths, text, i, g);
    ScanIsChained(rules, lengths, text, i, g);
    ChainedConsumed(rules, text, i, g, ss);
    ChainedSteps(rules, text, i, g, ss);
  }

  lemma ScanCons(rules: seq<Rule>, lengths: seq<nat>, text: string, i: nat, g: Gender)
    requires NonEmptyPatterns(rules) && i < |text|
    ensures var s := StepAt(rules, lengths, text, i, g);
      Scan(rules, lengths, text, i, g) == [s] + Scan(rules, lengths, text, i + |s.consumed|, s.after)
  {
  }

  /** `convert`'s loop, one iteration at a time: from every cursor before the
      end, the loop takes the longest match there and then goes on from where
      that match stops, in the state it leaves. */
  lemma ScanIsLongestMatch(rules: seq<Rule>, text: string, i: nat, g: Gender)
    requires NonEmptyPatterns(rules) && i < |text|
    ensures var ls := SortedDescending(PatternLengths(rules));
      var s := StepAt(rules, ls, text, i, g);
      IsLongestMatchStep(rules, text, i, g, s)
      && Scan(rules, ls, text, i, g) == [s] + Scan(rules, ls, text, i + |s.consumed|, s.after)
  {
    ScanCons(rules, SortedDescending(PatternLengths(rules)), text, i, g);
    StepIsLongestMatch(rules, text, i, g);
  }

  /** A fired rule that sets the word's harmony. */
  predicate SetsHarmony(rules: seq<Rule>, s: Step) {
    s.rule.Some? && s.rule.value < |rules|
    && (rules[s.rule.value].flags & X_MF != 0 || rules[s.rule.value].flags & X_MM != 0)
  }

  /** The harmony of the last step among ss that set it, masculine when none did. */
  function LastSetHarmony(rules: seq<Rule>, ss: seq<Step>): Gender {
    if ss == [] then Masculine
    else
      var s := ss[|ss| - 1];
      if SetsHarmony(rules, s) then
        (if rules[s.rule.value].flags & X_MF != 0 then Feminine else Masculine)
      else LastSetHarmony(rules, ss[..|ss| - 1])
  }

  lemma {:induction false} HarmonyAt(rules: seq<Rule>, lengths: seq<nat>, text: string, t: nat)
    requires NonEmptyPatterns(rules) && t < |Scan(rules, lengths, text, 0, Masculine)|
    ensures var ss := Scan(rules, lengths, text, 0, Masculine);
      ss[t].before == LastSetHarmony(rules, ss[..t])
  {
    var ss := Scan(rules, lengths, text, 0, Masculine);
    ScanFacts(rules, lengths, text, 0, Masculine);
    if t == 0 {
      assert ss[..0] == [];
    } else {
      HarmonyAt(rules, lengths, text, t - 1);
      assert ss[..t][..t - 1] == ss[..t - 1];
      assert ss[..t][t - 1] == ss[t - 1];
    }
  }

  /** A word starts masculine; each step runs in the harmony set by the most
      recent rule that carried X_MF (feminine) or X_MM (masculine). */
  lemma HarmonyIsLastSetter(rules: seq<Rule>, lengths: seq<nat>, text: string)
    requires NonEmptyPatterns(rules)
    ensures var ss := Scan(rules, lengths, text, 0, Masculine);
      forall t :: 0 <= t < |ss| ==> ss[t].before == LastSetHarmony(rules, ss[..t])
  {
    var ss := Scan(rules, lengths, text, 0, Masculine);
    forall t | 0 <= t < |ss| ensures ss[t].before == LastSetHarmony(rules, ss[..t]) {
      HarmonyAt(rules, lengths, text, t);
    }
  }

  // ---------------------------------------------------------------------------
  // Characters no pattern mentions (engine/composer.py:318-320)

  /** A character that occurs in no pattern of the table. */
  ghost predicate Unmentioned(rules: seq<Rule>, c: char) {
    forall k, q :: 0 <= k < |rules| && 0 <= q < |rules[k].from| ==> rules[k].from[q] != c
  }

  lemma NoMatchAtUnmentioned(rules: seq<Rule>, lengths: seq<nat>, text: string, i: nat, g: Gender)
    requires NonEmptyPatterns(rules) && i < |text| && Unmentioned(rules, text[i])
    ensures MatchAt(rules, lengths, text, i, g, 0).None?
  {
    var m := MatchAt(rules, lengths, text, i, g, 0);
    if m.Some? {
      assert false;
    }
  }

  /** Where no rule matches, the step copies the cursor's character. */
  lemma CopyStep(rules: seq<Rule>, lengths: seq<nat>, text: string, i: nat, g: Gender)
    requires NonEmptyPatterns(rules) && i < |text| && MatchAt(rules, lengths, text, i, g, 0).None?
    ensures Output(Scan(rules, lengths, text, i, g)) == [text[i]] + Output(Scan(rules, lengths, text, i + 1, g))
  {
    var s := StepAt(rules, lengths, text, i, g);
    assert s == Step([text[i]], [text[i]], None, g, g);
    OutputCons(s, Scan(rules, lengths, text, i + 1, g));
  }

  /** Text made of characters no pattern mentions is copied through unchanged. */
  lemma {:induction false} PassThrough(rules: seq<Rule>, lengths: seq<nat>, text: string, i: nat, g: Gender)
    requires NonEmptyPatterns(rules) && i <= |text|
    requires forall p :: i <= p < |text| ==> Unmentioned(rules, text[p])
    ensures Output(Scan(rules, lengths, text, i, g)) == text[i..]
    decreases |text| - i
  {
    assert i < |text| ==> text[i..] == [text[i]] + text[i + 1..];
    if i < |text| {
      NoMatchAtUnmentioned(rules, lengths, text, i, g);
      PassThrough(rules, lengths, text, i + 1, g);
      CopyStep(rules, lengths, text, i, g);
    } else {
      assert text[i..] == [];
    }
  }

  /** A character a canonical pattern can contain: a letter of the finite
      alphabet, or one of the two modifier keys. */
  predicate PatternChar(c: char) { IsAlpha(c) || c == '\'' || c == '"' }

  predicate RuleChars(r: Rule) {
    forall p :: 0 <= p < |r.from| ==> PatternChar(r.from[p])
  }

  predicate PatternCharsOnly(rules: seq<Rule>) {
    forall k :: 0 <= k < |rules| ==> RuleChars(rules[k])
  }

  lemma CaseKeepsPatternChar(c: char, upper: bool)
    requires PatternChar(c)
    ensures PatternChar(Case(c, upper))
  {
  }

  lemma VariantPatternChars(r: Rule, c: seq<bool>)
    requires RuleChars(r) && |c| == AlphaCount(r.from)
    ensures RuleChars(CaseVariant(r, c))
  {
    CasedPatternLength(r.from, c);
    forall p | 0 <= p < |r.from| ensures PatternChar(CasedPattern(r.from, c)[p]) {
      CasedPatternAt(r.from, c, p);
      if IsAlpha(r.from[p]) {
        CaseKeepsPatternChar(r.from[p], c[AlphaCount(r.from[..p])]);
      }
    }
  }

  lemma ExpandPatternChars(r: Rule)
    requires RuleChars(r)
    ensures PatternCharsOnly(Expand(r))
  {
    if AllowsCase(r.flags) {
      ExpandIsAllCaseChoices(r);
      var cs := Choices(AlphaCount(r.from));
      forall k | 0 <= k < |Expand(r)| ensures RuleChars(Expand(r)[k]) {
        VariantPatternChars(r, cs[k]);
      }
    }
  }

  lemma {:induction false} BuildTablePatternChars(entries: seq<Rule>)
    requires PatternCharsOnly(entries)
    ensures PatternCharsOnly(BuildTable(entries))
  {
    if entries != [] {
      var init, last := entries[..|entries| - 1], entries[|entries| - 1];
      BuildTablePatternChars(init);
      ExpandPatternChars(last);
      var t: seq<Rule> := BuildTable(init);
      var es: seq<Rule> := Expand(last);
      forall k | 0 <= k < |t + es| ensures RuleChars((t + es)[k]) {
        if k >= |t| { assert (t + es)[k] == es[k - |t|]; } else { assert (t + es)[k] == t[k]; }
      }
    }
  }

  lemma CharsConcat(a: seq<Rule>, b: seq<Rule>)
    requires PatternCharsOnly(a) && PatternCharsOnly(b)
    ensures PatternCharsOnly(a + b)
  {
    forall k | 0 <= k < |a + b| ensures RuleChars((a + b)[k]) {
      if k < |a| { assert (a + b)[k] == a[k]; } else { assert (a + b)[k] == b[k - |a|]; }
    }
  }

  /** Every group of the table spells its patterns with letters and quotes only. */
  lemma PatternCharsFirst()
    ensures PatternCharsOnly(CyrillicKeyRules)
    ensures PatternCharsOnly(LettersAToN)
  {
  }

  lemma PatternCharsMiddle()
    ensures PatternCharsOnly(MasculineORules)
    ensures PatternCharsOnly(FeminineORules)
    ensures PatternCharsOnly(LettersPToT)
  {
  }

  lemma PatternCharsLast()
    ensures PatternCharsOnly(MasculineURules)
    ensures PatternCharsOnly(FeminineURules)
    ensures PatternCharsOnly(LettersVToZ)
    ensures PatternCharsOnly(SignRules)
  {
  }

  lemma CanonicalPatternChars()
    ensures PatternCharsOnly(Table())
  {
    var g1, g2, g3, g4, g5, g6, g7, g8, g9 := CyrillicKeyRules, LettersAToN, MasculineORules,
      FeminineORules, LettersPToT, MasculineURules, FeminineURules, LettersVToZ, SignRules;
    PatternCharsFirst();
    PatternCharsMiddle();
    PatternCharsLast();
    CharsConcat(g1, g2);
    CharsConcat(g1 + g2, g3);
    CharsConcat(g1 + g2 + g3, g4);
    CharsConcat(g1 + g2 + g3 + g4, g5);
    CharsConcat(g1 + g2 + g3 + g4 + g5, g6);
    CharsConcat(g1 + g2 + g3 + g4 + g5 + g6, g7);
    CharsConcat(g1 + g2 + g3 + g4 + g5 + g6 + g7, g8);
    CharsConcat(g1 + g2 + g3 + g4 + g5 + g6 + g7 + g8, g9);
    BuildTablePatternChars(CanonicalRules);
  }

  /** Digits, spaces, punctuation other than the two modifiers, and any
      character outside the alphabet are copied through by `convert`. */
  lemma TransliteratePassesThrough(text: string)
    requires forall p :: 0 <= p < |text| ==> !PatternChar(text[p])
    ensures Transliterate(text) == text
  {
    CanonicalNonEmpty();
    CanonicalPatternChars();
    var rules := Table();
    forall p | 0 <= p < |text| ensures Unmentioned(rules, text[p]) {
      forall k, q | 0 <= k < |rules| && 0 <= q < |rules[k].from| ensures rules[k].from[q] != text[p] {
        assert RuleChars(rules[k]);
      }
    }
    PassThrough(rules, TableLengths(), text, 0, Masculine);
    assert text[0..] == text;
  }
}
