/** How the canonical table uses vowel harmony to tell the two o's and the two
    u's apart (engine/composer.py:90-127): a bare o or u, in either case, is
    replaced by О/У in a masculine word and by Ө/Ү in a feminine one. */
module TableHarmony {
  import opened Transliteration
  import opened CaseVariantLemmas

  /** The replacement of the first rule in table order that fires on sub in
      state g, as the inner loop of `convert` finds it. */
  function FirstReplacement(rules: seq<Rule>, sub: string, g: Gender): (r: Option<string>)
    ensures r.Some? <==> exists k :: 0 <= k < |rules| && Fires(rules[k], sub, g)
    ensures r.Some? ==> exists k :: 0 <= k < |rules| && Fires(rules[k], sub, g) && rules[k].to == r.value
  {
    match FirstFiring(rules, sub, g, 0)
    case Some(k) => Some(rules[k].to)
    case None => None
  }

  lemma {:induction false} BuildTableConcat(a: seq<Rule>, b: seq<Rule>)
    ensures BuildTable(a + b) == BuildTable(a) + BuildTable(b)
    decreases |b|
  {
    if b == [] {
      assert a + b == a;
    } else {
      var init, last := b[..|b| - 1], b[|b| - 1];
      assert (a + b)[..|a + b| - 1] == a + init;
      assert (a + b)[|a + b| - 1] == last;
      BuildTableConcat(a, init);
    }
  }

  /** Looking up a concatenation looks in the first part, then in the second. */
  lemma FirstReplacementConcat(a: seq<Rule>, b: seq<Rule>, sub: string, g: Gender)
    ensures FirstReplacement(a + b, sub, g)
            == if FirstReplacement(a, sub, g).Some? then FirstReplacement(a, sub, g)
               else FirstReplacement(b, sub, g)
  {
    var ab := a + b;
    var r := FirstFiring(ab, sub, g, 0);
    match FirstFiring(a, sub, g, 0)
    case Some(k) =>
      assert ab[k] == a[k];
      assert r.Some? && r.value <= k;
      assert a[r.value] == ab[r.value];
    case None =>
      forall k | 0 <= k < |a| ensures !Fires(ab[k], sub, g) {
        assert ab[k] == a[k];
      }
      match FirstFiring(b, sub, g, 0)
      case Some(k) =>
        assert ab[|a| + k] == b[k];
        assert r.Some? && |a| <= r.value <= |a| + k;
        assert ab[r.value] == b[r.value - |a|];
      case None =>
        forall k | 0 <= k < |ab| ensures !Fires(ab[k], sub, g) {
          if k >= |a| { assert ab[k] == b[k - |a|]; }
        }
  }

  /** Looking up the table of a concatenation of canonical rules. */
  lemma ChainStep(a: seq<Rule>, b: seq<Rule>, sub: string, g: Gender)
    ensures FirstReplacement(BuildTable(a + b), sub, g)
            == if FirstReplacement(BuildTable(a), sub, g).Some? then FirstReplacement(BuildTable(a), sub, g)
               else FirstReplacement(BuildTable(b), sub, g)
  {
    BuildTableConcat(a, b);
    FirstReplacementConcat(BuildTable(a), BuildTable(b), sub, g);
  }

  /** Neither c nor its upper- or lower-case form is d. */
  predicate CannotBecome(c: char, d: char) { d != c && d != Upper(c) && d != Lower(c) }

  /** No case variant of r fires on the non-empty sub in state g: r is not
      valid in g, or its pattern has the wrong length, or its first character
      cannot be cased into sub's. */
  predicate Misses(r: Rule, sub: string, g: Gender) {
    !ValidIn(r.flags, g) || |r.from| != |sub| || (|sub| >= 1 && CannotBecome(r.from[0], sub[0]))
  }

  lemma ExpandMisses(r: Rule, sub: string, g: Gender)
    requires Misses(r, sub, g)
    ensures FirstReplacement(Expand(r), sub, g).None?
  {
    var es := Expand(r);
    forall k | 0 <= k < |es| ensures !Fires(es[k], sub, g) {
      if AllowsCase(r.flags) && ValidIn(r.flags, g) && |r.from| == |sub| && |sub| >= 1 {
        ExpandIsAllCaseChoices(r);
        var c := Choices(AlphaCount(r.from))[k];
        assert es[k] == CaseVariant(r, c);
        CasedPatternAt(r.from, c, 0);
        assert r.from[..0] == [];
        assert es[k].from[0] != sub[0];
      } else {
        assert es[k] in es;
      }
    }
  }

  lemma {:induction false} BuildTableMisses(entries: seq<Rule>, sub: string, g: Gender)
    requires forall k :: 0 <= k < |entries| ==> Misses(entries[k], sub, g)
    ensures FirstReplacement(BuildTable(entries), sub, g).None?
  {
    if entries != [] {
      var init, last := entries[..|entries| - 1], entries[|entries| - 1];
      BuildTableMisses(init, sub, g);
      ExpandMisses(last, sub, g);
      FirstReplacementConcat(BuildTable(init), Expand(last), sub, g);
    }
  }

  /** A one-letter rule with case variants yields its upper-case form first and
      its lower-case form second. */
  lemma LetterVariants(v: char, w: char, flags: Flags)
    requires IsAlpha(v) && AllowsCase(flags)
    ensures Expand(Rule([v], [w], flags))
            == [Rule([Upper(v)], [Upper(w)], flags), Rule([Lower(v)], [Lower(w)], flags)]
  {
    var up := CaseVariants([v], [w], flags, 1, 1, [Upper(v)], [Upper(w)]);
    var low := CaseVariants([v], [w], flags, 1, 1, [Lower(v)], [Lower(w)]);
    assert up == [Rule([Upper(v)], [Upper(w)], flags)];
    assert low == [Rule([Lower(v)], [Lower(w)], flags)];
    assert "" + [Upper(v)] == [Upper(v)] && "" + [Lower(v)] == [Lower(v)];
    assert "" + [Upper(w)] == [Upper(w)] && "" + [Lower(w)] == [Lower(w)];
  }

  /** Looking up that letter, in either case, finds the replacement in the
      same case: the upper-case entry comes first and the lower-case one second. */
  lemma LetterHit(v: char, w: char, flags: Flags, g: Gender, upper: bool)
    requires IsAlpha(v) && AllowsCase(flags) && ValidIn(flags, g) && Upper(v) != Lower(v)
    ensures FirstReplacement(Expand(Rule([v], [w], flags)), [Case(v, upper)], g) == Some([Case(w, upper)])
  {
    LetterVariants(v, w, flags);
    var es := Expand(Rule([v], [w], flags));
    var s := [Case(v, upper)];
    var r := FirstFiring(es, s, g, 0);
    if upper {
      assert Fires(es[0], s, g);
      assert r == Some(0);
    } else {
      assert !Fires(es[0], s, g);
      assert Fires(es[1], s, g);
      assert r == Some(1);
    }
  }

  /** A group whose first rule is such a letter rule, valid in g, answers the
      lookup of that letter with that rule's replacement. */
  lemma GroupHit(entries: seq<Rule>, g: Gender, upper: bool)
    requires entries != [] && |entries[0].from| == 1 && |entries[0].to| == 1
    requires var r := entries[0];
      IsAlpha(r.from[0]) && AllowsCase(r.flags) && ValidIn(r.flags, g) && Upper(r.from[0]) != Lower(r.from[0])
    ensures var r := entries[0];
      FirstReplacement(BuildTable(entries), [Case(r.from[0], upper)], g) == Some([Case(r.to[0], upper)])
  {
    var r := entries[0];
    var v, w := r.from[0], r.to[0];
    assert r == Rule([v], [w], r.flags);
    LetterHit(v, w, r.flags, g, upper);
    HeadTable(entries);
    FirstReplacementConcat(Expand(r), BuildTable(entries[1..]), [Case(v, upper)], g);
  }

  lemma HeadTable(entries: seq<Rule>)
    requires entries != []
    ensures BuildTable(entries) == Expand(entries[0]) + BuildTable(entries[1..])
  {
    var h, rest := entries[0], entries[1..];
    assert entries == [h] + rest;
    BuildTableConcat([h], rest);
    SingleTable(h);
  }

  lemma SingleTable(r: Rule)
    ensures BuildTable([r]) == Expand(r)
  {
    assert [r][..0] == [];
  }

  // ---------------------------------------------------------------------------
  // The groups of the canonical table a lookup of o or u passes through

  lemma OMissedBefore(upper: bool, g: Gender)
    ensures forall k :: 0 <= k < |CyrillicKeyRules| ==> Misses(CyrillicKeyRules[k], [Case('O', upper)], g)
    ensures forall k :: 0 <= k < |LettersAToN| ==> Misses(LettersAToN[k], [Case('O', upper)], g)
  {
  }

  lemma OMissedInMasculineGroup(upper: bool)
    ensures forall k :: 0 <= k < |MasculineORules| ==> Misses(MasculineORules[k], [Case('O', upper)], Feminine)
  {
  }

  lemma UMissedBefore(upper: bool, g: Gender)
    ensures forall k :: 0 <= k < |CyrillicKeyRules| ==> Misses(CyrillicKeyRules[k], [Case('U', upper)], g)
    ensures forall k :: 0 <= k < |LettersAToN| ==> Misses(LettersAToN[k], [Case('U', upper)], g)
  {
  }

  lemma UMissedInOGroups(upper: bool, g: Gender)
    ensures forall k :: 0 <= k < |MasculineORules| ==> Misses(MasculineORules[k], [Case('U', upper)], g)
    ensures forall k :: 0 <= k < |FeminineORules| ==> Misses(FeminineORules[k], [Case('U', upper)], g)
    ensures forall k :: 0 <= k < |LettersPToT| ==> Misses(LettersPToT[k], [Case('U', upper)], g)
  {
  }

  lemma UMissedInMasculineGroup(upper: bool)
    ensures forall k :: 0 <= k < |MasculineURules| ==> Misses(MasculineURules[k], [Case('U', upper)], Feminine)
  {
  }

  /** The groups after the one that answers a lookup do not change the answer. */
  lemma KeepAfterO(sub: string, g: Gender, t: string)
    ensures FirstReplacement(BuildTable(CyrillicKeyRules + LettersAToN + MasculineORules), sub, g) == Some(t)
            ==> FirstReplacement(Table(), sub, g) == Some(t)
  {
    var g1, g2, g3, g4, g5, g6, g7, g8, g9 := CyrillicKeyRules, LettersAToN, MasculineORules,
      FeminineORules, LettersPToT, MasculineURules, FeminineURules, LettersVToZ, SignRules;
    ChainStep(g1 + g2 + g3, g4, sub, g);
    KeepAfterFeminineO(sub, g, t);
  }

  lemma KeepAfterFeminineO(sub: string, g: Gender, t: string)
    ensures FirstReplacement(BuildTable(CyrillicKeyRules + LettersAToN + MasculineORules + FeminineORules),
                             sub, g) == Some(t)
            ==> FirstReplacement(Table(), sub, g) == Some(t)
  {
    var g1, g2, g3, g4, g5, g6, g7, g8, g9 := CyrillicKeyRules, LettersAToN, MasculineORules,
      FeminineORules, LettersPToT, MasculineURules, FeminineURules, LettersVToZ, SignRules;
    ChainStep(g1 + g2 + g3 + g4, g5, sub, g);
    ChainStep(g1 + g2 + g3 + g4 + g5, g6, sub, g);
    KeepAfterMasculineU(sub, g, t);
  }

  lemma KeepAfterMasculineU(sub: string, g: Gender, t: string)
    ensures FirstReplacement(BuildTable(CyrillicKeyRules + LettersAToN + MasculineORules + FeminineORules
                                        + LettersPToT + MasculineURules), sub, g) == Some(t)
            ==> FirstReplacement(Table(), sub, g) == Some(t)
  {
    var g1, g2, g3, g4, g5, g6, g7, g8, g9 := CyrillicKeyRules, LettersAToN, MasculineORules,
      FeminineORules, LettersPToT, MasculineURules, FeminineURules, LettersVToZ, SignRules;
    ChainStep(g1 + g2 + g3 + g4 + g5 + g6, g7, sub, g);
    KeepAfterFeminineU(sub, g, t);
  }

  lemma KeepAfterFeminineU(sub: string, g: Gender, t: string)
    ensures FirstReplacement(BuildTable(CyrillicKeyRules + LettersAToN + MasculineORules + FeminineORules
                                        + LettersPToT + MasculineURules + FeminineURules), sub, g) == Some(t)
            ==> FirstReplacement(Table(), sub, g) == Some(t)
  {
    var g1, g2, g3, g4, g5, g6, g7, g8, g9 := CyrillicKeyRules, LettersAToN, MasculineORules,
      FeminineORules, LettersPToT, MasculineURules, FeminineURules, LettersVToZ, SignRules;
    ChainStep(g1 + g2 + g3 + g4 + g5 + g6 + g7, g8, sub, g);
    ChainStep(g1 + g2 + g3 + g4 + g5 + g6 + g7 + g8, g9, sub, g);
  }

  // ---------------------------------------------------------------------------
  // o and u by harmony

  /** The first rule of each vowel group answers the lookup of its letter. */
  lemma MasculineORulesHit(upper: bool)
    ensures FirstReplacement(BuildTable(MasculineORules), [Case('O', upper)], Masculine) == Some([Case('О', upper)])
  {
    GroupHit(MasculineORules, Masculine, upper);
  }

  lemma FeminineORulesHit(upper: bool)
    ensures FirstReplacement(BuildTable(FeminineORules), [Case('O', upper)], Feminine) == Some([Case('Ө', upper)])
  {
    GroupHit(FeminineORules, Feminine, upper);
  }

  lemma MasculineURulesHit(upper: bool)
    ensures FirstReplacement(BuildTable(MasculineURules), [Case('U', upper)], Masculine) == Some([Case('У', upper)])
  {
    GroupHit(MasculineURules, Masculine, upper);
  }

  lemma FeminineURulesHit(upper: bool)
    ensures FirstReplacement(BuildTable(FeminineURules), [Case('U', upper)], Feminine) == Some([Case('Ү', upper)])
  {
    GroupHit(FeminineURules, Feminine, upper);
  }

  /** The lookup of o finds nothing in the groups before the o rules... */
  lemma OMissedUpToN(upper: bool, g: Gender)
    ensures FirstReplacement(BuildTable(CyrillicKeyRules + LettersAToN), [Case('O', upper)], g).None?
  {
    var s := [Case('O', upper)];
    OMissedBefore(upper, g);
    BuildTableMisses(CyrillicKeyRules, s, g);
    BuildTableMisses(LettersAToN, s, g);
    ChainStep(CyrillicKeyRules, LettersAToN, s, g);
  }

  /** ... and, in a feminine word, nothing in the masculine o rules either. */
  lemma OMissedInMasculineTable(upper: bool)
    ensures FirstReplacement(BuildTable(MasculineORules), [Case('O', upper)], Feminine).None?
  {
    OMissedInMasculineGroup(upper);
    BuildTableMisses(MasculineORules, [Case('O', upper)], Feminine);
  }

  lemma UMissedInMasculineTable(upper: bool)
    ensures FirstReplacement(BuildTable(MasculineURules), [Case('U', upper)], Feminine).None?
  {
    UMissedInMasculineGroup(upper);
    BuildTableMisses(MasculineURules, [Case('U', upper)], Feminine);
  }

  /** In a masculine word o and O become о and О (engine/composer.py:90). */
  lemma MasculineO(upper: bool)
    ensures FirstReplacement(Table(), [Case('O', upper)], Masculine) == Some([Case('О', upper)])
  {
    var s, g := [Case('O', upper)], Masculine;
    OMissedUpToN(upper, g);
    MasculineORulesHit(upper);
    ChainStep(CyrillicKeyRules + LettersAToN, MasculineORules, s, g);
    KeepAfterO(s, g, [Case('О', upper)]);
  }

  /** In a feminine word o and O become ө and Ө (engine/composer.py:97): the
      masculine-only rule for O is skipped. */
  lemma FeminineO(upper: bool)
    ensures FirstReplacement(Table(), [Case('O', upper)], Feminine) == Some([Case('Ө', upper)])
  {
    var s, g := [Case('O', upper)], Feminine;
    OMissedUpToN(upper, g);
    OMissedInMasculineTable(upper);
    ChainStep(CyrillicKeyRules + LettersAToN, MasculineORules, s, g);
    FeminineORulesHit(upper);
    ChainStep(CyrillicKeyRules + LettersAToN + MasculineORules, FeminineORules, s, g);
    KeepAfterFeminineO(s, g, [Case('Ө', upper)]);
  }

  lemma UMissedUpToN(upper: bool, g: Gender)
    ensures FirstReplacement(BuildTable(CyrillicKeyRules + LettersAToN), [Case('U', upper)], g).None?
  {
    var s := [Case('U', upper)];
    UMissedBefore(upper, g);
    BuildTableMisses(CyrillicKeyRules, s, g);
    BuildTableMisses(LettersAToN, s, g);
    ChainStep(CyrillicKeyRules, LettersAToN, s, g);
  }

  lemma UMissedInOTables(upper: bool, g: Gender)
    ensures FirstReplacement(BuildTable(MasculineORules), [Case('U', upper)], g).None?
    ensures FirstReplacement(BuildTable(FeminineORules), [Case('U', upper)], g).None?
    ensures FirstReplacement(BuildTable(LettersPToT), [Case('U', upper)], g).None?
  {
    var s := [Case('U', upper)];
    UMissedInOGroups(upper, g);
    BuildTableMisses(MasculineORules, s, g);
    BuildTableMisses(FeminineORules, s, g);
    BuildTableMisses(LettersPToT, s, g);
  }

  /** The lookup of u finds nothing in the groups before the u rules. */
  lemma UMissedUpToT(upper: bool, g: Gender)
    ensures FirstReplacement(BuildTable(CyrillicKeyRules + LettersAToN + MasculineORules + FeminineORules
                                        + LettersPToT), [Case('U', upper)], g).None?
  {
    var s := [Case('U', upper)];
    UMissedUpToN(upper, g);
    UMissedInOTables(upper, g);
    ChainStep(CyrillicKeyRules + LettersAToN, MasculineORules, s, g);
    ChainStep(CyrillicKeyRules + LettersAToN + MasculineORules, FeminineORules, s, g);
    ChainStep(CyrillicKeyRules + LettersAToN + MasculineORules + FeminineORules, LettersPToT, s, g);
  }

  /** In a masculine word u and U become у and У (engine/composer.py:113). */
  lemma MasculineU(upper: bool)
    ensures FirstReplacement(Table(), [Case('U', upper)], Masculine) == Some([Case('У', upper)])
  {
    var s, g := [Case('U', upper)], Masculine;
    UMissedUpToT(upper, g);
    MasculineURulesHit(upper);
    ChainStep(CyrillicKeyRules + LettersAToN + MasculineORules + FeminineORules + LettersPToT,
              MasculineURules, s, g);
    KeepAfterMasculineU(s, g, [Case('У', upper)]);
  }

  /** In a feminine word u and U become ү and Ү (engine/composer.py:120): the
      masculine-only rule for U is skipped. */
  lemma FeminineU(upper: bool)
    ensures FirstReplacement(Table(), [Case('U', upper)], Feminine) == Some([Case('Ү', upper)])
  {
    var s, g := [Case('U', upper)], Feminine;
    UMissedUpToT(upper, g);
    UMissedInMasculineTable(upper);
    ChainStep(CyrillicKeyRules + LettersAToN + MasculineORules + FeminineORules + LettersPToT,
              MasculineURules, s, g);
    FeminineURulesHit(upper);
    ChainStep(CyrillicKeyRules + LettersAToN + MasculineORules + FeminineORules + LettersPToT
              + MasculineURules, FeminineURules, s, g);
    KeepAfterFeminineU(s, g, [Case('Ү', upper)]);
  }

  /** The canonical table tells the two o's and the two u's apart by the
      word's harmony alone, in both cases: with `upper` false the lookups are
      of "o" and "u" and give "о"/"ө" and "у"/"ү"; with `upper` true they are
      of "O" and "U" and give "О"/"Ө" and "У"/"Ү". */
  lemma VowelsByHarmony(upper: bool)
    ensures FirstReplacement(Table(), [Case('O', upper)], Masculine) == Some([Case('О', upper)])
    ensures FirstReplacement(Table(), [Case('O', upper)], Feminine) == Some([Case('Ө', upper)])
    ensures FirstReplacement(Table(), [Case('U', upper)], Masculine) == Some([Case('У', upper)])
    ensures FirstReplacement(Table(), [Case('U', upper)], Feminine) == Some([Case('Ү', upper)])
  {
    MasculineO(upper);
    FeminineO(upper);
    MasculineU(upper);
    FeminineU(upper);
  }
}
