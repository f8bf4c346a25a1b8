/** What the case-variant expansion of `_add_rule` produces
    (engine/composer.py:153-192), stated without the recursion: one entry per
    choice of upper or lower case for each alphabetic position, in a fixed
    upper-before-lower order. */
module CaseVariantLemmas {
  import opened Transliteration

  /** The number of alphabetic positions of a pattern. */
  function AlphaCount(s: string): nat {
    if s == [] then 0 else (if IsAlpha(s[0]) then 1 else 0) + AlphaCount(s[1..])
  }

  function Pow2(k: nat): nat { if k == 0 then 1 else 2 * Pow2(k - 1) }

  function Prefixed(b: bool, cs: seq<seq<bool>>): (r: seq<seq<bool>>)
    ensures |r| == |cs| && forall j :: 0 <= j < |cs| ==> r[j] == [b] + cs[j]
  {
    seq(|cs|, j requires 0 <= j < |cs| => [b] + cs[j])
  }

  /** All case choices for k alphabetic positions (true: upper case), listed
      with every choice starting with upper case before every choice starting
      with lower case, and so on position by position. */
  function Choices(k: nat): (cs: seq<seq<bool>>)
    ensures |cs| == Pow2(k)
    ensures forall j :: 0 <= j < |cs| ==> |cs[j]| == k
  {
    if k == 0 then [[]] else Prefixed(true, Choices(k - 1)) + Prefixed(false, Choices(k - 1))
  }

  /** The pattern with its alphabetic positions cased by the choice c, in order;
      every other position kept. */
  function CasedPattern(s: string, c: seq<bool>): string
    requires |c| == AlphaCount(s)
  {
    if s == [] then []
    else if IsAlpha(s[0]) then [Case(s[0], c[0])] + CasedPattern(s[1..], c[1..])
    else [s[0]] + CasedPattern(s[1..], c)
  }

  /** The replacement from position t on, its j-th character cased like the
      j-th alphabetic position of the pattern; it stops when either runs out. */
  function CasedReplacement(to: string, t: nat, c: seq<bool>): string
    decreases |c|
  {
    if c == [] || t >= |to| then [] else [Case(to[t], c[0])] + CasedReplacement(to, t + 1, c[1..])
  }

  /** The entry of the expanded table for rule r and case choice c. */
  function CaseVariant(r: Rule, c: seq<bool>): Rule
    requires |c| == AlphaCount(r.from)
  {
    Rule(CasedPattern(r.from, c), CasedReplacement(r.to, 0, c), r.flags)
  }

  function VariantsOf(from: string, to: string, flags: Flags, pos: nat, toPos: nat,
                      curFrom: string, curTo: string, cs: seq<seq<bool>>): seq<Rule>
    requires pos <= |from|
    requires forall j :: 0 <= j < |cs| ==> |cs[j]| == AlphaCount(from[pos..])
  {
    seq(|cs|, j requires 0 <= j < |cs| =>
      Rule(curFrom + CasedPattern(from[pos..], cs[j]), curTo + CasedReplacement(to, toPos, cs[j]), flags))
  }

  lemma PatternHead(s: string, b: bool, c: seq<bool>)
    requires s != [] && IsAlpha(s[0]) && |c| == AlphaCount(s[1..])
    ensures CasedPattern(s, [b] + c) == [Case(s[0], b)] + CasedPattern(s[1..], c)
  {
    assert ([b] + c)[0] == b && ([b] + c)[1..] == c;
  }

  lemma ReplacementHead(to: string, t: nat, b: bool, c: seq<bool>)
    ensures t < |to| ==> CasedReplacement(to, t, [b] + c) == [Case(to[t], b)] + CasedReplacement(to, t + 1, c)
    ensures t >= |to| ==> CasedReplacement(to, t, [b] + c) == [] == CasedReplacement(to, t + 1, c)
  {
    assert ([b] + c)[0] == b && ([b] + c)[1..] == c;
  }

  /** One entry after the first position, when that position is alphabetic:
      the case choice's head cases it, and the replacement's next character if
      there is one. */
  lemma AlphaHead(from: string, to: string, pos: nat, toPos: nat, curFrom: string, curTo: string,
                  b: bool, c: seq<bool>)
    requires pos < |from| && IsAlpha(from[pos]) && |c| == AlphaCount(from[pos + 1..])
    ensures from[pos..][1..] == from[pos + 1..] && |[b] + c| == AlphaCount(from[pos..])
    ensures curFrom + CasedPattern(from[pos..], [b] + c)
            == (curFrom + [Case(from[pos], b)]) + CasedPattern(from[pos + 1..], c)
    ensures curTo + CasedReplacement(to, toPos, [b] + c)
            == (if toPos < |to| then curTo + [Case(to[toPos], b)] else curTo)
               + CasedReplacement(to, toPos + 1, c)
  {
    var rest := from[pos..];
    assert rest[0] == from[pos] && rest[1..] == from[pos + 1..];
    PatternHead(rest, b, c);
    ReplacementHead(to, toPos, b, c);
  }

  lemma AlphaSplit(from: string, to: string, flags: Flags, pos: nat, toPos: nat,
                   curFrom: string, curTo: string)
    requires pos < |from| && IsAlpha(from[pos])
    ensures AlphaCount(from[pos..]) == AlphaCount(from[pos + 1..]) + 1
    ensures var cs' := Choices(AlphaCount(from[pos + 1..]));
      VariantsOf(from, to, flags, pos, toPos, curFrom, curTo, Choices(AlphaCount(from[pos + 1..]) + 1))
      == VariantsOf(from, to, flags, pos + 1, toPos + 1, curFrom + [Upper(from[pos])],
                    if toPos < |to| then curTo + [Upper(to[toPos])] else curTo, cs')
         + VariantsOf(from, to, flags, pos + 1, toPos + 1, curFrom + [Lower(from[pos])],
                      if toPos < |to| then curTo + [Lower(to[toPos])] else curTo, cs')
  {
    assert from[pos..][0] == from[pos] && from[pos..][1..] == from[pos + 1..];
    var k' := AlphaCount(from[pos + 1..]);
    var cs' := Choices(k');
    var all := VariantsOf(from, to, flags, pos, toPos, curFrom, curTo, Choices(k' + 1));
    var left := VariantsOf(from, to, flags, pos + 1, toPos + 1, curFrom + [Upper(from[pos])],
                           if toPos < |to| then curTo + [Upper(to[toPos])] else curTo, cs');
    var right := VariantsOf(from, to, flags, pos + 1, toPos + 1, curFrom + [Lower(from[pos])],
                            if toPos < |to| then curTo + [Lower(to[toPos])] else curTo, cs');
    forall j | 0 <= j < |all| ensures all[j] == (left + right)[j] {
      if j < |cs'| {
        AlphaHead(from, to, pos, toPos, curFrom, curTo, true, cs'[j]);
      } else {
        AlphaHead(from, to, pos, toPos, curFrom, curTo, false, cs'[j - |cs'|]);
      }
    }
  }

  lemma OtherSkip(from: string, to: string, flags: Flags, pos: nat, toPos: nat,
                  curFrom: string, curTo: string)
    requires pos < |from| && !IsAlpha(from[pos])
    ensures AlphaCount(from[pos..]) == AlphaCount(from[pos + 1..])
    ensures VariantsOf(from, to, flags, pos, toPos, curFrom, curTo, Choices(AlphaCount(from[pos + 1..])))
            == VariantsOf(from, to, flags, pos + 1, toPos, curFrom + [from[pos]], curTo,
                          Choices(AlphaCount(from[pos + 1..])))
  {
    assert from[pos..][0] == from[pos] && from[pos..][1..] == from[pos + 1..];
    var cs' := Choices(AlphaCount(from[pos + 1..]));
    forall j | 0 <= j < |cs'|
      ensures curFrom + CasedPattern(from[pos..], cs'[j])
              == (curFrom + [from[pos]]) + CasedPattern(from[pos + 1..], cs'[j])
    {
      assert CasedPattern(from[pos..], cs'[j]) == [from[pos]] + CasedPattern(from[pos + 1..], cs'[j]);
    }
  }

  /** The recursion of the expansion enumerates exactly the case choices, in
      the order of Choices. */
  lemma {:induction false} CaseVariantsAreChoices(from: string, to: string, flags: Flags, pos: nat,
                                                 toPos: nat, curFrom: string, curTo: string)
    requires pos <= |from|
    ensures CaseVariants(from, to, flags, pos, toPos, curFrom, curTo)
            == VariantsOf(from, to, flags, pos, toPos, curFrom, curTo, Choices(AlphaCount(from[pos..])))
    decreases |from| - pos
  {
    if pos == |from| {
      assert from[pos..] == [];
      assert curFrom + [] == curFrom && curTo + [] == curTo;
    } else if IsAlpha(from[pos]) {
      CaseVariantsAreChoices(from, to, flags, pos + 1, toPos + 1, curFrom + [Upper(from[pos])],
                             if toPos < |to| then curTo + [Upper(to[toPos])] else curTo);
      CaseVariantsAreChoices(from, to, flags, pos + 1, toPos + 1, curFrom + [Lower(from[pos])],
                             if toPos < |to| then curTo + [Lower(to[toPos])] else curTo);
      AlphaSplit(from, to, flags, pos, toPos, curFrom, curTo);
    } else {
      CaseVariantsAreChoices(from, to, flags, pos + 1, toPos, curFrom + [from[pos]], curTo);
      OtherSkip(from, to, flags, pos, toPos, curFrom, curTo);
    }
  }

  /** A rule allowing case conversion with k alphabetic positions is added as
      2^k entries: the j-th is the variant for the j-th case choice. */
  lemma ExpandIsAllCaseChoices(r: Rule)
    requires AllowsCase(r.flags)
    ensures var cs := Choices(AlphaCount(r.from));
      |Expand(r)| == Pow2(AlphaCount(r.from))
      && forall j :: 0 <= j < |cs| ==> Expand(r)[j] == CaseVariant(r, cs[j])
  {
    CaseVariantsAreChoices(r.from, r.to, r.flags, 0, 0, "", "");
    assert r.from[0..] == r.from;
    var cs := Choices(AlphaCount(r.from));
    forall j | 0 <= j < |cs| ensures Expand(r)[j] == CaseVariant(r, cs[j]) {
      assert "" + CasedPattern(r.from, cs[j]) == CasedPattern(r.from, cs[j]);
      assert "" + CasedReplacement(r.to, 0, cs[j]) == CasedReplacement(r.to, 0, cs[j]);
    }
  }

  lemma ChoicesAt(k: nat, j: nat)
    requires j < Pow2(k)
    ensures Choices(k + 1)[j] == [true] + Choices(k)[j]
    ensures Choices(k + 1)[j + Pow2(k)] == [false] + Choices(k)[j]
  {
  }

  /** Any table entry the expansion adds: same flags, same pattern length. */
  lemma ExpandSize(r: Rule)
    ensures |Expand(r)| == if AllowsCase(r.flags) then Pow2(AlphaCount(r.from)) else 1
    ensures forall e :: e in Expand(r) ==> e.flags == r.flags && |e.from| == |r.from|
  {
    if AllowsCase(r.flags) {
      ExpandIsAllCaseChoices(r);
    }
  }

  /** Position p of a variant's pattern: an alphabetic position is the source
      character cased by the choice for its rank among the alphabetic
      positions; any other position is unchanged. */
  lemma {:induction false} CasedPatternAt(s: string, c: seq<bool>, p: nat)
    requires |c| == AlphaCount(s) && p < |s|
    ensures |CasedPattern(s, c)| == |s|
    ensures AlphaCount(s[..p]) <= |c|
    ensures IsAlpha(s[p]) ==>
              AlphaCount(s[..p]) < |c| && CasedPattern(s, c)[p] == Case(s[p], c[AlphaCount(s[..p])])
    ensures !IsAlpha(s[p]) ==> CasedPattern(s, c)[p] == s[p]
    decreases p
  {
    var c' := if IsAlpha(s[0]) then c[1..] else c;
    CasedPatternLength(s[1..], c');
    assert s[..p + 1][..p] == s[..p];
    if p == 0 {
      assert s[..0] == [];
    } else {
      CasedPatternAt(s[1..], c', p - 1);
      assert s[..p][0] == s[0] && s[..p][1..] == s[1..][..p - 1];
    }
  }

  lemma {:induction false} CasedPatternLength(s: string, c: seq<bool>)
    requires |c| == AlphaCount(s)
    ensures |CasedPattern(s, c)| == |s|
  {
    if s != [] {
      CasedPatternLength(s[1..], if IsAlpha(s[0]) then c[1..] else c);
    }
  }

  /** The replacement of a variant: its length is the smaller of the
      replacement's length and the number of alphabetic positions, and its
      j-th character is the replacement's j-th character cased by the choice
      for the j-th alphabetic position. */
  lemma {:induction false} CasedReplacementAt(to: string, t: nat, c: seq<bool>)
    requires t <= |to|
    ensures |CasedReplacement(to, t, c)| == if |to| - t < |c| then |to| - t else |c|
    ensures forall j :: 0 <= j < |CasedReplacement(to, t, c)| ==>
              CasedReplacement(to, t, c)[j] == Case(to[t + j], c[j])
    decreases |c|
  {
    if c != [] && t < |to| {
      CasedReplacementAt(to, t + 1, c[1..]);
    }
  }

  /** a precedes b in the expansion order: at the first position where they
      differ, a has upper case and b lower case. */
  ghost predicate UpperFirst(a: seq<bool>, b: seq<bool>) {
    exists d :: 0 <= d < |a| && d < |b| && a[..d] == b[..d] && a[d] && !b[d]
  }

  lemma ConsKeepsUpperFirst(b: bool, x: seq<bool>, y: seq<bool>)
    requires UpperFirst(x, y)
    ensures UpperFirst([b] + x, [b] + y)
  {
    var d :| 0 <= d < |x| && d < |y| && x[..d] == y[..d] && x[d] && !y[d];
    assert ([b] + x)[..d + 1] == [b] + x[..d];
    assert ([b] + y)[..d + 1] == [b] + y[..d];
  }

  lemma HeadsDiffer(x: seq<bool>, y: seq<bool>)
    requires |x| > 0 && |y| > 0 && x[0] && !y[0]
    ensures UpperFirst(x, y)
  {
    assert x[..0] == y[..0];
  }

  /** The choices are listed upper before lower at the first position where
      two of them differ. */
  lemma {:induction false} ChoicesOrdered(k: nat)
    ensures forall p, q :: 0 <= p < q < |Choices(k)| ==> UpperFirst(Choices(k)[p], Choices(k)[q])
  {
    if k > 0 {
      ChoicesOrdered(k - 1);
      var cs' := Choices(k - 1);
      var n := |cs'|;
      var cs := Choices(k);
      assert cs == Prefixed(true, cs') + Prefixed(false, cs');
      forall p, q | 0 <= p < q < |cs| ensures UpperFirst(cs[p], cs[q]) {
        if q < n {
          ConsKeepsUpperFirst(true, cs'[p], cs'[q]);
        } else if n <= p {
          ConsKeepsUpperFirst(false, cs'[p - n], cs'[q - n]);
        } else {
          HeadsDiffer(cs[p], cs[q]);
        }
      }
    }
  }

  lemma SxcCount()
    ensures AlphaCount("C") == 1 && AlphaCount("XC") == 2 && AlphaCount("SXC") == 3
  {
    assert "SXC"[1..] == "XC" && "XC"[1..] == "C" && "C"[1..] == [];
  }

  /** The case choice for entry j of a three-letter rule's expansion. */
  lemma SxcChoices()
    ensures Choices(3)[3] == [true, false, false]
    ensures Choices(3)[4] == [false, true, true]
    ensures Choices(3)[7] == [false, false, false]
  {
    ChoicesAt(0, 0);
    ChoicesAt(1, 0);
    ChoicesAt(1, 1);
    ChoicesAt(2, 3);
    ChoicesAt(2, 0);
  }

  lemma SxcPattern(b0: bool, b12: bool)
    ensures AlphaCount("SXC") == 3
    ensures CasedPattern("SXC", [b0, b12, b12])
            == [Case('S', b0), Case('X', b12), Case('C', b12)]
  {
    SxcCount();
    assert "SXC"[1..] == "XC" && "XC"[1..] == "C" && "C"[1..] == [];
    PatternHead("C", b12, []);
    PatternHead("XC", b12, [b12]);
    PatternHead("SXC", b0, [b12, b12]);
  }

  lemma SxcReplacement(b0: bool, b12: bool)
    ensures CasedReplacement("Щ", 0, [b0, b12, b12]) == [Case('Щ', b0)]
  {
    ReplacementHead("Щ", 0, b0, [b12, b12]);
    ReplacementHead("Щ", 1, b12, [b12]);
  }

  lemma SxcCases()
    ensures Case('S', true) == 'S' && Case('S', false) == 's'
    ensures Case('X', true) == 'X' && Case('X', false) == 'x'
    ensures Case('C', true) == 'C' && Case('C', false) == 'c'
    ensures Case('Щ', true) == 'Щ' && Case('Щ', false) == 'щ'
  {
  }

  /** The three-letter rule "SXC" -> "Щ" (engine/composer.py:110): "sxc", "Sxc"
      and "sXC" are among its entries, mapped to "щ", "Щ" and "щ". */
  lemma SxcVariants()
    ensures Rule("sxc", "щ", X_M | X_F | X_AC) in Expand(Rule("SXC", "Щ", X_M | X_F | X_AC))
    ensures Rule("Sxc", "Щ", X_M | X_F | X_AC) in Expand(Rule("SXC", "Щ", X_M | X_F | X_AC))
    ensures Rule("sXC", "щ", X_M | X_F | X_AC) in Expand(Rule("SXC", "Щ", X_M | X_F | X_AC))
  {
    var r := Rule("SXC", "Щ", X_M | X_F | X_AC);
    SxcCount();
    ExpandIsAllCaseChoices(r);
    SxcChoices();
    SxcPattern(true, false);
    SxcPattern(false, true);
    SxcPattern(false, false);
    SxcReplacement(true, false);
    SxcReplacement(false, true);
    SxcReplacement(false, false);
    SxcCases();
    assert Expand(r)[3] == Rule("Sxc", "Щ", r.flags);
    assert Expand(r)[4] == Rule("sXC", "щ", r.flags);
    assert Expand(r)[7] == Rule("sxc", "щ", r.flags);
  }
}
