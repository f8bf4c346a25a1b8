/** Latin-to-Mongolian-Cyrillic transliteration: the rule table, its case-variant
    expansion and the longest-match, vowel-harmony-aware converter of
    engine/composer.py. */
module Transliteration {

  datatype Option<T> = None | Some(value: T)

  // ---------------------------------------------------------------------------
  // Rule flags (engine/composer.py:21-25)

  type Flags = bv8

  const X_AC: Flags := 0x01  // allow case conversion
  const X_M: Flags := 0x02   // only for masculine (back-vowel) words
  const X_F: Flags := 0x04   // only for feminine (front-vowel) words
  const X_MM: Flags := 0x08  // make the word masculine
  const X_MF: Flags := 0x10  // make the word feminine

  /** A conversion rule: `from` is replaced by `to` when the flags allow it. */
  datatype Rule = Rule(from: string, to: string, flags: Flags)

  predicate AllowsCase(flags: Flags) { flags & X_AC != 0 }

  /** The vowel-harmony state `word_flags` of one conversion; it only ever holds
      X_M or X_F. */
  datatype Gender = Masculine | Feminine {
    function Bit(): Flags { if Masculine? then X_M else X_F }
  }

  /** A rule may fire in state `g` when `(word_flags & rule.flags) == word_flags`. */
  predicate ValidIn(flags: Flags, g: Gender) { flags & g.Bit() == g.Bit() }

  /** The state after a rule with these flags fired: X_MF wins over X_MM. */
  function NextGender(g: Gender, flags: Flags): Gender {
    if flags & X_MF != 0 then Feminine
    else if flags & X_MM != 0 then Masculine
    else g
  }

  // ---------------------------------------------------------------------------
  // str.isalpha / str.upper / str.lower, restricted to the letters the table
  // uses: ASCII letters, Cyrillic А-Я and а-я, Ё/ё, Ө/ө and Ү/ү.

  predicate IsLatinUpper(c: char) { 'A' <= c <= 'Z' }
  predicate IsLatinLower(c: char) { 'a' <= c <= 'z' }
  predicate IsCyrillicUpper(c: char) { 'А' <= c <= 'Я' || c == 'Ё' || c == 'Ө' || c == 'Ү' }
  predicate IsCyrillicLower(c: char) { 'а' <= c <= 'я' || c == 'ё' || c == 'ө' || c == 'ү' }

  predicate IsUpperLetter(c: char) { IsLatinUpper(c) || IsCyrillicUpper(c) }
  predicate IsLowerLetter(c: char) { IsLatinLower(c) || IsCyrillicLower(c) }
  predicate IsAlpha(c: char) { IsUpperLetter(c) || IsLowerLetter(c) }

  function Upper(c: char): char {
    if IsLatinLower(c) || 'а' <= c <= 'я' then (c as int - 32) as char
    else if c == 'ё' then 'Ё'
    else if c == 'ө' then 'Ө'
    else if c == 'ү' then 'Ү'
    else c
  }

  function Lower(c: char): char {
    if IsLatinUpper(c) || 'А' <= c <= 'Я' then (c as int + 32) as char
    else if c == 'Ё' then 'ё'
    else if c == 'Ө' then 'ө'
    else if c == 'Ү' then 'ү'
    else c
  }

  /** The cased form picked by one branch of the case-variant recursion. */
  function Case(c: char, upper: bool): char { if upper then Upper(c) else Lower(c) }

  // ---------------------------------------------------------------------------
  // Table construction (engine/composer.py:143-192)

  /** The rules that `generate_case_variants(pos, toPos, curFrom, curTo)` appends,
      in the order it appends them: at an alphabetic position, every variant of
      the upper-case branch precedes every variant of the lower-case branch; the
      position consumes one replacement character (when one is left) cased the
      same way. A non-alphabetic position is copied and consumes nothing. */
  function CaseVariants(from: string, to: string, flags: Flags, pos: nat, toPos: nat,
                        curFrom: string, curTo: string): (vs: seq<Rule>)
    requires pos <= |from|
    decreases |from| - pos
    ensures |vs| >= 1
    ensures forall v :: v in vs ==> v.flags == flags && |v.from| == |curFrom| + |from| - pos
  {
    if pos >= |from| then [Rule(curFrom, curTo, flags)]
    else if IsAlpha(from[pos]) then
      CaseVariants(from, to, flags, pos + 1, toPos + 1, curFrom + [Upper(from[pos])],
                   if toPos < |to| then curTo + [Upper(to[toPos])] else curTo)
      + CaseVariants(from, to, flags, pos + 1, toPos + 1, curFrom + [Lower(from[pos])],
                     if toPos < |to| then curTo + [Lower(to[toPos])] else curTo)
    else
      CaseVariants(from, to, flags, pos + 1, toPos, curFrom + [from[pos]], curTo)
  }

  /** The entries `_add_rule` appends for one canonical rule. */
  function Expand(r: Rule): (es: seq<Rule>)
    ensures |es| >= 1
    ensures forall e :: e in es ==> e.flags == r.flags && |e.from| == |r.from|
    ensures !AllowsCase(r.flags) ==> es == [r]
  {
    if AllowsCase(r.flags) then CaseVariants(r.from, r.to, r.flags, 0, 0, "", "") else [r]
  }

  /** The table built by adding the canonical rules one after another. */
  function BuildTable(entries: seq<Rule>): (t: seq<Rule>)
    ensures |t| >= |entries|
  {
    if entries == [] then []
    else BuildTable(entries[..|entries| - 1]) + Expand(entries[|entries| - 1])
  }

  /** engine/composer.py:54-67: rules keyed by Cyrillic letters; "ИI" is Cyrillic И followed by Latin I. */
  const CyrillicKeyRules: seq<Rule> := [
    Rule("А",    "А",  X_M | X_F | X_MM | X_AC),
    Rule("АI",   "АЙ", X_M | X_F | X_MM | X_AC),
    Rule("О",    "О",  X_M | X_F | X_MM | X_AC),
    Rule("ОI",   "ОЙ", X_M | X_F | X_MM | X_AC),
    Rule("У",    "У",  X_M | X_F | X_MM | X_AC),
    Rule("УI",   "УЙ", X_M | X_F | X_MM | X_AC),
    Rule("Э",    "Э",  X_M | X_F | X_MF | X_AC),
    Rule("ЭI",   "ЭЙ", X_M | X_F | X_MF | X_AC),
    Rule("Ө",    "Ө",  X_M | X_F | X_MF | X_AC),
    Rule("ӨI",   "ӨЙ", X_M | X_F | X_MF | X_AC),
    Rule("Ү",    "Ү",  X_M | X_F | X_MF | X_AC),
    Rule("ҮI",   "ҮЙ", X_M | X_F | X_MF | X_AC),
    Rule("ИI",   "ИЙ", X_M | X_F | X_AC)
  ]

  /** engine/composer.py:69-88: A to N. */
  const LettersAToN: seq<Rule> := [
    Rule("A",    "А",  X_M | X_F | X_MM | X_AC),
    Rule("AI",   "АЙ", X_M | X_F | X_MM | X_AC),
    Rule("B",    "Б",  X_M | X_F | X_AC),
    Rule("C",    "Ц",  X_M | X_F | X_AC),
    Rule("CH",   "Ч",  X_M | X_F | X_AC),
    Rule("D",    "Д",  X_M | X_F | X_AC),
    Rule("E",    "Э",  X_M | X_F | X_MF | X_AC),
    Rule("EI",   "ЭЙ", X_M | X_F | X_MF | X_AC),
    Rule("F",    "Ф",  X_M | X_F | X_AC),
    Rule("G",    "Г",  X_M | X_F | X_AC),
    Rule("H",    "Х",  X_M | X_F | X_AC),
    Rule("I",    "И",  X_M | X_F | X_AC),
    Rule("II",   "ИЙ", X_M | X_F | X_AC),
    Rule("III",  "Ы",  X_M | X_F | X_AC),
    Rule("J",    "Ж",  X_M | X_F | X_AC),
    Rule("K",    "К",  X_M | X_F | X_AC),
    Rule("KH",   "Х",  X_M | X_F | X_AC),
    Rule("L",    "Л",  X_M | X_F | X_AC),
    Rule("M",    "М",  X_M | X_F | X_AC),
    Rule("N",    "Н",  X_M | X_F | X_AC)
  ]

  /** engine/composer.py:90-95: o in masculine words, and the o forms that make a word masculine. */
  const MasculineORules: seq<Rule> := [
    Rule("O",    "О",  X_M | X_AC),
    Rule("OI",   "ОЙ", X_M | X_AC),
    Rule("O\"",  "О",  X_M | X_F | X_MM | X_AC),
    Rule("O\"I", "ОЙ", X_M | X_F | X_MM | X_AC),
    Rule("\"O",  "О",  X_M | X_F | X_MM | X_AC),
    Rule("\"OI", "ОЙ", X_M | X_F | X_MM | X_AC)
  ]

  /** engine/composer.py:97-104: o in feminine words, and the o forms that make a word feminine. */
  const FeminineORules: seq<Rule> := [
    Rule("O",    "Ө",  X_F | X_AC),
    Rule("OI",   "ӨЙ", X_F | X_AC),
    Rule("Q",    "Ө",  X_M | X_F | X_MF | X_AC),
    Rule("QI",   "ӨЙ", X_M | X_F | X_MF | X_AC),
    Rule("O'",   "Ө",  X_M | X_F | X_MF | X_AC),
    Rule("O'I",  "ӨЙ", X_M | X_F | X_MF | X_AC),
    Rule("'O",   "Ө",  X_M | X_F | X_MF | X_AC),
    Rule("'OI",  "ӨЙ", X_M | X_F | X_MF | X_AC)
  ]

  /** engine/composer.py:106-111: P to T. */
  const LettersPToT: seq<Rule> := [
    Rule("P",    "П",  X_M | X_F | X_AC),
    Rule("R",    "Р",  X_M | X_F | X_AC),
    Rule("S",    "С",  X_M | X_F | X_AC),
    Rule("SH",   "Ш",  X_M | X_F | X_AC),
    Rule("SXC",  "Щ",  X_M | X_F | X_AC),
    Rule("T",    "Т",  X_M | X_F | X_AC)
  ]

  /** engine/composer.py:113-118: u in masculine words, and the u forms that make a word masculine. */
  const MasculineURules: seq<Rule> := [
    Rule("U",    "У",  X_M | X_AC),
    Rule("UI",   "УЙ", X_M | X_AC),
    Rule("U\"",  "У",  X_M | X_F | X_MM | X_AC),
    Rule("U\"I", "УЙ", X_M | X_F | X_MM | X_AC),
    Rule("\"U",  "У",  X_M | X_F | X_MM | X_AC),
    Rule("\"UI", "УЙ", X_M | X_F | X_MM | X_AC)
  ]

  /** engine/composer.py:120-127: u in feminine words, and the u forms that make a word feminine. */
  const FeminineURules: seq<Rule> := [
    Rule("U",    "Ү",  X_F | X_AC),
    Rule("UI",   "ҮЙ", X_F | X_AC),
    Rule("W",    "Ү",  X_M | X_F | X_MF | X_AC),
    Rule("WI",   "ҮЙ", X_M | X_F | X_MF | X_AC),
    Rule("U'",   "Ү",  X_M | X_F | X_MF | X_AC),
    Rule("U'I",  "ҮЙ", X_M | X_F | X_MF | X_AC),
    Rule("'U",   "Ү",  X_M | X_F | X_MF | X_AC),
    Rule("'UI",  "ҮЙ", X_M | X_F | X_MF | X_AC)
  ]

  /** engine/composer.py:129-136: V to Z. */
  const LettersVToZ: seq<Rule> := [
    Rule("V",    "В",  X_M | X_F | X_AC),
    Rule("X",    "Х",  X_M | X_F | X_AC),
    Rule("Y",    "Ы",  X_M | X_F | X_AC),
    Rule("YA",   "Я",  X_M | X_F | X_MM | X_AC),
    Rule("YE",   "Е",  X_M | X_F | X_MF | X_AC),
    Rule("YO",   "Ё",  X_M | X_F | X_MM | X_AC),
    Rule("YU",   "Ю",  X_M | X_F | X_MM | X_AC),
    Rule("Z",    "З",  X_M | X_F | X_AC)
  ]

  /** engine/composer.py:138-141: hard and soft signs, added without case variants. */
  const SignRules: seq<Rule> := [
    Rule("\"",   "ъ",  X_M | X_F),
    Rule("\"\"", "Ъ",  X_M | X_F),
    Rule("'",    "ь",  X_M | X_F),
    Rule("''",   "Ь",  X_M | X_F)
  ]

  /** The canonical rules, in the order `_init_rules` adds them
      (engine/composer.py:54-141). */
  const CanonicalRules: seq<Rule> :=
    CyrillicKeyRules + LettersAToN + MasculineORules
    + FeminineORules + LettersPToT + MasculineURules
    + FeminineURules + LettersVToZ + SignRules

  predicate NonEmptyPatterns(rules: seq<Rule>) {
    forall k :: 0 <= k < |rules| ==> |rules[k].from| > 0
  }

  lemma {:induction false} BuildTableNonEmpty(entries: seq<Rule>)
    requires NonEmptyPatterns(entries)
    ensures NonEmptyPatterns(BuildTable(entries))
  {
    if entries != [] {
      var init, last := entries[..|entries| - 1], entries[|entries| - 1];
      BuildTableNonEmpty(init);
      var t: seq<Rule> := BuildTable(init);
      var es: seq<Rule> := Expand(last);
      forall k | 0 <= k < |t + es| ensures |(t + es)[k].from| > 0 {
        if k >= |t| { assert (t + es)[k] in es; }
      }
    }
  }

  lemma NonEmptyConcat(a: seq<Rule>, b: seq<Rule>)
    requires NonEmptyPatterns(a) && NonEmptyPatterns(b)
    ensures NonEmptyPatterns(a + b)
  {
    forall k | 0 <= k < |a + b| ensures |(a + b)[k].from| > 0 {
      if k >= |a| { assert (a + b)[k] == b[k - |a|]; }
    }
  }

  lemma FirstGroupsNonEmpty()
    ensures NonEmptyPatterns(CyrillicKeyRules) && NonEmptyPatterns(LettersAToN)
    ensures NonEmptyPatterns(MasculineORules) && NonEmptyPatterns(FeminineORules)
  {
  }

  lemma LastGroupsNonEmpty()
    ensures NonEmptyPatterns(LettersPToT) && NonEmptyPatterns(MasculineURules)
    ensures NonEmptyPatterns(FeminineURules) && NonEmptyPatterns(LettersVToZ)
    ensures NonEmptyPatterns(SignRules)
  {
  }

  lemma CanonicalNonEmpty()
    ensures NonEmptyPatterns(CanonicalRules)
    ensures NonEmptyPatterns(BuildTable(CanonicalRules))
  {
    FirstGroupsNonEmpty();
    LastGroupsNonEmpty();
    var g := CyrillicKeyRules;
    NonEmptyConcat(g, LettersAToN);
    g := g + LettersAToN;
    NonEmptyConcat(g, MasculineORules);
    g := g + MasculineORules;
    NonEmptyConcat(g, FeminineORules);
    g := g + FeminineORules;
    NonEmptyConcat(g, LettersPToT);
    g := g + LettersPToT;
    NonEmptyConcat(g, MasculineURules);
    g := g + MasculineURules;
    NonEmptyConcat(g, FeminineURules);
    g := g + FeminineURules;
    NonEmptyConcat(g, LettersVToZ);
    g := g + LettersVToZ;
    NonEmptyConcat(g, SignRules);
    BuildTableNonEmpty(CanonicalRules);
  }

  /** The rule table the engine uses. */
  function Table(): seq<Rule> { BuildTable(CanonicalRules) }

  // ---------------------------------------------------------------------------
  // Pattern lengths (engine/composer.py:194-202)

  function PatternLengths(rules: seq<Rule>): set<nat> {
    set k | 0 <= k < |rules| :: |rules[k].from|
  }

  lemma {:induction false} MaxExists(s: set<nat>)
    requires s != {}
    ensures exists m :: m in s && forall x :: x in s ==> x <= m
    decreases |s|
  {
    var x :| x in s;
    if s != {x} {
      MaxExists(s - {x});
      var y :| y in s - {x} && forall z :: z in s - {x} ==> z <= y;
      var m := if x >= y then x else y;
      forall z | z in s ensures z <= m {
        if z != x { assert z in s - {x}; }
      }
    } else {
      assert forall z :: z in s ==> z <= x;
    }
  }

  function MaxOf(s: set<nat>): (m: nat)
    requires s != {}
    ensures m in s && forall x :: x in s ==> x <= m
  {
    MaxExists(s);
    var m :| m in s && forall x :: x in s ==> x <= m;
    m
  }

  /** `sorted(lengths, reverse=True)`: the elements of `s`, each once, largest first. */
  function SortedDescending(s: set<nat>): (r: seq<nat>)
    decreases |s|
    ensures forall x :: x in r <==> x in s
    ensures forall p, q :: 0 <= p < q < |r| ==> r[p] > r[q]
  {
    if s == {} then []
    else
      var m := MaxOf(s);
      [m] + SortedDescending(s - {m})
  }

  function TableLengths(): seq<nat> { SortedDescending(PatternLengths(Table())) }

  // ---------------------------------------------------------------------------
  // Conversion (engine/composer.py:270-323)

  /** `rule.from_str == substr` and the rule carries the current state's bit. */
  predicate Fires(r: Rule, sub: string, g: Gender) { r.from == sub && ValidIn(r.flags, g) }

  /** The inner scan `for rule in self.rules`, from index k on: the first rule in
      table order that fires on `sub`. */
  function FirstFiring(rules: seq<Rule>, sub: string, g: Gender, k: nat): (r: Option<nat>)
    decreases |rules| - k
    ensures r.Some? ==> k <= r.value < |rules| && Fires(rules[r.value], sub, g)
    ensures r.Some? ==> forall k' :: k <= k' < r.value ==> !Fires(rules[k'], sub, g)
    ensures r.None? ==> forall k' :: k <= k' < |rules| ==> !Fires(rules[k'], sub, g)
  {
    if k >= |rules| then None
    else if Fires(rules[k], sub, g) then Some(k)
    else FirstFiring(rules, sub, g, k + 1)
  }

  /** A match at the cursor: its length and the index of the rule that fired. */
  datatype Match = Match(len: nat, index: nat)

  /** The loop `for length in self.rule_lengths`, from the j-th length on:
      lengths that run past the end are skipped, and the first length with a
      firing rule wins. */
  function MatchAt(rules: seq<Rule>, lengths: seq<nat>, text: string, i: nat, g: Gender, j: nat)
    : (r: Option<Match>)
    requires i <= |text|
    decreases |lengths| - j
    ensures r.Some? ==> i + r.value.len <= |text| && r.value.index < |rules|
    ensures r.Some? ==> Fires(rules[r.value.index], text[i..i + r.value.len], g)
  {
    if j >= |lengths| then None
    else if i + lengths[j] > |text| then MatchAt(rules, lengths, text, i, g, j + 1)
    else
      match FirstFiring(rules, text[i..i + lengths[j]], g, 0)
      case Some(k) => Some(Match(lengths[j], k))
      case None => MatchAt(rules, lengths, text, i, g, j + 1)
  }

  /** One iteration of the conversion loop: the text it consumed, the text it
      produced, the rule that fired (None when a character was copied), and the
      harmony state before and after. */
  datatype Step = Step(consumed: string, produced: string, rule: Option<nat>,
                       before: Gender, after: Gender)

  /** The iteration of the conversion loop at cursor i in state g. */
  function StepAt(rules: seq<Rule>, lengths: seq<nat>, text: string, i: nat, g: Gender): (s: Step)
    requires NonEmptyPatterns(rules) && i < |text|
    ensures 1 <= |s.consumed| <= |text| - i && s.consumed == text[i..i + |s.consumed|]
    ensures s.before == g
    ensures s.rule.Some? ==> s.rule.value < |rules| && s.after == NextGender(g, rules[s.rule.value].flags)
    ensures s.rule.None? ==> s.after == g
  {
    match MatchAt(rules, lengths, text, i, g, 0)
    case Some(m) =>
      Step(text[i..i + m.len], rules[m.index].to, Some(m.index), g, NextGender(g, rules[m.index].flags))
    case None =>
      Step([text[i]], [text[i]], None, g, g)
  }

  /** The iterations of the conversion loop from cursor i in state g. */
  function Scan(rules: seq<Rule>, lengths: seq<nat>, text: string, i: nat, g: Gender)
    : seq<Step>
    requires NonEmptyPatterns(rules) && i <= |text|
    decreases |text| - i
  {
    if i == |text| then []
    else
      var s := StepAt(rules, lengths, text, i, g);
      [s] + Scan(rules, lengths, text, i + |s.consumed|, s.after)
  }

  function Output(steps: seq<Step>): string {
    if steps == [] then "" else steps[0].produced + Output(steps[1..])
  }

  lemma OutputCons(s: Step, rest: seq<Step>)
    ensures Output([s] + rest) == s.produced + Output(rest)
  {
    assert ([s] + rest)[1..] == rest;
  }

  /** One iteration of the conversion loop appends its step's output. */
  lemma ScanUnfold(rules: seq<Rule>, lengths: seq<nat>, text: string, i: nat, g: Gender,
                   acc: string)
    requires NonEmptyPatterns(rules) && i < |text|
    ensures var s := StepAt(rules, lengths, text, i, g);
      acc + Output(Scan(rules, lengths, text, i, g))
      == (acc + s.produced) + Output(Scan(rules, lengths, text, i + |s.consumed|, s.after))
  {
    var s := StepAt(rules, lengths, text, i, g);
    var rest := Scan(rules, lengths, text, i + |s.consumed|, s.after);
    OutputCons(s, rest);
  }

  /** One turn of the conversion loop keeps "output so far + output of the rest
      of the scan" equal to the whole conversion. */
  lemma ScanStepKeeps(rules: seq<Rule>, lengths: seq<nat>, text: string, i0: nat, g0: Gender,
                      r0: string, i: nat, g: Gender, r: string, whole: string)
    requires NonEmptyPatterns(rules) && i0 < |text|
    requires r0 + Output(Scan(rules, lengths, text, i0, g0)) == whole
    requires var s := StepAt(rules, lengths, text, i0, g0);
      r == r0 + s.produced && i == i0 + |s.consumed| && g == s.after
    ensures i <= |text| && r + Output(Scan(rules, lengths, text, i, g)) == whole
  {
    ScanUnfold(rules, lengths, text, i0, g0, r0);
  }

  function Consumed(steps: seq<Step>): string {
    if steps == [] then "" else steps[0].consumed + Consumed(steps[1..])
  }

  /** What `convert` returns for a table and its length list. */
  function ConvertText(rules: seq<Rule>, lengths: seq<nat>, text: string): (r: string)
    requires NonEmptyPatterns(rules)
    ensures text == "" ==> r == ""
  {
    Output(Scan(rules, lengths, text, 0, Masculine))
  }

  /** `convert` over the canonical table. */
  function Transliterate(text: string): string {
    CanonicalNonEmpty();
    ConvertText(Table(), TableLengths(), text)
  }

  // ---------------------------------------------------------------------------
  // Key filtering (engine/composer.py:239-268)

  /** `_is_input_char`: the two modifier characters and the ASCII letters. */
  predicate IsInputChar(c: char) {
    c == '\'' || c == '"' || ('a' <= c <= 'z') || ('A' <= c <= 'Z')
  }

  /** `should_process_key`: `chr(keyval)` fails outside 0..0x10FFFF; a surrogate
      code point is a valid `chr` result but not an input character. */
  predicate ShouldProcessKey(keyval: int) {
    if keyval < 0 || keyval > 0x10FFFF then false
    else if 0xD800 <= keyval < 0xE000 then false
    else IsInputChar(keyval as char)
  }

  /** For a character key, `should_process_key` is `_is_input_char`. */
  lemma ShouldProcessKeyIsInputChar(ch: char)
    ensures ShouldProcessKey(ch as int) == IsInputChar(ch)
  {
  }

  /** A key value passes `should_process_key` exactly when it is the code of
      an apostrophe, a double quote or an ASCII letter; in particular no value
      outside the code points, and no surrogate, passes. */
  lemma ShouldProcessKeyCodes(k: int)
    ensures ShouldProcessKey(k) <==> k == 0x22 || k == 0x27 || 0x41 <= k <= 0x5A || 0x61 <= k <= 0x7A
  {
  }

  // ---------------------------------------------------------------------------
  // The Composer object (engine/composer.py:36-49)

  class Composer {
    var rules: seq<Rule>
    var ruleLengths: seq<nat>

    ghost predicate Valid()
      reads this
    {
      rules == Table() && NonEmptyPatterns(rules)
      && ruleLengths == SortedDescending(PatternLengths(rules))
    }

    constructor ()
      ensures Valid()
    {
      rules := [];
      ruleLengths := [];
      new;
      InitRules();
      ComputeRuleLengths();
      CanonicalNonEmpty();
    }

    /** `_init_rules`: the canonical rules, added in order. */
    method InitRules()
      modifies this
      ensures rules == old(rules) + BuildTable(CanonicalRules)
      ensures ruleLengths == old(ruleLengths)
    {
      AddRules(CanonicalRules);
    }

    /** The straight-line sequence of `_add_rule` calls in `_init_rules`, one
        call per entry. */
    method AddRules(entries: seq<Rule>)
      modifies this
      ensures rules == old(rules) + BuildTable(entries)
      ensures ruleLengths == old(ruleLengths)
    {
      for n := 0 to |entries|
        invariant rules == old(rules) + BuildTable(entries[..n])
        invariant ruleLengths == old(ruleLengths)
      {
        var e := entries[n];
        AddRule(e.from, e.to, e.flags);
        assert entries[..n + 1][..n] == entries[..n];
      }
      assert entries[..|entries|] == entries;
    }

    /** `_add_rule`: a rule allowing case conversion is added as all its case
        variants, any other rule verbatim. */
    method AddRule(from: string, to: string, flags: Flags)
      modifies this
      ensures rules == old(rules) + Expand(Rule(from, to, flags))
      ensures ruleLengths == old(ruleLengths)
    {
      if flags & X_AC != 0 {
        GenerateCaseVariants(from, to, flags, 0, 0, "", "");
      } else {
        rules := rules + [Rule(from, to, flags)];
      }
    }

    /** The recursive helper nested in `_add_rule`. */
    method GenerateCaseVariants(from: string, to: string, flags: Flags, pos: nat, toPos: nat,
                                currentFrom: string, currentTo: string)
      requires pos <= |from|
      modifies this
      decreases |from| - pos
      ensures rules == old(rules) + CaseVariants(from, to, flags, pos, toPos, currentFrom, currentTo)
      ensures ruleLengths == old(ruleLengths)
    {
      if pos >= |from| {
        rules := rules + [Rule(currentFrom, currentTo, flags)];
        return;
      }
      if IsAlpha(from[pos]) {
        var newFrom := currentFrom + [Upper(from[pos])];
        var newTo := if toPos < |to| then currentTo + [Upper(to[toPos])] else currentTo;
        GenerateCaseVariants(from, to, flags, pos + 1, toPos + 1, newFrom, newTo);
        newFrom := currentFrom + [Lower(from[pos])];
        newTo := if toPos < |to| then currentTo + [Lower(to[toPos])] else currentTo;
        GenerateCaseVariants(from, to, flags, pos + 1, toPos + 1, newFrom, newTo);
      } else {
        GenerateCaseVariants(from, to, flags, pos + 1, toPos, currentFrom + [from[pos]], currentTo);
      }
    }

    /** `_compute_rule_lengths`: the distinct pattern lengths, largest first. */
    method ComputeRuleLengths()
      modifies this
      ensures rules == old(rules)
      ensures ruleLengths == SortedDescending(PatternLengths(rules))
    {
      var lengths: set<nat> := {};
      for k := 0 to |rules|
        invariant lengths == PatternLengths(rules[..k])
      {
        assert PatternLengths(rules[..k + 1]) == PatternLengths(rules[..k]) + {|rules[k].from|} by {
          assert forall q :: 0 <= q < k ==> rules[..k + 1][q] == rules[..k][q];
        }
        lengths := lengths + {|rules[k].from|};
      }
      assert rules[..|rules|] == rules;
      ruleLengths := SortedDescending(lengths);
    }

    /** The loop `for rule in self.rules` of `convert`: the first rule in table
        order whose pattern is `substr` and which carries the state's bit. */
    method FirstRule(substr: string, wordFlags: Gender) returns (found: Option<nat>)
      ensures found == FirstFiring(rules, substr, wordFlags, 0)
    {
      var k := 0;
      while k < |rules|
        invariant k <= |rules|
        invariant FirstFiring(rules, substr, wordFlags, k) == FirstFiring(rules, substr, wordFlags, 0)
      {
        var rule := rules[k];
        if rule.from == substr && rule.flags & wordFlags.Bit() == wordFlags.Bit() {
          return Some(k);
        }
        k := k + 1;
      }
      return None;
    }

    /** The loop `for length in self.rule_lengths` of `convert`: lengths that
        would run past the end are skipped; the first length at which some rule
        fires wins. */
    method MatchRule(text: string, i: nat, wordFlags: Gender) returns (found: Option<Match>)
      requires i <= |text|
      ensures found == MatchAt(rules, ruleLengths, text, i, wordFlags, 0)
    {
      var j := 0;
      while j < |ruleLengths|
        invariant j <= |ruleLengths|
        invariant MatchAt(rules, ruleLengths, text, i, wordFlags, j)
                  == MatchAt(rules, ruleLengths, text, i, wordFlags, 0)
      {
        var length := ruleLengths[j];
        if i + length <= |text| {
          var k := FirstRule(text[i..i + length], wordFlags);
          if k.Some? {
            return Some(Match(length, k.value));
          }
        }
        j := j + 1;
      }
      return None;
    }

    /** `convert`: scans left to right, trying the lengths longest first and the
        rules in table order, threading the harmony state; an unmatched
        character is copied. */
    method Convert(text: string) returns (result: string)
      requires NonEmptyPatterns(rules)
      ensures result == ConvertText(rules, ruleLengths, text)
    {
      if |text| == 0 {
        return "";
      }
      result := "";
      var wordFlags := Masculine;
      var i := 0;
      while i < |text|
        invariant i <= |text|
        invariant result + Output(Scan(rules, ruleLengths, text, i, wordFlags))
                  == ConvertText(rules, ruleLengths, text)
        decreases |text| - i
      {
        ghost var i0, g0, r0 := i, wordFlags, result;
        var found := MatchRule(text, i, wordFlags);
        if found.Some? {
          var rule := rules[found.value.index];
          result := result + rule.to;
          if rule.flags & X_MF != 0 {
            wordFlags := Feminine;
          } else if rule.flags & X_MM != 0 {
            wordFlags := Masculine;
          }
          i := i + found.value.len;
        } else {
          result := result + [text[i]];
          i := i + 1;
        }
        ghost var st := StepAt(rules, ruleLengths, text, i0, g0);
        assert result == r0 + st.produced && i == i0 + |st.consumed| && wordFlags == st.after;
        ScanStepKeeps(rules, ruleLengths, text, i0, g0, r0, i, wordFlags, result,
                      ConvertText(rules, ruleLengths, text));
      }
    }
  }
}
